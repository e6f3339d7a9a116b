# Wallpaper maker: state model

A Dafny model of the `WallpaperMaker` class of a single-page wallpaper
generator (`index.tsx`). The user picks a colour (typed hex, preset swatch) and
a target resolution (a catalog card, or a custom width and height). The page
shows which card and swatch are selected and reports outcomes in a snackbar.
It then exports a PNG canvas of exactly that resolution as
`wallpaper-{w}x{h}.png`.

The model keeps the class's own state as fields of a Dafny class
`Maker.WallpaperMaker`:

- `currentColor` and `currentResolution`;
- the six-entry resolution catalog;
- the snackbar's visibility, text and stored timer id.

The page elements it writes to become plain values:

- `displayedHex` is the hex label and the hex input field;
- `highlightedSwatches` is the set of selected swatch indices;
- `selectedCards` is the set of selected card ids;
- `deviceInfo` is the device label.

The dismiss timers become a set of pending timer ids, and the exports waiting
for their delayed download a multiset of canvases. The pure parts are
functions in their own modules:

- `Validate`: the hex and dimension tests and the colour-update rule;
- `Device`: the case-insensitive user-agent tests;
- `Catalog`: the catalog, lookup by id, and the card-selection rule;
- `Palette`: the preset swatches;
- `Export`: the file name and its parser.

Inputs that come from the host are parameters:

- the rounded physical screen size and the user-agent string go to the constructor;
- the two parsed custom fields go to `ApplyCustom`, as `Option<int>`, where `None` stands for NaN.

Object invariant (`Valid`), kept by every state-changing method:

- the stored colour passes the hex test and is lower case;
- the displayed text is its upper case;
- the highlighted swatches are those whose string equals the stored colour;
- the catalog differs from the initial one only in the `detected` entry's name and dimensions;
- every selected card is in the catalog;
- the snackbar is visible exactly while one dismiss timer is pending, and that timer is the stored one.

## Model

| member | source | states |
|---|---|---|
| `Validate.HexRunIff` | index.tsx:243 | `[A-Fa-f0-9]{n}` matched against a whole string holds iff the string has length n and only hex digits |
| `Validate.IsValidHexIff` | index.tsx:242-244 | the hex test accepts exactly `#` followed by 3 or 6 hex digits of either case, nothing else |
| `Validate.IsValidDimension` | index.tsx:246-248 | true exactly for a parsed number (not NaN) in [100, 10000]; an accepted dimension is positive and renders as three to five digits |
| `Validate.StoredColor` | index.tsx:178-182 | an accepted input yields a valid lower-case colour equal to the input up to case; a rejected input leaves the colour unchanged |
| `Validate.LowerKeepsValid` | index.tsx:180 | lower-casing an accepted colour gives an accepted, lower-case colour |
| `Validate.DisplayRoundTrip` | index.tsx:185-189 | the displayed upper-case text is itself accepted, and lower-casing it gives back the stored colour |
| `Validate.StoredColorIdempotent` | index.tsx:178-182 | setting the same colour twice leaves the same colour as setting it once |
| `Validate.StoredColorInvariant` | index.tsx:178-182 | from a stored colour, any input (accepted or not) again leaves a stored colour |
| `Text.ToLower` | index.tsx:180 | lower-casing keeps the length and maps each character by ASCII lower-casing |
| `Text.ToUpper` | index.tsx:185 | upper-casing keeps the length and maps each character by ASCII upper-casing |
| `Text.LowercaseFixed` | index.tsx:88 | re-applying the lower-case default colour at start-up leaves it as it is |
| `Device.TestIgnoreCaseIff` | index.tsx:101-103 | the left-to-right scan succeeds iff the pattern occurs at some position, ignoring case |
| `Device.MatchAtIgnoresCase` | index.tsx:101-103 | a match does not depend on the case of the user-agent string |
| `Device.DeviceLabel` | index.tsx:95-103 | the label is "iPhone", "iPad", "Android Device" or "Your Device"; each one is chosen exactly when its pattern occurs and no earlier pattern does |
| `Catalog.WellFormedShape` | index.tsx:71-78 | a catalog that changed only in its `detected` entry has unique ids, exactly the six known ids, and its other entries as constructed |
| `Catalog.FindIndex` | index.tsx:200 | lookup by id returns the first entry with that id, and returns none exactly when no entry has the id |
| `Catalog.SelectById` | index.tsx:213 | with a non-empty id that is in the catalog, exactly that card is selected |
| `Catalog.SelectUnknownId` | index.tsx:213 | with a non-empty id that is not in the catalog, no card is selected |
| `Catalog.SelectByDimensions` | index.tsx:215-235 | without an id, a non-custom card is selected iff its dimensions equal the current resolution, and `custom` is selected iff no such card exists |
| `Catalog.ActiveCardsInCatalog` | index.tsx:208-235 | the selection only names cards of the catalog |
| `Catalog.DetectedCoincidesWithPreset` | index.tsx:215-221 | a detected 1080 x 1920 device and `fullhd` are both selected when no id is passed |
| `Catalog.PassThenFallback` | index.tsx:209-235 | the pass over the cards followed by the `custom` fallback gives exactly the selection `ActiveCards` describes |
| `Palette.PresetColorsValid` | index.tsx:63-68 | all sixteen preset swatches pass the hex test |
| `Palette.WhiteSwatchNeverHighlighted` | index.tsx:191-196 | as written, clicking the `#FFFFFF` swatch stores `#ffffff`, and no stored colour ever highlights that swatch |
| `Palette.ClickedSwatchHighlighted` | index.tsx:191-196 | with the swatch compared in lower case, the swatch just clicked is always highlighted |
| `Palette.HighlightedSwatchIsCurrent` | index.tsx:191-196 | clicking a highlighted swatch leaves the colour unchanged |
| `Export.DecimalRoundTrip` | index.tsx:285 | reading back the decimal rendering of a natural number gives the number |
| `Export.IntRoundTrip` | index.tsx:285 | reading back the rendering of any integer, including a negative one, gives the integer |
| `Export.ExportFilename` | index.tsx:285 | the name `wallpaper-` + decimal width + `x` + decimal height + `.png`, which the parser reads back as exactly that resolution |
| `Export.FilenameRoundTrip` | index.tsx:285 | parsing `wallpaper-{w}x{h}.png` gives back exactly (w, h) |
| `Export.FilenameInjective` | index.tsx:285 | different resolutions are downloaded under different names |
| `Maker.DefaultColorStored` | index.tsx:59 | the default `#76d1ff` is a valid lower-case colour and is displayed as `#76D1FF` |
| `Maker.WallpaperMaker.constructor` | index.tsx:39-91 | start-up state: default colour, detected resolution, the catalog with its `detected` entry filled in, only the `detected` card selected, no snackbar, no pending export, and the invariant established |
| `Maker.WallpaperMaker.Initialize` | index.tsx:83-91 | start-up sequence: detection, colour applied unchanged, `detected` card selected by identity |
| `Maker.WallpaperMaker.DetectDevice` | index.tsx:93-111 | the current resolution becomes the detected size; only the `detected` entry's name and dimensions change, to the device label and that size |
| `Maker.WallpaperMaker.SetColor` | index.tsx:178-182 | rejected input changes nothing; accepted input stores the lower case and refreshes the display; the invariant is kept |
| `Maker.WallpaperMaker.UpdateColorUI` | index.tsx:184-197 | the displayed text is the upper case of the stored colour; the highlighted swatches are those whose own string equals it, as written (see Findings) |
| `Maker.WallpaperMaker.ClickSwatch` | index.tsx:124 | a swatch click stores the swatch's colour in lower case, keeps the colour invariant, and never leaves the white swatch highlighted |
| `Maker.WallpaperMaker.SetResolution` | index.tsx:199-206 | no effect for `custom` or an unknown id; otherwise the resolution becomes that entry's dimensions and that card alone is selected |
| `Maker.WallpaperMaker.SelectActiveResolutionCard` | index.tsx:208-236 | the pass over the cards and the `custom` fallback leave exactly the selection `ActiveCards` describes |
| `Maker.WallpaperMaker.SwitchCards` | index.tsx:209-229 | the loop switches each card on exactly when its id equals the passed id, or, without an id, when it is not `custom` and its dimensions equal the current resolution; it reports whether a card matched by dimensions |
| `Maker.WallpaperMaker.ApplyCustom` | index.tsx:161-174 | two valid dimensions become the resolution, select only `custom` and report "Custom resolution set"; otherwise the resolution and the selection are unchanged and the message is "Enter valid dimensions (100-10000)"; either message is shown under `ShowSnackbar`'s timer rule |
| `Maker.WallpaperMaker.ShowSnackbar` | index.tsx:298-310 | the text always becomes the message; if already visible, timer state is unchanged; otherwise the stored timer is cleared and exactly one fresh dismiss timer is pending |
| `Maker.WallpaperMaker.DismissTimerFires` | index.tsx:309 | a pending dismiss timer hides the snackbar and leaves no timer pending |
| `Maker.WallpaperMaker.DownloadWallpaper` | index.tsx:263-290 | the canvas is exactly the current resolution and is filled with the current colour; it waits among the pending exports for the delayed download |
| `Maker.WallpaperMaker.DownloadLinkTimerFires` | index.tsx:283-289 | a pending canvas is downloaded as `wallpaper-{w}x{h}.png` for its own size, a name that parses back to that size; it leaves the pending exports; "Wallpaper downloaded!" is shown under `ShowSnackbar`'s timer rule |
| `Maker.NotifyTwice` | index.tsx:298-310 | two notifications in a row leave the second text visible with one dismiss timer pending |

## Left out

- Element lookups, card and swatch markup, ARIA attributes, the size indicator text, the custom dialog's show/hide and focus: presentation. The selection highlight is kept as sets of ids and indices.
- The card click handler (index.tsx:144-147): it calls `SetResolution` for every card except `custom`. For `custom` it opens the dialog, which is presentation.
- The hex input handler (index.tsx:154-157): it calls `SetColor` after the same test `SetColor` repeats, so it is `SetColor`.
- The native colour picker (index.tsx:250-261): a foreign browser widget. Its value goes through `SetColor`.
- Canvas drawing: the solid fill is recorded as `Canvas.fill`. The gradient overlay and PNG encoding are floating-point compositing and a browser API, and are not modelled.
- The busy/disabled state of the download button and the 1500 ms delay that restores it (index.tsx:279-280, 291-294): timer-driven UI state. Because the model omits the disabled button, it allows several exports to be pending at once.
- The 800 ms delay itself: only whether an export is pending is modelled.
- The export has no failure path and no failure message, and the model claims none.
- Without an id, every card whose dimensions match is selected, not only the first.
- The 3000 ms delay itself: only whether a dismiss timer is pending is modelled. Timer ids are drawn from a counter (`nextTimerId`) standing for the browser's fresh ids.
- `Math.round(window.screen.width * window.devicePixelRatio)`: floating point on host input. The constructor takes the rounded width and height as integers. Zero or other degenerate values are accepted as given, as in the code.
- `parseInt` of the text fields: each field arrives as `Option<int>`, where `None` stands for NaN.
- `Export.IntToDecimal`: renders integers in plain decimal. JavaScript switches to exponent notation from 10^21 on, which no screen size reaches.
- `Text.ToLower`, `Text.ToUpper`: ASCII only. JavaScript's mapping differs only on non-ASCII characters, and these functions are applied only to strings the hex test accepted.
- `Device.DeviceLabel`: the `/i` tests are modelled with ASCII case folding. Without the `u` flag, a non-ASCII character never folds onto an ASCII one, so for these ASCII patterns the two agree.
- capacitor.config.ts: static packaging configuration, no logic.

## Findings

| source | as written | input that shows it | evidently intended | confidence | as-written member | corrected member |
|---|---|---|---|---|---|---|
| index.tsx:66, 180, 193 | swatch strings are compared with the lower-cased stored colour, and the white swatch is written `#FFFFFF` | click the white swatch: the colour becomes `#ffffff` but the swatch is not marked selected | the clicked swatch is highlighted | not executed; high | `Palette.WhiteSwatchNeverHighlighted` | `Palette.ClickedSwatchHighlighted` |

The class keeps the comparison as written (`Palette.HighlightedAsWritten`), so `Maker.WallpaperMaker.ClickSwatch` shows the defect on the object itself. `Palette.Highlighted` is the corrected comparison that `Palette.ClickedSwatchHighlighted` is proved about.
