/**
 * The state of the wallpaper maker: the selected colour and resolution, the
 * resolution catalog, which cards and swatches are shown as selected, and the
 * snackbar with its pending dismiss timers. Page elements are reduced to the
 * values the code writes into them.
 */
module Maker {
  import opened Wrappers
  import opened Text
  import opened Validate
  import opened Device
  import opened Catalog
  import opened Palette
  import opened Export

  const DefaultColor := "#76d1ff"
  const DefaultResolution := Resolution(1080, 2400)
  const CustomSetMessage := "Custom resolution set"
  const InvalidDimensionsMessage := "Enter valid dimensions (100-10000)"
  const DownloadedMessage := "Wallpaper downloaded!"

  /** The default colour passes the hex test, is already lower case, and is displayed as "#76D1FF". */
  lemma DefaultColorStored()
    ensures IsStoredColor(DefaultColor)
    ensures ToUpper(DefaultColor) == "#76D1FF"
  {
  }

  /** What an export draws: a canvas of the given size filled with a colour. */
  datatype Canvas = Canvas(width: int, height: int, fill: string)

  class WallpaperMaker {
    var currentColor: string
    var currentResolution: Resolution
    var catalog: seq<Preset>
    /** Text of the hex label and value of the hex input field. */
    var displayedHex: string
    /** Indices of the preset swatches marked selected. */
    var highlightedSwatches: set<nat>
    /** Text of the device label. */
    var deviceInfo: string
    /** Ids of the resolution cards marked selected. */
    var selectedCards: set<string>
    var snackbarVisible: bool
    var snackbarText: string
    /** The timer id last stored by the snackbar, if any. */
    var snackbarTimeout: Option<nat>
    /** Dismiss timers scheduled and not yet fired or cleared. */
    var pendingDismiss: set<nat>
    /** The id the next scheduled timer will get. */
    var nextTimerId: nat
    /** Canvases drawn by an export whose delayed download step has not run yet. */
    var pendingExports: multiset<Canvas>

    predicate ColorOk()
      reads this`currentColor, this`displayedHex, this`highlightedSwatches
    {
      IsStoredColor(currentColor) && displayedHex == ToUpper(currentColor) &&
      highlightedSwatches == HighlightedAsWritten(currentColor)
    }

    predicate CatalogOk()
      reads this`catalog, this`selectedCards
    {
      WellFormed(catalog) && selectedCards <= Ids(catalog)
    }

    /** The snackbar is visible exactly while one dismiss timer, the stored one, is pending. */
    predicate SnackbarOk()
      reads this`snackbarVisible, this`snackbarTimeout, this`pendingDismiss, this`nextTimerId
    {
      (snackbarVisible <==> pendingDismiss != {}) &&
      (pendingDismiss != {} ==> snackbarTimeout.Some? && pendingDismiss == {snackbarTimeout.value}) &&
      (snackbarTimeout.Some? ==> snackbarTimeout.value < nextTimerId)
    }

    predicate Valid()
      reads this
    {
      ColorOk() && CatalogOk() && SnackbarOk()
    }

    /**
     * What showing `message` does to the snackbar: the text is replaced and the
     * snackbar is visible; one already on screen keeps its timer, otherwise
     * exactly one fresh dismiss timer is pending and stored.
     */
    twostate predicate SnackbarShown(message: string)
      reads this
    {
      snackbarText == message && snackbarVisible &&
      (old(snackbarVisible) ==>
        pendingDismiss == old(pendingDismiss) && snackbarTimeout == old(snackbarTimeout) &&
        nextTimerId == old(nextTimerId)) &&
      (!old(snackbarVisible) ==>
        snackbarTimeout == Some(old(nextTimerId)) && pendingDismiss == {old(nextTimerId)} &&
        old(nextTimerId) !in old(pendingDismiss) && nextTimerId == old(nextTimerId) + 1)
    }

    /**
     * Start-up: default colour and resolution, the initial catalog, then device
     * detection from the host's physical screen size and user-agent string, the
     * colour applied, and the `detected` card selected.
     */
    constructor (screenWidth: int, screenHeight: int, userAgent: string)
      ensures Valid()
      ensures currentColor == DefaultColor && displayedHex == "#76D1FF"
      ensures currentResolution == Resolution(screenWidth, screenHeight)
      ensures catalog == InitialCatalog[0 := InitialCatalog[0].(name := DeviceLabel(userAgent),
                                                                dims := Resolution(screenWidth, screenHeight))]
      ensures deviceInfo == DeviceLabel(userAgent)
      ensures selectedCards == {DetectedId}
      ensures !snackbarVisible && pendingDismiss == {} && pendingExports == multiset{}
    {
      currentColor := DefaultColor;
      currentResolution := DefaultResolution;
      catalog := InitialCatalog;
      displayedHex := "";
      highlightedSwatches := {};
      deviceInfo := "";
      selectedCards := {};
      snackbarVisible := false;
      snackbarText := "";
      snackbarTimeout := None;
      pendingDismiss := {};
      nextTimerId := 1;
      pendingExports := multiset{};
      new;
      DefaultColorStored();
      Initialize(screenWidth, screenHeight, userAgent);
    }

    /**
     * Detects the device, applies the current colour (re-deriving its display)
     * and selects the `detected` card by identity.
     */
    method Initialize(screenWidth: int, screenHeight: int, userAgent: string)
      requires CatalogOk() && SnackbarOk() && IsStoredColor(currentColor)
      modifies this`currentResolution, this`catalog, this`deviceInfo, this`currentColor,
               this`displayedHex, this`highlightedSwatches, this`selectedCards
      ensures Valid()
      ensures currentColor == old(currentColor)
      ensures currentResolution == Resolution(screenWidth, screenHeight)
      ensures catalog == old(catalog)[0 := old(catalog)[0].(name := DeviceLabel(userAgent),
                                                            dims := Resolution(screenWidth, screenHeight))]
      ensures deviceInfo == DeviceLabel(userAgent)
      ensures selectedCards == {DetectedId}
    {
      DetectDevice(screenWidth, screenHeight, userAgent);
      ReapplyColor();
      WellFormedBasics(catalog);
      SelectCard(DetectedId);
    }

    /**
     * Records the detected resolution as the current one and overwrites the
     * `detected` entry's name and dimensions; nothing else in the catalog changes.
     */
    method DetectDevice(screenWidth: int, screenHeight: int, userAgent: string)
      requires CatalogOk()
      modifies this`currentResolution, this`catalog, this`deviceInfo
      ensures CatalogOk()
      ensures currentResolution == Resolution(screenWidth, screenHeight)
      ensures deviceInfo == DeviceLabel(userAgent)
      ensures catalog == old(catalog)[0 := old(catalog)[0].(name := deviceInfo, dims := currentResolution)]
      ensures catalog[1..] == old(catalog)[1..] && catalog[0].id == DetectedId
    {
      var deviceType := DeviceLabel(userAgent);
      currentResolution := Resolution(screenWidth, screenHeight);
      deviceInfo := deviceType;
      var k := FindIndex(catalog, DetectedId);
      if k.Some? {
        assert k.value == 0;
        catalog := catalog[k.value := catalog[k.value].(name := deviceType, dims := currentResolution)];
        RenameKeepsIds(old(catalog), 0, catalog[0]);
      }
      assert catalog[1..] == old(catalog)[1..];
    }

    /** Applying the stored colour again keeps it and re-derives its display. */
    method ReapplyColor()
      requires IsStoredColor(currentColor)
      modifies this`currentColor, this`displayedHex, this`highlightedSwatches
      ensures ColorOk() && currentColor == old(currentColor)
    {
      LowercaseFixed(currentColor);
      SetColor(currentColor);
    }

    /** Ignores a string the hex test rejects; otherwise stores it in lower case and refreshes the display. */
    method SetColor(color: string)
      modifies this`currentColor, this`displayedHex, this`highlightedSwatches
      ensures currentColor == StoredColor(old(currentColor), color)
      ensures IsValidHex(color) ==> ColorOk()
      ensures !IsValidHex(color) ==> unchanged(this)
      ensures old(ColorOk()) ==> ColorOk()
    {
      if !IsValidHex(color) {
        return;
      }
      currentColor := ToLower(color);
      UpdateColorUI();
    }

    /** The displayed hex text is the upper case of the stored colour; matching swatches are highlighted. */
    method UpdateColorUI()
      modifies this`displayedHex, this`highlightedSwatches
      ensures displayedHex == ToUpper(currentColor)
      ensures highlightedSwatches == HighlightedAsWritten(currentColor)
    {
      displayedHex := ToUpper(currentColor);
      highlightedSwatches := HighlightedAsWritten(currentColor);
    }

    /**
     * A click on preset swatch i applies its colour. The colour becomes the
     * swatch's in lower case; the white swatch is never shown as selected.
     */
    method ClickSwatch(i: nat)
      requires ColorOk() && i < |PresetColors|
      modifies this`currentColor, this`displayedHex, this`highlightedSwatches
      ensures ColorOk()
      ensures currentColor == ToLower(PresetColors[i])
      ensures WhiteSwatch !in highlightedSwatches
    {
      SwatchValid(i);
      SetColor(PresetColors[i]);
      LowercaseFixed(currentColor);
      WhiteSwatchNeverHighlighted(currentColor);
    }

    /**
     * Selecting a catalog card: no effect for `custom` or an unknown id;
     * otherwise the current resolution becomes that entry's dimensions and that
     * card alone is selected.
     */
    method SetResolution(resolutionId: string)
      requires Valid()
      modifies this`currentResolution, this`selectedCards
      ensures Valid()
      ensures resolutionId == CustomId || resolutionId !in Ids(catalog) ==> unchanged(this)
      ensures resolutionId != CustomId && resolutionId in Ids(catalog) ==>
        var k := FindIndex(catalog, resolutionId);
        k.Some? && currentResolution == catalog[k.value].dims && selectedCards == {resolutionId}
    {
      var k := FindIndex(catalog, resolutionId);
      if k.Some? && resolutionId != CustomId {
        currentResolution := catalog[k.value].dims;
        SelectCard(resolutionId);
      }
    }

    /** Selects a card of the catalog by its id, which leaves that card alone selected. */
    method SelectCard(id: string)
      requires CatalogOk() && id in Ids(catalog)
      modifies this`selectedCards
      ensures CatalogOk() && selectedCards == {id}
    {
      WellFormedBasics(catalog);
      SelectActiveResolutionCard(Some(id));
      SelectById(catalog, currentResolution, id);
    }

    /**
     * Recomputes which resolution cards are selected: every card is switched on
     * or off in catalog order, and `custom` is switched on afterwards when no id
     * was passed and no card matched by dimensions.
     */
    method SelectActiveResolutionCard(activeId: Option<string>)
      requires CatalogOk()
      modifies this`selectedCards
      ensures CatalogOk()
      ensures selectedCards == ActiveCards(catalog, currentResolution, activeId)
    {
      WellFormedBasics(catalog);
      var foundMatch := SwitchCards(activeId);
      ghost var passed := selectedCards;
      if !foundMatch && !Truthy(activeId) && CustomId in Ids(catalog) {
        selectedCards := selectedCards + {CustomId};
      }
      PassThenFallback(catalog, currentResolution, activeId, passed, foundMatch);
    }

    /**
     * The pass of SelectActiveResolutionCard over the cards, in catalog order:
     * each card is switched on exactly when CardPassSelects says so. Reports
     * whether a card matched by dimensions.
     */
    method SwitchCards(activeId: Option<string>) returns (foundMatch: bool)
      requires UniqueIds(catalog) && selectedCards <= Ids(catalog)
      modifies this`selectedCards
      ensures selectedCards <= Ids(catalog)
      ensures foundMatch <==> !Truthy(activeId) && DimensionMatches(catalog, currentResolution) != {}
      ensures forall j :: 0 <= j < |catalog| ==>
        (catalog[j].id in selectedCards <==> CardPassSelects(catalog[j], currentResolution, activeId))
    {
      var byId := Truthy(activeId);
      foundMatch := false;
      var i := 0;
      while i < |catalog|
        invariant 0 <= i <= |catalog|
        invariant selectedCards <= Ids(catalog)
        invariant foundMatch ==> !byId && DimensionMatches(catalog, currentResolution) != {}
        invariant !foundMatch && !byId ==>
          forall j :: 0 <= j < i ==> !CardPassSelects(catalog[j], currentResolution, activeId)
        invariant forall j :: 0 <= j < i ==>
          (catalog[j].id in selectedCards <==> CardPassSelects(catalog[j], currentResolution, activeId))
        invariant forall j :: i <= j < |catalog| ==>
          (catalog[j].id in selectedCards <==> catalog[j].id in old(selectedCards))
      {
        // The card's id is looked up in the catalog again; ids are unique, so that finds this entry.
        var card := catalog[i];
        var isSelected := if byId then card.id == activeId.value else false;
        if !byId && card.id != CustomId {
          if card.dims == currentResolution {
            isSelected := true;
            foundMatch := true;
            assert card.id in DimensionMatches(catalog, currentResolution);
          }
        }
        selectedCards := if isSelected then selectedCards + {card.id} else selectedCards - {card.id};
        i := i + 1;
      }
      if !foundMatch && !byId {
        assert DimensionMatches(catalog, currentResolution) == {};
      }
    }

    /**
     * The apply button of the custom-resolution dialog, given the two parsed
     * fields (None where parsing gave NaN).
     */
    method ApplyCustom(width: Option<int>, height: Option<int>)
      requires Valid()
      modifies this`currentResolution, this`selectedCards, this`snackbarVisible, this`snackbarText,
               this`snackbarTimeout, this`pendingDismiss, this`nextTimerId
      ensures Valid()
      ensures IsValidDimension(width) && IsValidDimension(height) ==>
        currentResolution == Resolution(width.value, height.value) &&
        selectedCards == {CustomId} && SnackbarShown(CustomSetMessage)
      ensures !(IsValidDimension(width) && IsValidDimension(height)) ==>
        currentResolution == old(currentResolution) && selectedCards == old(selectedCards) &&
        SnackbarShown(InvalidDimensionsMessage)
    {
      if IsValidDimension(width) && IsValidDimension(height) {
        SetCustomResolution(width.value, height.value);
        ShowSnackbar(CustomSetMessage);
      } else {
        ShowSnackbar(InvalidDimensionsMessage);
      }
    }

    /** An accepted custom size becomes the current resolution, with only `custom` selected. */
    method SetCustomResolution(width: int, height: int)
      requires CatalogOk()
      modifies this`currentResolution, this`selectedCards
      ensures CatalogOk()
      ensures currentResolution == Resolution(width, height) && selectedCards == {CustomId}
    {
      currentResolution := Resolution(width, height);
      WellFormedBasics(catalog);
      SelectCard(CustomId);
    }

    /**
     * Shows a message. The text is always replaced; a snackbar already on
     * screen keeps its timer, otherwise the stored timer is cleared and one new
     * dismiss timer is scheduled.
     */
    method ShowSnackbar(message: string)
      requires SnackbarOk()
      modifies this`snackbarVisible, this`snackbarText, this`snackbarTimeout, this`pendingDismiss, this`nextTimerId
      ensures SnackbarOk()
      ensures SnackbarShown(message)
    {
      snackbarText := message;
      if snackbarVisible {
        return;
      }
      if snackbarTimeout.Some? {
        pendingDismiss := pendingDismiss - {snackbarTimeout.value};
      }
      snackbarVisible := true;
      snackbarTimeout := Some(nextTimerId);
      pendingDismiss := pendingDismiss + {nextTimerId};
      nextTimerId := nextTimerId + 1;
    }

    /** A pending dismiss timer fires after its delay and hides the snackbar. */
    method DismissTimerFires(timer: nat)
      requires SnackbarOk() && timer in pendingDismiss
      modifies this`snackbarVisible, this`pendingDismiss
      ensures SnackbarOk()
      ensures !snackbarVisible && pendingDismiss == {}
    {
      snackbarVisible := false;
      pendingDismiss := pendingDismiss - {timer};
    }

    /**
     * The export: a canvas of exactly the current resolution filled with the
     * current colour, whose download waits for a delay.
     */
    method DownloadWallpaper() returns (canvas: Canvas)
      modifies this`pendingExports
      ensures canvas.width == currentResolution.width && canvas.height == currentResolution.height
      ensures canvas.fill == currentColor
      ensures pendingExports == old(pendingExports) + multiset{canvas}
    {
      var width, height := currentResolution.width, currentResolution.height;
      canvas := Canvas(width, height, currentColor);
      pendingExports := pendingExports + multiset{canvas};
    }

    /**
     * The delayed step of a pending export: the link is clicked, downloading
     * under a name that records the canvas size, and the success message is shown.
     */
    method DownloadLinkTimerFires(canvas: Canvas) returns (filename: string)
      requires SnackbarOk() && canvas in pendingExports
      modifies this`snackbarVisible, this`snackbarText, this`snackbarTimeout, this`pendingDismiss,
               this`nextTimerId, this`pendingExports
      ensures SnackbarOk()
      ensures filename == ExportFilename(Resolution(canvas.width, canvas.height))
      ensures ParseFilename(filename) == Some(Resolution(canvas.width, canvas.height))
      ensures pendingExports == old(pendingExports) - multiset{canvas}
      ensures SnackbarShown(DownloadedMessage)
    {
      filename := ExportFilename(Resolution(canvas.width, canvas.height));
      pendingExports := pendingExports - multiset{canvas};
      ShowSnackbar(DownloadedMessage);
    }
  }

  /** Two notifications in a row leave the second text on screen and one dismiss timer pending. */
  method NotifyTwice(m: WallpaperMaker, a: string, b: string)
    requires m.SnackbarOk()
    modifies m
    ensures m.snackbarText == b && m.snackbarVisible && |m.pendingDismiss| == 1
  {
    m.ShowSnackbar(a);
    m.ShowSnackbar(b);
  }
}
