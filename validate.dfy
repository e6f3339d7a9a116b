/**
 * The two input validators of WallpaperMaker and the colour-update rule that
 * is built on the hex validator.
 */
module Validate {
  import opened Wrappers
  import opened Text
  import opened Export

  /** The regular-expression piece `[A-Fa-f0-9]{n}` matched against the whole of t. */
  predicate HexRun(t: string, n: nat)
    decreases n
  {
    if n == 0 then t == [] else |t| > 0 && IsHexDigit(t[0]) && HexRun(t[1..], n - 1)
  }

  /** `^#([A-Fa-f0-9]{6}|[A-Fa-f0-9]{3})$`, read as anchors, a literal `#`, and an alternation. */
  predicate IsValidHex(s: string) {
    |s| > 0 && s[0] == '#' && (HexRun(s[1..], 6) || HexRun(s[1..], 3))
  }

  predicate AllHex(t: string) {
    forall i :: 0 <= i < |t| ==> IsHexDigit(t[i])
  }

  lemma {:induction false} HexRunIff(t: string, n: nat)
    ensures HexRun(t, n) <==> |t| == n && AllHex(t)
    decreases n
  {
    if n > 0 && |t| > 0 {
      HexRunIff(t[1..], n - 1);
      assert AllHex(t) <==> IsHexDigit(t[0]) && AllHex(t[1..]) by {
        if IsHexDigit(t[0]) && AllHex(t[1..]) {
          forall i | 0 <= i < |t| ensures IsHexDigit(t[i]) {
            if i > 0 { assert t[i] == t[1..][i - 1]; }
          }
        }
      }
    }
  }

  /** The hex test accepts exactly `#` followed by three or six hex digits, in either case. */
  lemma IsValidHexIff(s: string)
    ensures IsValidHex(s) <==> (|s| == 4 || |s| == 7) && s[0] == '#' && AllHex(s[1..])
  {
  }

  /**
   * `isValidDimension`: a parsed number that is not NaN (None) and lies in
   * [100, 10000]. Such a number is positive and appears in the export name as
   * three to five digits.
   */
  function IsValidDimension(d: Option<int>): (b: bool)
    ensures b ==> d.Some? && d.value > 0 && 3 <= |IntToDecimal(d.value)| <= 5 && IsDigit(IntToDecimal(d.value)[0])
  {
    if d.Some? && 100 <= d.value <= 10000 then
      DimensionDigits(d.value);
      true
    else
      false
  }

  /** What the colour field may hold: an accepted hex string in lower case. */
  predicate IsStoredColor(s: string) {
    IsValidHex(s) && IsLowercase(s)
  }

  /** The colour held after `setColor(input)` when `current` was held before. */
  function StoredColor(current: string, input: string): (r: string)
    ensures IsValidHex(input) ==> IsStoredColor(r) && ToLower(r) == ToLower(input)
    ensures !IsValidHex(input) ==> r == current
  {
    if IsValidHex(input) then LowerKeepsValid(input); ToLower(input) else current
  }

  /** Lower-casing an accepted colour yields an accepted lower-case colour. */
  lemma LowerKeepsValid(s: string)
    requires IsValidHex(s)
    ensures IsStoredColor(ToLower(s))
  {
    IsValidHexIff(s);
    var l := ToLower(s);
    assert l[1..] == ToLower(s[1..]);
    IsValidHexIff(l);
  }

  /** Upper-casing a stored colour (the displayed text) keeps it accepted, and lower-casing it restores it. */
  lemma DisplayRoundTrip(s: string)
    requires IsStoredColor(s)
    ensures IsValidHex(ToUpper(s))
    ensures ToLower(ToUpper(s)) == s
  {
    IsValidHexIff(s);
    var u := ToUpper(s);
    assert u[1..] == ToUpper(s[1..]);
    IsValidHexIff(u);
    UpperLowerRoundTrip(s);
  }

  /** Setting the same colour twice leaves the same colour as setting it once. */
  lemma StoredColorIdempotent(current: string, input: string)
    ensures StoredColor(StoredColor(current, input), input) == StoredColor(current, input)
  {
  }

  /** From a stored colour, every update again leaves a stored colour. */
  lemma StoredColorInvariant(current: string, input: string)
    requires IsStoredColor(current)
    ensures IsStoredColor(StoredColor(current, input))
  {
  }
}
