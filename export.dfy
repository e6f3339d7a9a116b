/**
 * The name of the exported file, `wallpaper-{w}x{h}.png`, with the decimal
 * rendering of the two dimensions, and the parser that reads the resolution
 * back out of such a name.
 */
module Export {
  import opened Wrappers
  import opened Text
  import opened Catalog

  function DigitChar(d: nat): (c: char)
    requires d < 10
    ensures IsDigit(c)
  {
    ('0' as int + d) as char
  }

  function DigitValue(c: char): (d: nat)
    requires IsDigit(c)
    ensures d < 10 && DigitChar(d) == c
  {
    c as int - '0' as int
  }

  predicate AllDigits(s: string) {
    forall i :: 0 <= i < |s| ==> IsDigit(s[i])
  }

  /** Decimal rendering of a natural number, as JavaScript prints an integer below 10^21. */
  function NatToDecimal(n: nat): (s: string)
    ensures |s| >= 1 && AllDigits(s)
    decreases n
  {
    if n < 10 then [DigitChar(n)] else NatToDecimal(n / 10) + [DigitChar(n % 10)]
  }

  function DecimalValue(s: string): nat
    requires AllDigits(s)
    decreases |s|
  {
    if s == [] then 0 else 10 * DecimalValue(s[..|s| - 1]) + DigitValue(s[|s| - 1])
  }

  lemma {:induction false} DecimalRoundTrip(n: nat)
    ensures DecimalValue(NatToDecimal(n)) == n
    decreases n
  {
    var s := NatToDecimal(n);
    if n >= 10 {
      DecimalRoundTrip(n / 10);
      assert s[..|s| - 1] == NatToDecimal(n / 10);
    }
  }

  function Pow10(k: nat): nat {
    if k == 0 then 1 else 10 * Pow10(k - 1)
  }

  /** A number with k + 1 digits, 10^k <= n < 10^(k+1), renders as k + 1 characters. */
  lemma {:induction false} DecimalLength(n: nat, k: nat)
    requires Pow10(k) <= n < 10 * Pow10(k)
    ensures |NatToDecimal(n)| == k + 1
    decreases k
  {
    if k > 0 {
      DecimalLength(n / 10, k - 1);
    }
  }

  function IntToDecimal(i: int): (s: string)
    ensures |s| >= 1 && 'x' !in s
  {
    if i < 0 then "-" + NatToDecimal(-i) else NatToDecimal(i)
  }

  /** Reads an optionally negative decimal integer; anything else is None. */
  function ParseInt(s: string): Option<int> {
    if |s| > 1 && s[0] == '-' && AllDigits(s[1..]) then Some(0 - DecimalValue(s[1..]) as int)
    else if |s| > 0 && AllDigits(s) then Some(DecimalValue(s))
    else None
  }

  lemma IntRoundTrip(i: int)
    ensures ParseInt(IntToDecimal(i)) == Some(i)
  {
    var s := IntToDecimal(i);
    if i < 0 {
      assert s[1..] == NatToDecimal(-i);
      DecimalRoundTrip(-i);
    } else {
      DecimalRoundTrip(i);
    }
  }

  /** Position of the first occurrence of c. */
  function IndexOf(s: string, c: char): (r: Option<nat>)
    ensures r.Some? ==> r.value < |s| && s[r.value] == c && c !in s[..r.value]
    ensures r.None? ==> c !in s
  {
    if s == [] then None
    else if s[0] == c then Some(0)
    else match IndexOf(s[1..], c)
      case None => None
      case Some(k) =>
        assert s[..k + 1] == [s[0]] + s[1..][..k];
        Some(k + 1)
  }

  const FilePrefix := "wallpaper-"
  const FileSuffix := ".png"

  /** `wallpaper-${width}x${height}.png`: a name the parser reads back as exactly r. */
  function ExportFilename(r: Resolution): (name: string)
    ensures ParseFilename(name) == Some(r)
  {
    FilenameRoundTrip(r);
    FilePrefix + IntToDecimal(r.width) + "x" + IntToDecimal(r.height) + FileSuffix
  }

  /** Recovers the resolution from an export file name. */
  function ParseFilename(name: string): Option<Resolution> {
    if |name| < |FilePrefix| + |FileSuffix| || name[..|FilePrefix|] != FilePrefix
       || name[|name| - |FileSuffix|..] != FileSuffix then None
    else
      var mid := name[|FilePrefix|..|name| - |FileSuffix|];
      match IndexOf(mid, 'x')
      case None => None
      case Some(k) =>
        match (ParseInt(mid[..k]), ParseInt(mid[k + 1..]))
        case (Some(w), Some(h)) => Some(Resolution(w, h))
        case _ => None
  }

  /** An accepted dimension, 100 to 10000, renders as three to five digits without a sign. */
  lemma DimensionDigits(n: int)
    requires 100 <= n <= 10000
    ensures 3 <= |IntToDecimal(n)| <= 5 && IsDigit(IntToDecimal(n)[0])
  {
    if n < 1000 {
      DecimalLength(n, 2);
    } else if n < 10000 {
      DecimalLength(n, 3);
    } else {
      DecimalLength(n, 4);
    }
  }

  /** Splitting at the first `x` separates the two rendered numbers again. */
  lemma SplitAtX(a: string, b: string)
    requires 'x' !in a
    ensures IndexOf(a + "x" + b, 'x') == Some(|a|)
  {
    var mid := a + "x" + b;
    assert mid[|a|] == 'x';
    assert forall j :: 0 <= j < |a| ==> mid[j] == a[j];
  }

  lemma FilenameParts(a: string, b: string)
    ensures var name := FilePrefix + a + "x" + b + FileSuffix;
      |name| >= |FilePrefix| + |FileSuffix| &&
      name[..|FilePrefix|] == FilePrefix &&
      name[|name| - |FileSuffix|..] == FileSuffix &&
      name[|FilePrefix|..|name| - |FileSuffix|] == a + "x" + b
  {
  }

  /** The file name records the resolution: reading it back gives the exported width and height. */
  lemma FilenameRoundTrip(r: Resolution)
    ensures ParseFilename(FilePrefix + IntToDecimal(r.width) + "x" + IntToDecimal(r.height) + FileSuffix) == Some(r)
  {
    var a, b := IntToDecimal(r.width), IntToDecimal(r.height);
    FilenameParts(a, b);
    SplitAtX(a, b);
    var mid := a + "x" + b;
    assert mid[..|a|] == a && mid[|a| + 1..] == b;
    IntRoundTrip(r.width);
    IntRoundTrip(r.height);
  }

  /** Distinct resolutions are exported under distinct file names. */
  lemma FilenameInjective(r1: Resolution, r2: Resolution)
    requires ExportFilename(r1) == ExportFilename(r2)
    ensures r1 == r2
  {
  }
}
