/**
 * Device classification from the user-agent string: the case-insensitive
 * regular-expression tests `/iPhone/i`, `/iPad/i`, `/Android/i`, tried in
 * that order.
 */
module Device {
  import opened Text

  /** p occurs in s at position i, letters compared without regard to case. */
  predicate MatchAt(s: string, p: string, i: nat)
    requires i + |p| <= |s|
  {
    forall k :: 0 <= k < |p| ==> LowerChar(s[i + k]) == LowerChar(p[k])
  }

  /** Reference meaning of a case-insensitive search: some position matches. */
  ghost predicate Occurs(s: string, p: string) {
    exists i: nat :: i + |p| <= |s| && MatchAt(s, p, i)
  }

  /** Left-to-right scan for p starting at position i: what `RegExp.test` does for a literal pattern. */
  predicate ScanFrom(s: string, p: string, i: nat)
    decreases |s| - i
  {
    if i + |p| > |s| then false else MatchAt(s, p, i) || ScanFrom(s, p, i + 1)
  }

  predicate TestIgnoreCase(s: string, p: string) {
    ScanFrom(s, p, 0)
  }

  lemma {:induction false} ScanFromIff(s: string, p: string, i: nat)
    ensures ScanFrom(s, p, i) <==> exists j: nat :: i <= j && j + |p| <= |s| && MatchAt(s, p, j)
    decreases |s| - i
  {
    if i + |p| <= |s| {
      ScanFromIff(s, p, i + 1);
      if !MatchAt(s, p, i) {
        forall j: nat | i <= j && j + |p| <= |s| && MatchAt(s, p, j) ensures i + 1 <= j {
        }
      }
    }
  }

  /** The scan finds the pattern exactly when it occurs somewhere. */
  lemma TestIgnoreCaseIff(s: string, p: string)
    ensures TestIgnoreCase(s, p) <==> Occurs(s, p)
  {
    ScanFromIff(s, p, 0);
  }

  const IPhoneLabel := "iPhone"
  const IPadLabel := "iPad"
  const AndroidLabel := "Android Device"
  const FallbackLabel := "Your Device"

  /** The device label shown for a user-agent string, by priority iPhone, iPad, Android. */
  function DeviceLabel(userAgent: string): (r: string)
    ensures r == IPhoneLabel <==> Occurs(userAgent, "iPhone")
    ensures r == IPadLabel <==> !Occurs(userAgent, "iPhone") && Occurs(userAgent, "iPad")
    ensures r == AndroidLabel <==>
      !Occurs(userAgent, "iPhone") && !Occurs(userAgent, "iPad") && Occurs(userAgent, "Android")
    ensures r == FallbackLabel <==>
      !Occurs(userAgent, "iPhone") && !Occurs(userAgent, "iPad") && !Occurs(userAgent, "Android")
  {
    TestIgnoreCaseIff(userAgent, "iPhone");
    TestIgnoreCaseIff(userAgent, "iPad");
    TestIgnoreCaseIff(userAgent, "Android");
    if TestIgnoreCase(userAgent, "iPhone") then IPhoneLabel
    else if TestIgnoreCase(userAgent, "iPad") then IPadLabel
    else if TestIgnoreCase(userAgent, "Android") then AndroidLabel
    else FallbackLabel
  }

  /** The test ignores case: an upper-case user agent is classified like the original. */
  lemma MatchAtIgnoresCase(s: string, p: string, i: nat)
    requires i + |p| <= |s|
    ensures MatchAt(ToUpper(s), p, i) <==> MatchAt(s, p, i)
  {
    var u := ToUpper(s);
    forall k | 0 <= k < |s| ensures LowerChar(u[k]) == LowerChar(s[k]) {
      LowerOfUpper(s[k]);
    }
  }
}
