/**
 * The resolution catalog: six cards in a fixed order, the lookup by id, and
 * the rule that decides which cards are shown as selected.
 */
module Catalog {
  import opened Wrappers

  datatype Resolution = Resolution(width: int, height: int)

  datatype Preset = Preset(id: string, name: string, dims: Resolution, badge: Option<string>)

  const DetectedId := "detected"
  const CustomId := "custom"

  /** The catalog as constructed; the `detected` entry is overwritten once at start-up. */
  const InitialCatalog: seq<Preset> := [
    Preset(DetectedId, "Your Device", Resolution(0, 0), Some("badge-detected")),
    Preset("pixel8", "Pixel 8 Pro", Resolution(1344, 2992), Some("badge-popular")),
    Preset("galaxy23", "Galaxy S23", Resolution(1080, 2340), Some("badge-popular")),
    Preset("fullhd", "Full HD", Resolution(1080, 1920), None),
    Preset("qhd", "QHD", Resolution(1440, 2560), None),
    Preset(CustomId, "Custom", Resolution(0, 0), Some("badge-custom"))
  ]

  /**
   * A catalog that differs from the initial one at most in the name and
   * dimensions of its first (`detected`) entry.
   */
  predicate WellFormed(c: seq<Preset>) {
    |c| == |InitialCatalog| &&
    c[0].id == DetectedId && c[0].badge == InitialCatalog[0].badge &&
    c[1..] == InitialCatalog[1..]
  }

  function Ids(c: seq<Preset>): set<string> {
    set i | 0 <= i < |c| :: c[i].id
  }

  predicate UniqueIds(c: seq<Preset>) {
    forall i, j :: 0 <= i < j < |c| ==> c[i].id != c[j].id
  }

  lemma WellFormedBasics(c: seq<Preset>)
    requires WellFormed(c)
    ensures UniqueIds(c) && CustomId in Ids(c) && DetectedId in Ids(c) && "" !in Ids(c)
  {
    WellFormedShape(c);
  }

  lemma WellFormedShape(c: seq<Preset>)
    requires WellFormed(c)
    ensures UniqueIds(c)
    ensures Ids(c) == {DetectedId, "pixel8", "galaxy23", "fullhd", "qhd", CustomId}
    ensures forall i :: 1 <= i < |c| ==> c[i] == InitialCatalog[i]
  {
    assert c[1..][0] == c[1] && c[1..][1] == c[2] && c[1..][2] == c[3];
    assert c[1..][3] == c[4] && c[1..][4] == c[5];
  }

  /** Replacing an entry by one with the same id keeps the set of ids. */
  lemma RenameKeepsIds(c: seq<Preset>, k: nat, p: Preset)
    requires k < |c| && p.id == c[k].id
    ensures Ids(c[k := p]) == Ids(c)
  {
    var d := c[k := p];
    forall x | x in Ids(c) ensures x in Ids(d) {
      var i :| 0 <= i < |c| && c[i].id == x;
      assert d[i].id == x;
    }
  }

  /** The first entry with the given id, as `Array.prototype.find` returns it. */
  function FindIndex(c: seq<Preset>, id: string): (r: Option<nat>)
    ensures r.Some? ==> r.value < |c| && c[r.value].id == id
    ensures r.Some? ==> forall j :: 0 <= j < r.value ==> c[j].id != id
    ensures r.None? <==> id !in Ids(c)
  {
    if c == [] then None
    else if c[0].id == id then Some(0)
    else
      match FindIndex(c[1..], id)
      case None =>
        assert Ids(c) == {c[0].id} + Ids(c[1..]) by {
          forall x | x in Ids(c) ensures x in {c[0].id} + Ids(c[1..]) {
            var i :| 0 <= i < |c| && c[i].id == x;
            if i > 0 { assert c[1..][i - 1] == c[i]; }
          }
        }
        None
      case Some(k) =>
        assert c[k + 1] == c[1..][k];
        assert id in Ids(c);
        Some(k + 1)
  }

  /** JavaScript truthiness of the optional `activeId` argument: absent and "" are both false. */
  predicate Truthy(activeId: Option<string>) {
    activeId.Some? && activeId.value != ""
  }

  /** Non-custom cards whose dimensions equal the given resolution. */
  function DimensionMatches(c: seq<Preset>, current: Resolution): set<string> {
    set i | 0 <= i < |c| && c[i].id != CustomId && c[i].dims == current :: c[i].id
  }

  /**
   * The ids of the cards shown as selected after `selectActiveResolutionCard(activeId)`:
   * by identity when an id is passed, otherwise by dimensions, falling back to `custom`.
   */
  function ActiveCards(c: seq<Preset>, current: Resolution, activeId: Option<string>): set<string> {
    if Truthy(activeId) then
      set i | 0 <= i < |c| && c[i].id == activeId.value :: c[i].id
    else if DimensionMatches(c, current) != {} then
      DimensionMatches(c, current)
    else
      set i | 0 <= i < |c| && c[i].id == CustomId :: c[i].id
  }

  /** Whether the pass over the cards switches card p on. */
  predicate CardPassSelects(p: Preset, current: Resolution, activeId: Option<string>) {
    if Truthy(activeId) then p.id == activeId.value else p.id != CustomId && p.dims == current
  }

  /**
   * The pass over the cards followed by the `custom` fallback yields the
   * selection described by ActiveCards.
   */
  lemma PassThenFallback(c: seq<Preset>, current: Resolution, activeId: Option<string>,
                         passed: set<string>, foundMatch: bool)
    requires WellFormed(c) && passed <= Ids(c)
    requires foundMatch <==> !Truthy(activeId) && DimensionMatches(c, current) != {}
    requires forall j :: 0 <= j < |c| ==> (c[j].id in passed <==> CardPassSelects(c[j], current, activeId))
    ensures (if !foundMatch && !Truthy(activeId) then passed + {CustomId} else passed)
            == ActiveCards(c, current, activeId)
  {
    WellFormedBasics(c);
    var result := if !foundMatch && !Truthy(activeId) then passed + {CustomId} else passed;
    var spec := ActiveCards(c, current, activeId);
    if !Truthy(activeId) {
      SelectByDimensions(c, current, activeId);
    }
    forall x | x in Ids(c) ensures x in result <==> x in spec {
      var j :| 0 <= j < |c| && c[j].id == x;
      assert c[j].id in passed <==> CardPassSelects(c[j], current, activeId);
    }
    ActiveCardsInCatalog(c, current, activeId);
  }

  /** With an id present in the catalog, exactly that card is selected. */
  lemma SelectById(c: seq<Preset>, current: Resolution, id: string)
    requires id != "" && id in Ids(c)
    ensures ActiveCards(c, current, Some(id)) == {id}
  {
  }

  /** With an id not in the catalog, no card is selected. */
  lemma SelectUnknownId(c: seq<Preset>, current: Resolution, id: string)
    requires id != "" && id !in Ids(c)
    ensures ActiveCards(c, current, Some(id)) == {}
  {
  }

  /**
   * Without an id: a card other than `custom` is selected iff its dimensions
   * equal the current resolution, and `custom` is selected iff no other card
   * matches.
   */
  lemma SelectByDimensions(c: seq<Preset>, current: Resolution, activeId: Option<string>)
    requires !Truthy(activeId) && UniqueIds(c) && CustomId in Ids(c)
    ensures forall i :: 0 <= i < |c| && c[i].id != CustomId ==>
      (c[i].id in ActiveCards(c, current, activeId) <==> c[i].dims == current)
    ensures CustomId in ActiveCards(c, current, activeId) <==>
      forall i :: 0 <= i < |c| && c[i].id != CustomId ==> c[i].dims != current
    ensures ActiveCards(c, current, activeId) <= Ids(c)
  {
    var m := DimensionMatches(c, current);
    if m == {} {
      assert forall i :: 0 <= i < |c| && c[i].id != CustomId && c[i].dims == current ==> c[i].id in m;
    } else {
      var x :| x in m;
      forall i | 0 <= i < |c| && c[i].id != CustomId
        ensures c[i].id in m <==> c[i].dims == current
      {
        if c[i].id in m {
          var j :| 0 <= j < |c| && c[j].id != CustomId && c[j].dims == current && c[j].id == c[i].id;
          assert i == j;
        }
      }
    }
  }

  /** On a well-formed catalog the selection never names a card that is not there. */
  lemma ActiveCardsInCatalog(c: seq<Preset>, current: Resolution, activeId: Option<string>)
    ensures ActiveCards(c, current, activeId) <= Ids(c)
  {
  }

  /**
   * The selection by dimensions can pick more than one card: a detected
   * device of 1080 x 1920 coincides with `fullhd`.
   */
  lemma DetectedCoincidesWithPreset(c: seq<Preset>)
    requires WellFormed(c) && c[0].dims == Resolution(1080, 1920)
    ensures ActiveCards(c, Resolution(1080, 1920), None) == {DetectedId, "fullhd"}
  {
    WellFormedShape(c);
    var r := Resolution(1080, 1920);
    var m := DimensionMatches(c, r);
    assert c[0].id in m && c[3].id in m;
    forall x | x in m ensures x == DetectedId || x == "fullhd" {
      var i :| 0 <= i < |c| && c[i].id != CustomId && c[i].dims == r && c[i].id == x;
      if i > 0 { assert c[i] == InitialCatalog[i]; }
    }
  }
}
