/** The shared tree: ornaments are grouped into rooms by affiliation, each room
    a ring of 18 panels with 7 slots per panel. A visitor hangs one ornament
    on a free panel of the slot they click; the placement rules, the room view
    and the search are modelled here. */
module TreeScene {
  import opened Wrappers
  import opened Text
  import opened Types
  import opened Constants

  /** Each panel turns the tree by this many degrees. */
  const PanelDegrees: int := 20
  const InitialRotation: int := 20
  /** One press of an arrow button turns the tree by this many degrees. */
  const RotateStep: int := 30
  /** A legacy record without a slot number sits at a slot when its height is
      closer than this to the slot's height. */
  const Tolerance: real := 0.05
  /** The rooms offered as tabs. */
  const GradeTabs: seq<string> := ["1학년", "2학년", "3학년", "전공심화"]

  function Abs(r: real): real
  {
    if r < 0.0 then -r else r
  }

  /** The rotation that brings panel `panel` to the front. */
  function FacePanel(panel: int): int
  {
    -(panel * PanelDegrees)
  }

  // ---- occupancy ----

  /** An ornament sits at slot `slotIndex` (whose height is `targetY`): by its
      slot number when it has one, by its height otherwise. */
  predicate AtSlot(o: PlacedOrnament, slotIndex: int, targetY: real)
  {
    if o.slotIndex.None? then Abs(o.y - targetY) < Tolerance
    else o.slotIndex.value == slotIndex
  }

  /** An ornament of the room `affiliation` sits at the slot. */
  predicate Occupies(o: PlacedOrnament, affiliation: string, slotIndex: int, targetY: real)
  {
    o.affiliation == affiliation && AtSlot(o, slotIndex, targetY)
  }

  /** The panels whose slot is taken in the room: the ornaments of the room at
      the slot, mapped to their panels. */
  function OccupiedPanels(ornaments: seq<PlacedOrnament>, affiliation: string, slotIndex: int, targetY: real): (r: seq<int>)
    ensures forall p :: p in r <==> exists o :: o in ornaments && Occupies(o, affiliation, slotIndex, targetY) && o.panelIndex == p
    ensures |r| <= |ornaments|
    decreases |ornaments|
  {
    if ornaments == [] then []
    else
      var o := ornaments[0];
      var rest := OccupiedPanels(ornaments[1..], affiliation, slotIndex, targetY);
      assert forall x :: x in ornaments <==> x == o || x in ornaments[1..];
      (if Occupies(o, affiliation, slotIndex, targetY) then [o.panelIndex] else []) + rest
  }

  /** The panel numbers below `n` that are not occupied, in increasing order. */
  function AvailableBelow(occupied: seq<int>, n: nat): (r: seq<int>)
    ensures forall p :: p in r <==> 0 <= p < n && p !in occupied
    ensures forall i, j :: 0 <= i < j < |r| ==> r[i] < r[j]
  {
    if n == 0 then []
    else
      var r := AvailableBelow(occupied, n - 1);
      forall i | 0 <= i < |r| ensures r[i] < n - 1 {
        assert r[i] in r;
      }
      r + (if n - 1 !in occupied then [n - 1] else [])
  }

  /** The free panels of the tree, in increasing order. */
  function AvailablePanels(occupied: seq<int>): (r: seq<int>)
    ensures forall p :: p in r <==> 0 <= p < PanelCount && p !in occupied
  {
    AvailableBelow(occupied, PanelCount)
  }

  /** A list holding every number below `n` has at least `n` entries. */
  lemma {:induction false} CoverNeedsLength(s: seq<int>, n: nat)
    requires forall p :: 0 <= p < n ==> p in s
    ensures |s| >= n
    decreases n
  {
    if n > 0 {
      assert n - 1 in s;
      assert exists k :: 0 <= k < |s| && s[k] == n - 1;
      var k :| 0 <= k < |s| && s[k] == n - 1;
      var t := s[..k] + s[k + 1..];
      forall p | 0 <= p < n - 1
        ensures p in t
      {
        assert p in s;
        var i :| 0 <= i < |s| && s[i] == p;
        if i < k {
          assert t[i] == p;
        } else {
          assert t[i - 1] == p;
        }
      }
      CoverNeedsLength(t, n - 1);
    }
  }

  /** The tree is full for a slot only when at least 18 ornaments of the room
      sit at it: no free panel means every panel number is occupied. */
  lemma TreeFullNeedsEighteen(ornaments: seq<PlacedOrnament>, affiliation: string, slotIndex: int, targetY: real)
    requires AvailablePanels(OccupiedPanels(ornaments, affiliation, slotIndex, targetY)) == []
    ensures |ornaments| >= PanelCount
  {
    var occupied := OccupiedPanels(ornaments, affiliation, slotIndex, targetY);
    forall p | 0 <= p < PanelCount
      ensures p in occupied
    {
      assert p !in AvailablePanels(occupied);
    }
    CoverNeedsLength(occupied, PanelCount);
  }

  /** A legacy record hanging exactly at a slot's height is counted at that
      slot and at no other: neighbouring slot heights are more than the
      tolerance apart. */
  lemma LegacyAtSlotHeightMatchesOneSlot(o: PlacedOrnament, k: nat, j: nat)
    requires o.slotIndex.None? && k < SlotCount && j < SlotCount
    requires o.y == SlotY(k)
    ensures AtSlot(o, j, SlotY(j)) <==> j == k
  {
    SlotPointsWellFormed();
  }

  // ---- the room view ----

  /** `visibleOrnaments`: the ornaments of the room being viewed, in order. */
  function Visible(ornaments: seq<PlacedOrnament>, viewing: string): (r: seq<PlacedOrnament>)
    ensures forall o :: o in r <==> o in ornaments && o.affiliation == viewing
    ensures |r| <= |ornaments|
    decreases |ornaments|
  {
    if ornaments == [] then []
    else
      var rest := Visible(ornaments[1..], viewing);
      assert forall x :: x in ornaments <==> x == ornaments[0] || x in ornaments[1..];
      (if ornaments[0].affiliation == viewing then [ornaments[0]] else []) + rest
  }

  /** The room view keeps the order of the list: it distributes over
      concatenation, so an ornament appended to the tree is appended to its
      room's view; and viewing a view again changes nothing. */
  lemma {:induction false} VisibleAppend(a: seq<PlacedOrnament>, b: seq<PlacedOrnament>, viewing: string)
    ensures Visible(a + b, viewing) == Visible(a, viewing) + Visible(b, viewing)
    decreases |a|
  {
    if a == [] {
      assert a + b == b;
    } else {
      assert (a + b)[1..] == a[1..] + b;
      VisibleAppend(a[1..], b, viewing);
    }
  }

  lemma {:induction false} VisibleIdempotent(ornaments: seq<PlacedOrnament>, viewing: string)
    ensures Visible(Visible(ornaments, viewing), viewing) == Visible(ornaments, viewing)
    decreases |ornaments|
  {
    if ornaments != [] {
      var head := if ornaments[0].affiliation == viewing then [ornaments[0]] else [];
      VisibleIdempotent(ornaments[1..], viewing);
      VisibleAppend(head, Visible(ornaments[1..], viewing), viewing);
      if head != [] {
        assert head[1..] == [];
      }
    }
  }

  /** The ornaments drawn on panel `idx` of the room view. */
  function PanelOrnaments(visible: seq<PlacedOrnament>, idx: int): (r: seq<PlacedOrnament>)
    ensures forall o :: o in r <==> o in visible && o.panelIndex == idx
    ensures |r| <= |visible|
    decreases |visible|
  {
    if visible == [] then []
    else
      var rest := PanelOrnaments(visible[1..], idx);
      assert forall x :: x in visible <==> x == visible[0] || x in visible[1..];
      (if visible[0].panelIndex == idx then [visible[0]] else []) + rest
  }

  /** How many ornaments the panels below `n` show in total. */
  function ShownOnPanels(visible: seq<PlacedOrnament>, n: nat): nat
  {
    if n == 0 then 0 else ShownOnPanels(visible, n - 1) + |PanelOrnaments(visible, n - 1)|
  }

  lemma {:induction false} NothingShownOnPanels(n: nat)
    ensures ShownOnPanels([], n) == 0
  {
    if n > 0 {
      NothingShownOnPanels(n - 1);
    }
  }

  lemma {:induction false} ShownOnPanelsCons(o: PlacedOrnament, rest: seq<PlacedOrnament>, n: nat)
    ensures ShownOnPanels([o] + rest, n) == ShownOnPanels(rest, n) + (if 0 <= o.panelIndex < n then 1 else 0)
    decreases n
  {
    if n > 0 {
      ShownOnPanelsCons(o, rest, n - 1);
      assert ([o] + rest)[1..] == rest;
    }
  }

  /** The panels partition the room view: when every ornament has a panel in
      0..17, the 18 panels together show each ornament exactly once. */
  lemma {:induction false} PanelsPartitionView(visible: seq<PlacedOrnament>)
    requires forall k :: 0 <= k < |visible| ==> 0 <= visible[k].panelIndex < PanelCount
    ensures ShownOnPanels(visible, PanelCount) == |visible|
    decreases |visible|
  {
    if visible == [] {
      NothingShownOnPanels(PanelCount);
    } else {
      var rest := visible[1..];
      assert forall k :: 0 <= k < |rest| ==> rest[k] == visible[k + 1];
      PanelsPartitionView(rest);
      ShownOnPanelsCons(visible[0], rest, PanelCount);
      assert [visible[0]] + rest == visible;
      assert 0 <= visible[0].panelIndex < PanelCount;
    }
  }

  // ---- search ----

  /** The search matches an ornament by its owner's name or id. */
  predicate MatchesTerm(o: PlacedOrnament, term: string)
  {
    o.userName == term || o.userId == term
  }

  /** `find`: the position of the first matching ornament. */
  function FindFirst(ornaments: seq<PlacedOrnament>, term: string): (r: Option<nat>)
    ensures r.Some? ==> r.value < |ornaments| && MatchesTerm(ornaments[r.value], term)
    ensures r.Some? ==> forall k :: 0 <= k < r.value ==> !MatchesTerm(ornaments[k], term)
    ensures r.None? ==> forall k :: 0 <= k < |ornaments| ==> !MatchesTerm(ornaments[k], term)
    decreases |ornaments|
  {
    if ornaments == [] then None
    else if MatchesTerm(ornaments[0], term) then Some(0)
    else
      match FindFirst(ornaments[1..], term)
      case None => None
      case Some(i) => Some(i + 1)
  }

  /** The ornament the search lands on, if any. */
  function SearchTarget(ornaments: seq<PlacedOrnament>, term: string): Option<PlacedOrnament>
  {
    match FindFirst(ornaments, term)
    case None => None
    case Some(i) => Some(ornaments[i])
  }

  // ---- placing an ornament ----

  /** The ornament a successful save adds: owned by the visitor, in their
      room, at the chosen panel and the clicked slot's orb position, carrying
      the card's text. The temporary id is opaque. */
  function NewOrnament(u: UserData, design: OrnamentDesign, tempId: string, panel: int, slotIndex: nat): PlacedOrnament
    requires slotIndex < |SlotPoints|
  {
    PlacedOrnament(tempId, u.name, u.name, u.affiliation, design, panel, Some(slotIndex),
      SlotX(slotIndex), SlotY(slotIndex), u.content)
  }

  /** A new ornament on a free panel is well formed, and once it is on the tree
      its panel is occupied for its slot in its room: the same click cannot
      pick that panel again. */
  lemma PlacementTakesPanel(ornaments: seq<PlacedOrnament>, u: UserData, design: OrnamentDesign, tempId: string, panel: int, slotIndex: nat)
    requires slotIndex < SlotCount
    requires panel in AvailablePanels(OccupiedPanels(ornaments, u.affiliation, slotIndex, SlotY(slotIndex)))
    ensures WellFormedOrnament(NewOrnament(u, design, tempId, panel, slotIndex))
    ensures var after := ornaments + [NewOrnament(u, design, tempId, panel, slotIndex)];
      panel !in AvailablePanels(OccupiedPanels(after, u.affiliation, slotIndex, SlotY(slotIndex)))
  {
    SlotPointsWellFormed();
    var o := NewOrnament(u, design, tempId, panel, slotIndex);
    var after := ornaments + [o];
    assert o in after && Occupies(o, u.affiliation, slotIndex, SlotY(slotIndex));
  }

  /** `ornaments.find(...)` for the search: a scan up to the first ornament
      whose owner's name or id equals `term`. */
  method Find(ornaments: seq<PlacedOrnament>, term: string) returns (found: Option<PlacedOrnament>)
    ensures found == SearchTarget(ornaments, term)
  {
    var i := 0;
    while i < |ornaments| && !MatchesTerm(ornaments[i], term)
      invariant 0 <= i <= |ornaments|
      invariant forall k :: 0 <= k < i ==> !MatchesTerm(ornaments[k], term)
    {
      i := i + 1;
    }
    if i == |ornaments| {
      found := None;
    } else {
      found := Some(ornaments[i]);
    }
  }

  /** What a click on a slot led to. */
  datatype SlotOutcome =
    | AlreadyPlaced          // one ornament per visit
    | Busy                   // a save is in progress
    | TreeFull               // every panel of the room is taken at this slot
    | Saved(panel: int)
    | SaveFailed(panel: int)

  class Scene {
    var rotation: int
    var placedOrnaments: seq<PlacedOrnament>
    var limitModalOpen: bool
    var loading: bool
    var saving: bool
    var hasPlaced: bool
    var viewingAffiliation: string
    var searchTerm: string
    const userData: UserData
    const design: OrnamentDesign

    /** The visitor's own room is shown first, turned to the initial angle,
        while the ornaments load. */
    constructor(userData: UserData, design: OrnamentDesign)
      ensures this.userData == userData && this.design == design
      ensures rotation == InitialRotation && placedOrnaments == [] && !limitModalOpen
      ensures loading && !saving && !hasPlaced
      ensures viewingAffiliation == userData.affiliation && searchTerm == ""
    {
      this.userData := userData;
      this.design := design;
      rotation := InitialRotation;
      placedOrnaments := [];
      limitModalOpen := false;
      loading := true;
      saving := false;
      hasPlaced := false;
      viewingAffiliation := userData.affiliation;
      searchTerm := "";
    }

    /** `loadOrnaments` completes with the decoded ornaments. */
    method OrnamentsLoaded(data: seq<PlacedOrnament>)
      modifies this
      ensures placedOrnaments == data && !loading
      ensures rotation == old(rotation) && limitModalOpen == old(limitModalOpen) && saving == old(saving)
      ensures hasPlaced == old(hasPlaced) && viewingAffiliation == old(viewingAffiliation) && searchTerm == old(searchTerm)
    {
      placedOrnaments := data;
      loading := false;
    }

    /** The search box's text changes. */
    method SetSearchTerm(term: string)
      modifies this
      ensures searchTerm == term
      ensures rotation == old(rotation) && placedOrnaments == old(placedOrnaments) && limitModalOpen == old(limitModalOpen)
      ensures loading == old(loading) && saving == old(saving) && hasPlaced == old(hasPlaced)
      ensures viewingAffiliation == old(viewingAffiliation)
    {
      searchTerm := term;
    }

    /** `handleSearch`: a blank term does nothing; otherwise the first ornament
        whose owner's name or id equals the trimmed term is shown (its room,
        its panel turned to the front) and the term cleared; a miss changes
        nothing. */
    method Search() returns (found: Option<PlacedOrnament>)
      modifies this
      ensures found == (if IsBlank(old(searchTerm)) then None else SearchTarget(old(placedOrnaments), Trim(old(searchTerm))))
      ensures found.Some? ==> (viewingAffiliation == found.value.affiliation
        && rotation == FacePanel(found.value.panelIndex) && searchTerm == "")
      ensures found.None? ==> (viewingAffiliation == old(viewingAffiliation)
        && rotation == old(rotation) && searchTerm == old(searchTerm))
      ensures placedOrnaments == old(placedOrnaments) && limitModalOpen == old(limitModalOpen)
      ensures loading == old(loading) && saving == old(saving) && hasPlaced == old(hasPlaced)
    {
      if IsBlank(searchTerm) {
        return None;
      }
      found := Find(placedOrnaments, Trim(searchTerm));
      if found.Some? {
        var target := found.value;
        viewingAffiliation := target.affiliation;
        rotation := FacePanel(target.panelIndex);
        searchTerm := "";
      }
    }

    /** `handleSlotClick` as one step. `tempId` stands for the generated id and
        `saveSucceeded` for the store's answer; the free panel is chosen
        nondeterministically. After a visit's ornament is placed, or while a
        save runs, a click changes nothing. When every panel of the visitor's
        room is taken at the slot the limit notice opens and nothing else
        changes. Otherwise a free panel is chosen; a successful save appends
        exactly one ornament, marks the visit as placed and turns the new
        ornament to the front, and a failed save changes nothing. A click that
        passes the two gates never leaves the scene saving. */
    method SlotClick(slotIndex: nat, tempId: string, saveSucceeded: bool) returns (outcome: SlotOutcome)
      requires slotIndex < SlotCount
      modifies this
      ensures outcome == AlreadyPlaced <==> old(hasPlaced)
      ensures outcome == Busy <==> !old(hasPlaced) && old(saving)
      ensures !old(hasPlaced) && !old(saving) ==>
        (outcome == TreeFull <==> AvailablePanels(OccupiedPanels(old(placedOrnaments), userData.affiliation, slotIndex, SlotY(slotIndex))) == [])
      ensures outcome.Saved? || outcome.SaveFailed? ==>
        outcome.panel in AvailablePanels(OccupiedPanels(old(placedOrnaments), userData.affiliation, slotIndex, SlotY(slotIndex)))
      ensures outcome.Saved? <==> !old(hasPlaced) && !old(saving) && outcome != TreeFull && saveSucceeded
      ensures outcome.SaveFailed? <==> !old(hasPlaced) && !old(saving) && outcome != TreeFull && !saveSucceeded
      ensures outcome.Saved? ==> (placedOrnaments == old(placedOrnaments) + [NewOrnament(userData, design, tempId, outcome.panel, slotIndex)]
        && hasPlaced && rotation == FacePanel(outcome.panel))
      ensures !outcome.Saved? ==> placedOrnaments == old(placedOrnaments) && hasPlaced == old(hasPlaced) && rotation == old(rotation)
      ensures outcome == AlreadyPlaced || outcome == Busy ==> saving == old(saving)
      ensures !(outcome == AlreadyPlaced || outcome == Busy) ==> !saving
      ensures limitModalOpen == (old(limitModalOpen) || outcome == TreeFull)
      ensures loading == old(loading) && viewingAffiliation == old(viewingAffiliation) && searchTerm == old(searchTerm)
    {
      if hasPlaced {
        return AlreadyPlaced;
      }
      if saving {
        return Busy;
      }
      var targetY := SlotY(slotIndex);
      var occupied := OccupiedPanels(placedOrnaments, userData.affiliation, slotIndex, targetY);
      var available := AvailablePanels(occupied);
      if |available| == 0 {
        limitModalOpen := true;
        return TreeFull;
      }
      assert available[0] in available;
      var panel :| panel in available;
      saving := true;
      if saveSucceeded {
        var newOrnament := NewOrnament(userData, design, tempId, panel, slotIndex);
        placedOrnaments := placedOrnaments + [newOrnament];
        hasPlaced := true;
        rotation := FacePanel(panel);
        outcome := Saved(panel);
      } else {
        outcome := SaveFailed(panel);
      }
      saving := false;
    }

    /** Closing the limit notice. */
    method CloseLimitModal()
      modifies this
      ensures !limitModalOpen
      ensures rotation == old(rotation) && placedOrnaments == old(placedOrnaments) && loading == old(loading)
      ensures saving == old(saving) && hasPlaced == old(hasPlaced)
      ensures viewingAffiliation == old(viewingAffiliation) && searchTerm == old(searchTerm)
    {
      limitModalOpen := false;
    }

    /** The arrow buttons turn the tree by a fixed step either way. */
    method Rotate(clockwise: bool)
      modifies this
      ensures rotation == old(rotation) + (if clockwise then RotateStep else -RotateStep)
      ensures placedOrnaments == old(placedOrnaments) && limitModalOpen == old(limitModalOpen) && loading == old(loading)
      ensures saving == old(saving) && hasPlaced == old(hasPlaced)
      ensures viewingAffiliation == old(viewingAffiliation) && searchTerm == old(searchTerm)
    {
      if clockwise {
        rotation := rotation + RotateStep;
      } else {
        rotation := rotation - RotateStep;
      }
    }

    /** A room tab shows that room. */
    method SelectRoom(tab: string)
      requires tab in GradeTabs
      modifies this
      ensures viewingAffiliation == tab
      ensures rotation == old(rotation) && placedOrnaments == old(placedOrnaments) && limitModalOpen == old(limitModalOpen)
      ensures loading == old(loading) && saving == old(saving) && hasPlaced == old(hasPlaced) && searchTerm == old(searchTerm)
    {
      viewingAffiliation := tab;
    }
  }
}
