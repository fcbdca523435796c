/** `ShuffleSupply`: a supply in the process of being shuffled. A value of
    `Supply` is the accumulator's state; `AddSpecial` and `AddKingdom` are its
    two admission operations, written as pure transitions. */
module ShuffleSupply {

  /** Identifiers of the card database that the accumulator compares against
      (the `TableCard` constants `ID_YOUNG_WITCH`, `SET_PROSPERITY`,
      `SET_DARK_AGES` and the id column `_ID`). */
  datatype Table = Table(youngWitch: nat, setProsperity: int, setDarkAges: int, idColumn: string)

  /** `bane` when no bane candidate has been seen. */
  const NoBane: int := -1
  /** Cost and set id passed when the Young Witch is re-admitted by force. */
  const RetryCost: string := "4"
  const RetrySet: int := 3

  datatype BaneStatus = Inactive | Waiting | Active

  /** Position of a bane status on its only path INACTIVE, WAITING, ACTIVE. */
  function Rank(b: BaneStatus): nat {
    match b
    case Inactive => 0
    case Waiting => 1
    case Active => 2
  }

  datatype Supply = Supply(
    minKingdom: nat,
    maxSpecial: nat,
    highCost: bool,
    shelters: bool,
    costCard: int,
    shelterCard: int,
    kingdom: seq<nat>,
    special: seq<nat>,
    baneStatus: BaneStatus,
    bane: int)

  /** The values `(int)(Math.random() * minKingdom) + 1` can take. */
  predicate SlotDrawable(minKingdom: nat, pos: int) {
    if minKingdom == 0 then pos == 1 else 1 <= pos <= minKingdom
  }

  predicate NeedsKingdom(s: Supply) {
    |s.kingdom| < s.minKingdom
  }

  function Shortfall(s: Supply): int {
    s.minKingdom - |s.kingdom|
  }

  predicate WaitingForBane(s: Supply) {
    s.baneStatus == Waiting
  }

  function GetBane(s: Supply): int {
    if s.baneStatus == Active then s.bane else NoBane
  }

  /** Kingdom ids followed by the special ids. */
  function GetCards(s: Supply): (r: seq<nat>)
    ensures |r| == |s.kingdom| + |s.special|
    ensures forall i :: 0 <= i < |s.kingdom| ==> r[i] == s.kingdom[i]
    ensures forall i :: 0 <= i < |s.special| ==> r[|s.kingdom| + i] == s.special[i]
  {
    s.kingdom + s.special
  }

  /** The cost test for a bane candidate: exactly the text "2" or "3". */
  predicate IsBaneCost(cost: string) {
    cost == "2" || cost == "3"
  }

  /** The facts every reachable supply keeps about its bane. */
  ghost predicate Wf(t: Table, s: Supply) {
    && (s.bane != NoBane ==> 0 <= s.bane && s.bane != t.youngWitch && s.bane in s.kingdom)
    && (s.baneStatus == Waiting ==> s.bane == NoBane)
    && (s.baneStatus == Active ==> s.bane != NoBane)
    && (s.baneStatus == Active <==> t.youngWitch in s.kingdom)
  }

  /** The constructor, with the two random slot positions as inputs. */
  function NewSupply(t: Table, minKingdom: nat, maxSpecial: nat, costCard: int, shelterCard: int): (s: Supply)
    requires SlotDrawable(minKingdom, costCard) && SlotDrawable(minKingdom, shelterCard)
    ensures Wf(t, s)
    ensures s.kingdom == [] && s.special == [] && !s.highCost && !s.shelters
    ensures GetBane(s) == NoBane && !WaitingForBane(s)
    ensures NeedsKingdom(s) <==> minKingdom > 0
    ensures Shortfall(s) == minKingdom
    // the preferences and the drawn slot positions are kept as given
    ensures s.minKingdom == minKingdom && s.maxSpecial == maxSpecial
    ensures s.costCard == costCard && s.shelterCard == shelterCard
  {
    Supply(minKingdom, maxSpecial, false, false, costCard, shelterCard, [], [], Inactive, NoBane)
  }

  /** `addSpecial`: a required card is always appended, an optional one only
      while there are fewer than `maxSpecial` special cards. */
  function AddSpecial(s: Supply, id: nat, required: bool): (r: Supply)
    ensures r.special == s.special + [id] <==> required || |s.special| < s.maxSpecial
    ensures r.special == s.special || r.special == s.special + [id]
    ensures r == s.(special := r.special)
    ensures !required && |s.special| <= s.maxSpecial ==> |r.special| <= s.maxSpecial
  {
    if required then s.(special := s.special + [id])
    else if |s.special| < s.maxSpecial then s.(special := s.special + [id])
    else s
  }

  /** `kingdom.add(id)` followed by the high cost / shelters slot tests. */
  function Append(t: Table, s: Supply, id: nat, setId: int): (r: Supply)
    ensures r == s.(kingdom := s.kingdom + [id], highCost := r.highCost, shelters := r.shelters)
  {
    var k := s.kingdom + [id];
    s.(kingdom := k,
       highCost := if |k| == s.costCard then setId == t.setProsperity else s.highCost,
       shelters := if |k| == s.shelterCard then setId == t.setDarkAges else s.shelters)
  }

  /** The Young Witch branch of `addKingdom` once a bane candidate is known:
      the bane becomes active, the kingdom gets one more slot and the Young
      Witch takes a place in it. The forced re-admission `addKingdom(
      ID_YOUNG_WITCH, "4", 3, true)` always lands in this branch. */
  function AdmitWitch(t: Table, s: Supply, setId: int): (r: Supply)
    requires s.bane != NoBane
    ensures r.kingdom == s.kingdom + [t.youngWitch]
    ensures r.baneStatus == Active && r.bane == s.bane
    ensures r.minKingdom == s.minKingdom + 1
    ensures Shortfall(r) == Shortfall(s)
  {
    Append(t, s.(baneStatus := Active, minKingdom := s.minKingdom + 1), t.youngWitch, setId)
  }

  /** `addKingdom`. A full supply ignores optional cards. The Young Witch waits
      until a bane candidate (a card costing "2" or "3") has been seen; with
      one, it activates the bane and widens the kingdom by one slot. A bane
      candidate is remembered, and re-admits a waiting Young Witch by force
      (with cost "4" and set id 3) just before it is appended itself; that
      one-level recursive call is `AdmitWitch`. */
  function AddKingdom(t: Table, s: Supply, id: nat, cost: string, setId: int, required: bool): (r: Supply)
    // admission never touches the special cards or the fixed positions
    ensures r.special == s.special && r.maxSpecial == s.maxSpecial
    ensures r.costCard == s.costCard && r.shelterCard == s.shelterCard
    // a full supply ignores optional cards
    ensures !required && s.minKingdom <= |s.kingdom| ==> r == s
    // the kingdom only grows at its end: nothing, the card, or the Young Witch then the card
    ensures || r.kingdom == s.kingdom
            || r.kingdom == s.kingdom + [id]
            || (r.kingdom == s.kingdom + [t.youngWitch, id] && s.baneStatus == Waiting && id != t.youngWitch)
    // minKingdom grows by one exactly when the Young Witch joins the kingdom
    ensures r.minKingdom == s.minKingdom + (if t.youngWitch in r.kingdom[|s.kingdom|..] then 1 else 0)
  {
    if !required && s.minKingdom <= |s.kingdom| then s
    else if id == t.youngWitch then
      if s.bane == NoBane then s.(baneStatus := Waiting)
      else AdmitWitch(t, s, setId)
    else if IsBaneCost(cost) then
      var marked := s.(bane := id);
      var withWitch := if s.baneStatus == Waiting then AdmitWitch(t, marked, RetrySet) else marked;
      Append(t, withWitch, id, setId)
    else Append(t, s, id, setId)
  }

  /** Whether `AddKingdom` acts at all: the card is forced or the kingdom has room. */
  predicate Admits(s: Supply, required: bool) {
    required || |s.kingdom| < s.minKingdom
  }

  /** Slot accounting: each admitted card other than the Young Witch closes
      one slot, the Young Witch closes none (it waits, or it brings its own
      extra slot), and optional admissions never overfill the kingdom. */
  lemma AddKingdomShortfall(t: Table, s: Supply, id: nat, cost: string, setId: int, required: bool)
    ensures var r := AddKingdom(t, s, id, cost, setId, required);
            Admits(s, required) ==> Shortfall(r) == Shortfall(s) - (if id == t.youngWitch then 0 else 1)
    ensures var r := AddKingdom(t, s, id, cost, setId, required);
            !required && |s.kingdom| <= s.minKingdom ==> |r.kingdom| <= r.minKingdom
  {
  }

  /** The Young Witch / bane rules of `addKingdom`. */
  lemma AddKingdomBane(t: Table, s: Supply, id: nat, cost: string, setId: int, required: bool)
    // the Young Witch without a bane candidate is deferred
    ensures var r := AddKingdom(t, s, id, cost, setId, required);
            Admits(s, required) && id == t.youngWitch && s.bane == NoBane ==>
              r.kingdom == s.kingdom && r.baneStatus == Waiting && r.minKingdom == s.minKingdom
    // the Young Witch after a bane candidate activates the bane
    ensures var r := AddKingdom(t, s, id, cost, setId, required);
            Admits(s, required) && id == t.youngWitch && s.bane != NoBane ==>
              r.kingdom == s.kingdom + [id] && r.baneStatus == Active && r.bane == s.bane
              && r.minKingdom == s.minKingdom + 1
    // a bane candidate is remembered, even over an earlier one; nothing else changes the bane
    ensures var r := AddKingdom(t, s, id, cost, setId, required);
            r.bane == (if Admits(s, required) && id != t.youngWitch && IsBaneCost(cost) then id else s.bane)
    // a bane candidate after a waiting Young Witch brings it in just before itself
    ensures var r := AddKingdom(t, s, id, cost, setId, required);
            Admits(s, required) && id != t.youngWitch && IsBaneCost(cost) && s.baneStatus == Waiting ==>
              r.kingdom == s.kingdom + [t.youngWitch, id] && r.baneStatus == Active
              && r.minKingdom == s.minKingdom + 1
    // any other card leaves the bane status alone
    ensures var r := AddKingdom(t, s, id, cost, setId, required);
            !Admits(s, required) || (id != t.youngWitch && !(IsBaneCost(cost) && s.baneStatus == Waiting)) ==>
              r.baneStatus == s.baneStatus
  {
  }

  /** The bane status only moves forward, a bane once seen stays, and the
      well-formedness facts survive every admission. */
  lemma AddKingdomKeepsWf(t: Table, s: Supply, id: nat, cost: string, setId: int, required: bool)
    requires Wf(t, s)
    ensures var r := AddKingdom(t, s, id, cost, setId, required);
            Wf(t, r) && Rank(s.baneStatus) <= Rank(r.baneStatus) && (s.bane != NoBane ==> r.bane != NoBane)
  {
  }

  /** How a slot flag evolves over one admission that turned `before` into
      `after`: it is decided by the card that lands on position `pos`, the
      admitted card with its own set id or the forced Young Witch with set id 3,
      and it is left alone when no card lands there. */
  predicate SlotRule(before: bool, after: bool, pos: int, oldSize: nat, k: seq<nat>,
                     id: nat, setId: int, target: int) {
    if oldSize < pos <= |k|
    then after == ((if k[pos - 1] == id then setId else RetrySet) == target)
    else after == before
  }

  /** High cost is decided by the card that lands on position `costCard` and
      shelters by the one on `shelterCard`. */
  lemma AddKingdomFlags(t: Table, s: Supply, id: nat, cost: string, setId: int, required: bool)
    ensures var r := AddKingdom(t, s, id, cost, setId, required);
            SlotRule(s.highCost, r.highCost, s.costCard, |s.kingdom|, r.kingdom, id, setId, t.setProsperity)
    ensures var r := AddKingdom(t, s, id, cost, setId, required);
            SlotRule(s.shelters, r.shelters, s.shelterCard, |s.kingdom|, r.kingdom, id, setId, t.setDarkAges)
  {
    var r := AddKingdom(t, s, id, cost, setId, required);
    if !Admits(s, required) {
      assert r == s;
    } else if id == t.youngWitch {
      if s.bane != NoBane {
        AppendFlags(t, s.(baneStatus := Active, minKingdom := s.minKingdom + 1), id, setId);
      }
    } else if IsBaneCost(cost) && s.baneStatus == Waiting {
      RetryFlags(t, s.(bane := id), id, setId);
    } else if IsBaneCost(cost) {
      AppendFlags(t, s.(bane := id), id, setId);
    } else {
      AppendFlags(t, s, id, setId);
    }
  }

  /** The slot rule for one appended card. */
  lemma AppendFlags(t: Table, s: Supply, id: nat, setId: int)
    ensures var r := Append(t, s, id, setId);
            && SlotRule(s.highCost, r.highCost, s.costCard, |s.kingdom|, r.kingdom, id, setId, t.setProsperity)
            && SlotRule(s.shelters, r.shelters, s.shelterCard, |s.kingdom|, r.kingdom, id, setId, t.setDarkAges)
  {
    var r := Append(t, s, id, setId);
    assert r.kingdom[|s.kingdom|] == id;
  }

  /** The slot rule for the forced Young Witch (set id 3) followed by the
      bane candidate that brought it back. */
  lemma RetryFlags(t: Table, s: Supply, id: nat, setId: int)
    requires s.bane != NoBane && id != t.youngWitch
    ensures var r := Append(t, AdmitWitch(t, s, RetrySet), id, setId);
            && SlotRule(s.highCost, r.highCost, s.costCard, |s.kingdom|, r.kingdom, id, setId, t.setProsperity)
            && SlotRule(s.shelters, r.shelters, s.shelterCard, |s.kingdom|, r.kingdom, id, setId, t.setDarkAges)
  {
    var w := AdmitWitch(t, s, RetrySet);
    var r := Append(t, w, id, setId);
    assert w.kingdom[|s.kingdom|] == t.youngWitch;
    assert r.kingdom[|s.kingdom|] == t.youngWitch;
    assert r.kingdom[|s.kingdom| + 1] == id;
  }

  /** `needsKingdom` and `getShortfall` agree: a supply needs kingdom cards
      exactly when its shortfall is positive, and an overfilled supply (one
      with forced cards past the target) reports a negative shortfall. */
  lemma ShortfallMeansNeed(s: Supply)
    ensures NeedsKingdom(s) <==> 0 < Shortfall(s)
    ensures Shortfall(s) < 0 <==> s.minKingdom < |s.kingdom|
  {
  }

  /** `waitingForBane` holds only while the Young Witch is deferred: no bane
      is reported and the Young Witch is not in the kingdom yet. */
  lemma WaitingHasNoBane(t: Table, s: Supply)
    requires Wf(t, s)
    ensures WaitingForBane(s) ==> GetBane(s) == NoBane && s.bane == NoBane && t.youngWitch !in s.kingdom
  {
  }

  /** `getBane` exposes a bane only once the Young Witch is in the kingdom. */
  lemma ReportedBaneIsPaired(t: Table, s: Supply)
    requires Wf(t, s)
    ensures GetBane(s) != NoBane <==> s.baneStatus == Active
    ensures GetBane(s) != NoBane <==> t.youngWitch in s.kingdom
    ensures GetBane(s) != NoBane ==> GetBane(s) in s.kingdom && GetBane(s) != t.youngWitch
  {
  }

  /** With room for both, the Young Witch and a bane candidate give the same
      supply, up to the order of the two ids, whichever arrives first. */
  lemma PairingIsOrderIndependent(t: Table, s: Supply, b: nat, cost: string, setB: int, setW: int,
                                  requiredW: bool, requiredB: bool)
    requires Wf(t, s) && s.baneStatus == Inactive && s.bane == NoBane
    requires b != t.youngWitch && IsBaneCost(cost)
    requires requiredW || |s.kingdom| + 1 < s.minKingdom
    requires requiredB || |s.kingdom| < s.minKingdom
    ensures var w1 := AddKingdom(t, s, t.youngWitch, RetryCost, setW, requiredW);
            var first := AddKingdom(t, w1, b, cost, setB, requiredB);
            var b2 := AddKingdom(t, s, b, cost, setB, requiredB);
            var second := AddKingdom(t, b2, t.youngWitch, RetryCost, setW, requiredW);
            && first.kingdom == s.kingdom + [t.youngWitch, b]
            && second.kingdom == s.kingdom + [b, t.youngWitch]
            && first.baneStatus == second.baneStatus == Active
            && first.minKingdom == second.minKingdom == s.minKingdom + 1
            && GetBane(first) == GetBane(second) == b
  {
  }
}
