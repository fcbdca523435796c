/** `loadCards`: one pass of the shuffle, folding the accumulator over the
    rows a card query returned, in the (random) order it returned them. */
module Passes {
  import opened ShuffleSupply

  /** One row of the card query: the id, the event and landmark type columns,
      the cost text and the set id. */
  datatype Card = Card(id: nat, event: int, landmark: int, cost: string, setId: int)

  /** Events and landmarks are special cards; everything else is a kingdom card. */
  predicate IsSpecial(c: Card) {
    c.event != 0 || c.landmark != 0
  }

  /** The body of the loop: hand the row to `addSpecial` or `addKingdom`. */
  function Admit(t: Table, s: Supply, c: Card, required: bool): Supply {
    if IsSpecial(c) then AddSpecial(s, c.id, required)
    else AddKingdom(t, s, c.id, c.cost, c.setId, required)
  }

  /** The cancellation flag of the task, as seen by its successive polls: once
      raised before poll number `poll`, every later poll sees it. */
  datatype Signal = Never | RaisedAt(poll: nat)

  predicate IsCancelled(sig: Signal, poll: nat) {
    sig.RaisedAt? && sig.poll <= poll
  }

  /** The supply after a pass and the number of the next poll. */
  datatype Pass = Pass(supply: Supply, polls: nat)

  /** The `while` loop of `loadCards`: take the next row while there is one
      and the pass is required or the supply still needs kingdom cards; poll
      the cancellation flag and stop when it is raised; otherwise admit. */
  function LoadCards(t: Table, s: Supply, cards: seq<Card>, required: bool, sig: Signal, poll: nat): (r: Pass)
    ensures poll <= r.polls <= poll + |cards|
    ensures r.supply.costCard == s.costCard && r.supply.shelterCard == s.shelterCard
    ensures r.supply.maxSpecial == s.maxSpecial
    ensures |s.kingdom| <= |r.supply.kingdom| && r.supply.kingdom[..|s.kingdom|] == s.kingdom
    ensures |s.special| <= |r.supply.special| && r.supply.special[..|s.special|] == s.special
    ensures !required && !NeedsKingdom(s) ==> r == Pass(s, poll)
    decreases |cards|
  {
    if |cards| == 0 || !(required || NeedsKingdom(s)) then Pass(s, poll)
    else if IsCancelled(sig, poll) then Pass(s, poll + 1)
    else
      var s' := Admit(t, s, cards[0], required);
      var r := LoadCards(t, s', cards[1..], required, sig, poll + 1);
      assert r.supply.kingdom[..|s.kingdom|] == r.supply.kingdom[..|s'.kingdom|][..|s.kingdom|];
      assert r.supply.special[..|s.special|] == r.supply.special[..|s'.special|][..|s.special|];
      r
  }

  /** Kingdom rows other than the Young Witch: each one closes a slot. */
  function CountPlain(t: Table, cards: seq<Card>): (n: nat)
    ensures n <= |cards|
  {
    if |cards| == 0 then 0
    else (if !IsSpecial(cards[0]) && cards[0].id != t.youngWitch then 1 else 0) + CountPlain(t, cards[1..])
  }

  /** The bane well-formedness survives a pass; the status never moves back
      and a bane, once seen, stays. */
  lemma {:induction false} LoadCardsKeepsWf(t: Table, s: Supply, cards: seq<Card>, required: bool,
                                            sig: Signal, poll: nat)
    requires Wf(t, s)
    ensures var r := LoadCards(t, s, cards, required, sig, poll).supply;
            Wf(t, r) && Rank(s.baneStatus) <= Rank(r.baneStatus) && (s.bane != NoBane ==> r.bane != NoBane)
    decreases |cards|
  {
    if |cards| > 0 && (required || NeedsKingdom(s)) && !IsCancelled(sig, poll) {
      var s' := Admit(t, s, cards[0], required);
      AdmitKeepsWf(t, s, cards[0], required);
      LoadCardsKeepsWf(t, s', cards[1..], required, sig, poll + 1);
      assert LoadCards(t, s, cards, required, sig, poll) == LoadCards(t, s', cards[1..], required, sig, poll + 1);
    }
  }

  /** One row of a pass keeps the bane well-formedness, whichever list it joins. */
  lemma AdmitKeepsWf(t: Table, s: Supply, c: Card, required: bool)
    requires Wf(t, s)
    ensures var r := Admit(t, s, c, required);
            Wf(t, r) && Rank(s.baneStatus) <= Rank(r.baneStatus) && (s.bane != NoBane ==> r.bane != NoBane)
  {
    if !IsSpecial(c) {
      AddKingdomKeepsWf(t, s, c.id, c.cost, c.setId, required);
    }
  }

  /** An optional pass never takes the kingdom past `minKingdom`. */
  lemma {:induction false} LoadCardsOptionalBound(t: Table, s: Supply, cards: seq<Card>, sig: Signal, poll: nat)
    requires |s.kingdom| <= s.minKingdom
    ensures var r := LoadCards(t, s, cards, false, sig, poll).supply;
            |r.kingdom| <= r.minKingdom
    decreases |cards|
  {
    if |cards| > 0 && NeedsKingdom(s) && !IsCancelled(sig, poll) {
      var c := cards[0];
      if !IsSpecial(c) {
        AddKingdomShortfall(t, s, c.id, c.cost, c.setId, false);
      }
      LoadCardsOptionalBound(t, Admit(t, s, c, false), cards[1..], sig, poll + 1);
    }
  }

  /** Once the kingdom has reached a flag's position, the flag is settled:
      no later admission changes it, so each flag is decided at most once. */
  lemma {:induction false} LoadCardsSettlesFlags(t: Table, s: Supply, cards: seq<Card>, required: bool,
                                                 sig: Signal, poll: nat)
    ensures var r := LoadCards(t, s, cards, required, sig, poll).supply;
            (s.costCard <= |s.kingdom| ==> r.highCost == s.highCost)
            && (s.shelterCard <= |s.kingdom| ==> r.shelters == s.shelters)
    decreases |cards|
  {
    if |cards| > 0 && (required || NeedsKingdom(s)) && !IsCancelled(sig, poll) {
      var c := cards[0];
      if !IsSpecial(c) {
        AddKingdomFlags(t, s, c.id, c.cost, c.setId, required);
      }
      LoadCardsSettlesFlags(t, Admit(t, s, c, required), cards[1..], required, sig, poll + 1);
    }
  }

  /** An optional pass admits special cards only while there are fewer than
      `maxSpecial`: it never takes their number past that limit, nor past
      the number it started with. */
  lemma {:induction false} LoadCardsSpecialCap(t: Table, s: Supply, cards: seq<Card>, sig: Signal, poll: nat)
    ensures var r := LoadCards(t, s, cards, false, sig, poll).supply;
            |r.special| <= if |s.special| <= s.maxSpecial then s.maxSpecial else |s.special|
    decreases |cards|
  {
    if |cards| > 0 && NeedsKingdom(s) && !IsCancelled(sig, poll) {
      LoadCardsSpecialCap(t, Admit(t, s, cards[0], false), cards[1..], sig, poll + 1);
    }
  }

  /** A required pass reads every row unless it is cancelled, so a signal
      raised by the time of its last poll is seen by the poll after it. */
  lemma {:induction false} LoadCardsSeesSignal(t: Table, s: Supply, cards: seq<Card>, sig: Signal, poll: nat)
    requires IsCancelled(sig, poll + |cards|)
    ensures IsCancelled(sig, LoadCards(t, s, cards, true, sig, poll).polls)
    decreases |cards|
  {
    if |cards| > 0 && !IsCancelled(sig, poll) {
      LoadCardsSeesSignal(t, Admit(t, s, cards[0], true), cards[1..], sig, poll + 1);
    }
  }

  /** Slot accounting over a pass that is not cancelled: every plain kingdom
      row consumed closes one slot. A required pass consumes every row; an
      optional pass stops exactly when the kingdom is full. */
  lemma {:induction false} LoadCardsShortfall(t: Table, s: Supply, cards: seq<Card>, required: bool, poll: nat)
    ensures var r := LoadCards(t, s, cards, required, Never, poll).supply;
            required || NeedsKingdom(r) ==> Shortfall(r) == Shortfall(s) - CountPlain(t, cards)
    ensures var r := LoadCards(t, s, cards, required, Never, poll).supply;
            !required && 0 <= Shortfall(s) ==> 0 <= Shortfall(r)
    ensures var r := LoadCards(t, s, cards, required, Never, poll).supply;
            Shortfall(s) - CountPlain(t, cards) <= Shortfall(r)
    decreases |cards|
  {
    if |cards| > 0 && (required || NeedsKingdom(s)) {
      var c := cards[0];
      if !IsSpecial(c) {
        AddKingdomShortfall(t, s, c.id, c.cost, c.setId, required);
      }
      LoadCardsShortfall(t, Admit(t, s, c, required), cards[1..], required, poll + 1);
    }
  }

  /** An optional pass that has filled the kingdom ignores any further rows:
      the query's cursor is abandoned, not drained. */
  lemma {:induction false} LoadCardsEarlyExit(t: Table, s: Supply, cards: seq<Card>, more: seq<Card>,
                                              sig: Signal, poll: nat)
    requires !NeedsKingdom(LoadCards(t, s, cards, false, sig, poll).supply)
    ensures LoadCards(t, s, cards + more, false, sig, poll) == LoadCards(t, s, cards, false, sig, poll)
    decreases |cards|
  {
    if |cards| > 0 && NeedsKingdom(s) && !IsCancelled(sig, poll) {
      assert (cards + more)[1..] == cards[1..] + more;
      LoadCardsEarlyExit(t, Admit(t, s, cards[0], false), cards[1..], more, sig, poll + 1);
    } else if |cards| == 0 {
      assert cards + more == more;
    }
  }

  /** A cancelled pass is an uncancelled pass over a prefix of the rows. */
  lemma {:induction false} LoadCardsCancelTruncates(t: Table, s: Supply, cards: seq<Card>, required: bool,
                                                    sig: Signal, poll: nat)
    ensures exists k :: 0 <= k <= |cards| &&
              LoadCards(t, s, cards, required, sig, poll).supply == LoadCards(t, s, cards[..k], required, Never, poll).supply
    ensures sig == Never || !IsCancelled(sig, poll + |cards|) ==>
              LoadCards(t, s, cards, required, sig, poll).supply == LoadCards(t, s, cards, required, Never, poll).supply
    decreases |cards|
  {
    var r := LoadCards(t, s, cards, required, sig, poll).supply;
    if |cards| == 0 || !(required || NeedsKingdom(s)) {
      assert cards[..0] == [];
      assert r == LoadCards(t, s, cards[..0], required, Never, poll).supply;
    } else if IsCancelled(sig, poll) {
      assert cards[..0] == [];
      assert r == LoadCards(t, s, cards[..0], required, Never, poll).supply;
    } else {
      var s' := Admit(t, s, cards[0], required);
      LoadCardsCancelTruncates(t, s', cards[1..], required, sig, poll + 1);
      var k :| 0 <= k <= |cards[1..]| &&
               r == LoadCards(t, s', cards[1..][..k], required, Never, poll + 1).supply;
      assert cards[..k + 1][1..] == cards[1..][..k];
      NeverIgnoresPoll(t, s', cards[1..][..k], required, poll + 1, poll + 1);
      assert r == LoadCards(t, s, cards[..k + 1], required, Never, poll).supply;
    }
  }

  /** A signal raised after the last poll a pass makes is never seen: the
      pass, its poll count included, is the same as without a signal. */
  lemma {:induction false} LoadCardsLateSignal(t: Table, s: Supply, cards: seq<Card>, required: bool,
                                               sig: Signal, poll: nat)
    requires !IsCancelled(sig, poll + |cards|)
    ensures LoadCards(t, s, cards, required, sig, poll) == LoadCards(t, s, cards, required, Never, poll)
    decreases |cards|
  {
    if |cards| > 0 && (required || NeedsKingdom(s)) {
      LoadCardsLateSignal(t, Admit(t, s, cards[0], required), cards[1..], required, sig, poll + 1);
    }
  }

  /** Without a cancellation signal, the poll numbers do not matter. */
  lemma {:induction false} NeverIgnoresPoll(t: Table, s: Supply, cards: seq<Card>, required: bool, p: nat, q: nat)
    ensures LoadCards(t, s, cards, required, Never, p).supply == LoadCards(t, s, cards, required, Never, q).supply
    decreases |cards|
  {
    if |cards| > 0 && (required || NeedsKingdom(s)) {
      NeverIgnoresPoll(t, Admit(t, s, cards[0], required), cards[1..], required, p + 1, q + 1);
    }
  }

  /** No id occurs twice. */
  ghost predicate Distinct(xs: seq<nat>) {
    forall i, j :: 0 <= i < j < |xs| ==> xs[i] != xs[j]
  }

  /** The rows still to come are new to the supply: their ids are distinct and
      not yet in the kingdom, and none of them is the Young Witch while it is
      waiting. The two queries guarantee this: the database ids are unique and
      the optional query excludes every required id. */
  ghost predicate Fresh(t: Table, s: Supply, cards: seq<Card>) {
    && (forall i, j :: 0 <= i < j < |cards| ==> cards[i].id != cards[j].id)
    && (forall i :: 0 <= i < |cards| ==> cards[i].id !in s.kingdom)
    && (s.baneStatus == Waiting ==> forall i :: 0 <= i < |cards| ==> cards[i].id != t.youngWitch)
  }

  lemma AdmitFreshStep(t: Table, s: Supply, cards: seq<Card>, required: bool)
    requires |cards| > 0 && Wf(t, s) && Distinct(s.kingdom) && Fresh(t, s, cards)
    ensures var s' := Admit(t, s, cards[0], required);
            && Wf(t, s') && Distinct(s'.kingdom) && Fresh(t, s', cards[1..])
            && s'.minKingdom == s.minKingdom + (if s.baneStatus != Active && s'.baneStatus == Active then 1 else 0)
  {
    var c := cards[0];
    AdmitKeepsWf(t, s, c, required);
    if !IsSpecial(c) {
      AddKingdomBane(t, s, c.id, c.cost, c.setId, required);
      AddKingdomKeepsDistinct(t, s, cards, required);
      AddKingdomKeepsFresh(t, s, cards, required);
    }
  }

  /** The kingdom stays free of repeats when a fresh row joins it. */
  lemma AddKingdomKeepsDistinct(t: Table, s: Supply, cards: seq<Card>, required: bool)
    requires |cards| > 0 && !IsSpecial(cards[0]) && Wf(t, s) && Distinct(s.kingdom) && Fresh(t, s, cards)
    ensures Distinct(AddKingdom(t, s, cards[0].id, cards[0].cost, cards[0].setId, required).kingdom)
  {
    var c := cards[0];
    var s' := AddKingdom(t, s, c.id, c.cost, c.setId, required);
    assert c.id !in s.kingdom;
    if s'.kingdom == s.kingdom + [t.youngWitch, c.id] {
      assert t.youngWitch !in s.kingdom;
      assert s'.kingdom[|s.kingdom|..] == [t.youngWitch, c.id];
    } else if s'.kingdom == s.kingdom + [c.id] {
      assert s'.kingdom[|s.kingdom|..] == [c.id];
    }
  }

  /** The rows after a fresh row are still fresh once it has joined. */
  lemma AddKingdomKeepsFresh(t: Table, s: Supply, cards: seq<Card>, required: bool)
    requires |cards| > 0 && !IsSpecial(cards[0]) && Wf(t, s) && Fresh(t, s, cards)
    ensures Fresh(t, AddKingdom(t, s, cards[0].id, cards[0].cost, cards[0].setId, required), cards[1..])
  {
    var c := cards[0];
    var s' := AddKingdom(t, s, c.id, c.cost, c.setId, required);
    AddKingdomBane(t, s, c.id, c.cost, c.setId, required);
    forall i | 0 <= i < |cards[1..]|
      ensures cards[1..][i].id !in s'.kingdom
    {
      assert cards[1..][i] == cards[i + 1];
    }
  }

  /** Over a pass of fresh rows the kingdom keeps distinct ids and
      `minKingdom` grows by exactly one if the bane became active during the
      pass, and not at all otherwise. */
  lemma {:induction false} LoadCardsWidensOnce(t: Table, s: Supply, cards: seq<Card>, required: bool,
                                               sig: Signal, poll: nat)
    requires Wf(t, s) && Distinct(s.kingdom) && Fresh(t, s, cards)
    ensures var r := LoadCards(t, s, cards, required, sig, poll).supply;
            && Distinct(r.kingdom)
            && r.minKingdom == s.minKingdom + (if s.baneStatus != Active && r.baneStatus == Active then 1 else 0)
    decreases |cards|, 1
  {
    if |cards| > 0 && (required || NeedsKingdom(s)) && !IsCancelled(sig, poll) {
      var s' := Admit(t, s, cards[0], required);
      AdmitFreshStep(t, s, cards, required);
      WidensOnceStep(t, s, s', cards[1..], required, sig, poll + 1);
    }
  }

  lemma WidensOnceStep(t: Table, s: Supply, s': Supply, rest: seq<Card>, required: bool, sig: Signal, poll: nat)
    requires Wf(t, s') && Distinct(s'.kingdom) && Fresh(t, s', rest)
    requires Rank(s.baneStatus) <= Rank(s'.baneStatus)
    requires s'.minKingdom == s.minKingdom + (if s.baneStatus != Active && s'.baneStatus == Active then 1 else 0)
    ensures var r := LoadCards(t, s', rest, required, sig, poll).supply;
            && Distinct(r.kingdom)
            && r.minKingdom == s.minKingdom + (if s.baneStatus != Active && r.baneStatus == Active then 1 else 0)
    decreases |rest| + 1, 0
  {
    var r := LoadCards(t, s', rest, required, sig, poll).supply;
    LoadCardsKeepsWf(t, s', rest, required, sig, poll);
    LoadCardsWidensOnce(t, s', rest, required, sig, poll);
    if s'.baneStatus == Active {
      assert r.baneStatus == Active;
    }
  }

  /** The query returned the Young Witch as a kingdom card. */
  predicate HasWitch(t: Table, cards: seq<Card>) {
    exists i :: 0 <= i < |cards| && !IsSpecial(cards[i]) && cards[i].id == t.youngWitch
  }

  /** The query returned a kingdom card that can serve as the bane. */
  predicate HasBaneCandidate(t: Table, cards: seq<Card>) {
    exists i :: 0 <= i < |cards| && !IsSpecial(cards[i]) && cards[i].id != t.youngWitch && IsBaneCost(cards[i].cost)
  }

  /** A required pass pairs the Young Witch with a bane whatever order the two
      arrive in: when the Young Witch and a bane candidate have both been seen,
      the bane is active, so both are in the kingdom. */
  lemma {:induction false} LoadCardsRequiredPairs(t: Table, s: Supply, cards: seq<Card>, poll: nat)
    requires Wf(t, s)
    requires s.baneStatus != Inactive || HasWitch(t, cards)
    requires s.bane != NoBane || HasBaneCandidate(t, cards)
    ensures var r := LoadCards(t, s, cards, true, Never, poll).supply;
            r.baneStatus == Active && t.youngWitch in r.kingdom && r.bane in r.kingdom
    decreases |cards|
  {
    if |cards| == 0 {
    } else {
      var c := cards[0];
      var s' := Admit(t, s, c, true);
      if !IsSpecial(c) {
        AddKingdomKeepsWf(t, s, c.id, c.cost, c.setId, true);
        AddKingdomBane(t, s, c.id, c.cost, c.setId, true);
      }
      if !(s'.baneStatus != Inactive) {
        var i :| 0 <= i < |cards| && !IsSpecial(cards[i]) && cards[i].id == t.youngWitch;
        assert i != 0;
        assert cards[1..][i - 1] == cards[i];
      }
      if s'.bane == NoBane {
        var i :| 0 <= i < |cards| && !IsSpecial(cards[i]) && cards[i].id != t.youngWitch && IsBaneCost(cards[i].cost);
        assert i != 0;
        assert cards[1..][i - 1] == cards[i];
      }
      LoadCardsRequiredPairs(t, s', cards[1..], poll + 1);
    }
  }

  /** Without the Young Witch among the rows, an inactive bane stays inactive
      and `minKingdom` stays as it was. */
  lemma {:induction false} LoadCardsWithoutWitch(t: Table, s: Supply, cards: seq<Card>, required: bool,
                                                 sig: Signal, poll: nat)
    requires s.baneStatus == Inactive && !HasWitch(t, cards)
    ensures var r := LoadCards(t, s, cards, required, sig, poll).supply;
            r.baneStatus == Inactive && r.minKingdom == s.minKingdom
    decreases |cards|
  {
    if |cards| > 0 && (required || NeedsKingdom(s)) && !IsCancelled(sig, poll) {
      var c := cards[0];
      var s' := Admit(t, s, c, required);
      if !IsSpecial(c) {
        AddKingdomBane(t, s, c.id, c.cost, c.setId, required);
        assert s'.kingdom[|s.kingdom|..] == [] || s'.kingdom[|s.kingdom|..] == [c.id];
      }
      assert !HasWitch(t, cards[1..]) by {
        forall i | 0 <= i < |cards[1..]|
          ensures !(!IsSpecial(cards[1..][i]) && cards[1..][i].id == t.youngWitch)
        {
          assert cards[1..][i] == cards[i + 1];
        }
      }
      LoadCardsWithoutWitch(t, s', cards[1..], required, sig, poll + 1);
    }
  }

  /** An optional pass without a Young Witch, over fewer plain kingdom rows
      than the supply lacks, takes every one of them and still falls short. */
  lemma LoadCardsFallsShort(t: Table, s: Supply, cards: seq<Card>, poll: nat)
    requires s.baneStatus == Inactive && !HasWitch(t, cards) && CountPlain(t, cards) < Shortfall(s)
    ensures var r := LoadCards(t, s, cards, false, Never, poll).supply;
            && NeedsKingdom(r) && r.baneStatus == Inactive && r.minKingdom == s.minKingdom
            && Shortfall(r) == Shortfall(s) - CountPlain(t, cards)
  {
    LoadCardsShortfall(t, s, cards, false, poll);
    LoadCardsWithoutWitch(t, s, cards, false, Never, poll);
  }

  /** Rows left after a pass are still fresh for the supply it produced. */
  lemma {:induction false} LoadCardsKeepsFresh(t: Table, s: Supply, cards: seq<Card>, more: seq<Card>,
                                               required: bool, sig: Signal, poll: nat)
    requires Wf(t, s) && Distinct(s.kingdom) && Fresh(t, s, cards + more)
    ensures var r := LoadCards(t, s, cards, required, sig, poll).supply;
            Wf(t, r) && Distinct(r.kingdom) && Fresh(t, r, more)
    decreases |cards|
  {
    if |cards| > 0 && (required || NeedsKingdom(s)) && !IsCancelled(sig, poll) {
      AdmitFreshStep(t, s, cards + more, required);
      assert (cards + more)[0] == cards[0];
      assert (cards + more)[1..] == cards[1..] + more;
      LoadCardsKeepsFresh(t, Admit(t, s, cards[0], required), cards[1..], more, required, sig, poll + 1);
    } else {
      forall i | 0 <= i < |more|
        ensures (cards + more)[|cards| + i] == more[i]
      {
      }
    }
  }

  /** The first rows of a fresh sequence are fresh. */
  lemma FreshPrefix(t: Table, s: Supply, cards: seq<Card>, more: seq<Card>)
    requires Fresh(t, s, cards + more)
    ensures Fresh(t, s, cards)
  {
    forall i | 0 <= i < |cards|
      ensures (cards + more)[i] == cards[i]
    {
    }
  }

  /** `LoadCardsWidensOnce` counted from an earlier `minKingdom` `m`: if the
      supply so far widened only with an active bane, so does the result. */
  lemma LoadCardsWidensFrom(t: Table, s: Supply, cards: seq<Card>, required: bool, sig: Signal, poll: nat, m: nat)
    requires Wf(t, s) && Distinct(s.kingdom) && Fresh(t, s, cards)
    requires s.minKingdom == m + (if s.baneStatus == Active then 1 else 0)
    ensures var r := LoadCards(t, s, cards, required, sig, poll).supply;
            && Wf(t, r) && Distinct(r.kingdom)
            && r.minKingdom == m + (if r.baneStatus == Active then 1 else 0)
  {
    var r := LoadCards(t, s, cards, required, sig, poll).supply;
    LoadCardsWidensOnce(t, s, cards, required, sig, poll);
    LoadCardsKeepsWf(t, s, cards, required, sig, poll);
    if s.baneStatus == Active {
      assert Rank(r.baneStatus) >= 2;
    }
  }
}
