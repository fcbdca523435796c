/** `SupplyShuffler.doInBackground`: build a supply from the preferences in a
    required pass and an optional pass, then classify the outcome. The card
    store is a parameter: it maps a filter string to the rows the query
    returns, already in the random order the database chose. */
module Shuffler {
  import opened Filters
  import opened Decimal
  import opened ShuffleSupply
  import opened Passes

  /** The preferences read by one shuffle, and the two random slot positions. */
  datatype Config = Config(
    minKingdom: nat,          // LIMIT_SUPPLY
    maxSpecial: nat,          // LIMIT_EVENTS
    costCard: int,
    shelterCard: int,
    preFilter: Option<string>, // the picker's filter
    requiredCards: string,    // REQ_CARDS: comma-separated ids
    excludedCards: string,    // FILT_CARD: comma-separated ids
    editionFilter: string)    // FILT_EDITION

  /** The history row written on success (the time stamp is left out). */
  datatype History = History(cards: seq<nat>, bane: int, highCost: bool, shelters: bool)

  /** RES_OK, RES_NO_YW, RES_MORE with its "X/Y" text, RES_CANCEL. */
  datatype Outcome = Ok(entry: History) | NoYoungWitch | More(shortfall: string) | Cancelled

  /** The outcome of an attempt and the supply it ended with. */
  datatype Attempt = Attempt(outcome: Outcome, supply: Supply)

  predicate ValidSlots(cfg: Config) {
    SlotDrawable(cfg.minKingdom, cfg.costCard) && SlotDrawable(cfg.minKingdom, cfg.shelterCard)
  }

  function InitialSupply(t: Table, cfg: Config): Supply
    requires ValidSlots(cfg)
  {
    NewSupply(t, cfg.minKingdom, cfg.maxSpecial, cfg.costCard, cfg.shelterCard)
  }

  /** `successfulResult`: the row it inserts. */
  function Success(s: Supply): Outcome {
    Ok(History(GetCards(s), GetBane(s), s.highCost, s.shelters))
  }

  /** The query filter of the required pass. */
  function RequiredQuery(t: Table, cfg: Config): string {
    KeptPair(cfg.preFilter, Some(RequiredFilter(t.idColumn, cfg.requiredCards)));
    JoinFilters([cfg.preFilter, Some(RequiredFilter(t.idColumn, cfg.requiredCards))]).value
  }

  /** `joinFilters(filt_pre, filt)` for the optional pass stays inside its
      array: the pre-filter or the remainder filter is non-empty. */
  predicate RemainderJoinable(t: Table, cfg: Config) {
    CanJoin([cfg.preFilter, Some(RemainderFilter(t.idColumn, cfg.requiredCards, cfg.excludedCards, cfg.editionFilter))])
  }

  /** The query filter of the optional pass. */
  function RemainderQuery(t: Table, cfg: Config): string
    requires RemainderJoinable(t, cfg)
  {
    JoinFilters([cfg.preFilter, Some(RemainderFilter(t.idColumn, cfg.requiredCards, cfg.excludedCards, cfg.editionFilter))]).value
  }

  /** Rows of the required pass; the pass is skipped without required cards. */
  function RequiredRows(t: Table, cfg: Config, store: string -> seq<Card>): seq<Card> {
    if 0 < |cfg.requiredCards| then store(RequiredQuery(t, cfg)) else []
  }

  /** A required id list makes the remainder filter non-empty. */
  lemma RequiredMakesJoinable(t: Table, cfg: Config)
    requires cfg.requiredCards != ""
    ensures RemainderJoinable(t, cfg)
  {
    KeptPair(cfg.preFilter, Some(RemainderFilter(t.idColumn, cfg.requiredCards, cfg.excludedCards, cfg.editionFilter)));
  }

  /** The required pass, skipped when no card is required. */
  function RequiredPass(t: Table, cfg: Config, store: string -> seq<Card>, sig: Signal): Pass
    requires ValidSlots(cfg)
  {
    if 0 < |cfg.requiredCards| then LoadCards(t, InitialSupply(t, cfg), RequiredRows(t, cfg, store), true, sig, 0)
    else Pass(InitialSupply(t, cfg), 0)
  }

  /** The optional pass, continuing from the required one. */
  function OptionalPass(t: Table, cfg: Config, store: string -> seq<Card>, sig: Signal, req: Pass): Pass
    requires RemainderJoinable(t, cfg)
  {
    LoadCards(t, req.supply, store(RemainderQuery(t, cfg)), false, sig, req.polls + 1)
  }

  /** `doInBackground`. Polls of the cancellation flag are numbered in order:
      one per row taken in the required pass, then the check after it, then
      one per row taken in the optional pass, then the check after that. */
  function Shuffle(t: Table, cfg: Config, store: string -> seq<Card>, sig: Signal): (a: Attempt)
    requires ValidSlots(cfg)
    requires cfg.minKingdom == 0 || IsCancelled(sig, 0) || RemainderJoinable(t, cfg)
    // success exactly when the kingdom is full, and the row written is the supply's
    ensures !a.outcome.Cancelled? ==> (a.outcome.Ok? <==> !NeedsKingdom(a.supply))
    ensures a.outcome.Ok? ==> a.outcome.entry.cards == a.supply.kingdom + a.supply.special
    ensures a.outcome.Ok? ==> a.outcome.entry.bane == GetBane(a.supply)
    ensures a.outcome.Ok? ==> a.outcome.entry.highCost == a.supply.highCost && a.outcome.entry.shelters == a.supply.shelters
    // the Young Witch failure: one slot short and still waiting for a bane
    ensures a.outcome.NoYoungWitch? <==>
              !a.outcome.Cancelled? && NeedsKingdom(a.supply) && WaitingForBane(a.supply) && Shortfall(a.supply) == 1
    // any other shortage reports what it got over what it needed
    ensures a.outcome.More? ==>
              && NeedsKingdom(a.supply) && !(WaitingForBane(a.supply) && Shortfall(a.supply) == 1)
              && ParseShortfall(a.outcome.shortfall) == Fraction(|a.supply.kingdom|, a.supply.minKingdom)
    // no cancellation without a signal; a zero target succeeds at once with nothing
    ensures sig == Never ==> !a.outcome.Cancelled?
    ensures cfg.minKingdom == 0 ==> a.outcome == Ok(History([], NoBane, false, false))
    // a signal raised by the last poll of the required pass, or by the check
    // after the optional pass when that pass runs, cancels the attempt
    ensures cfg.minKingdom > 0 && IsCancelled(sig, |RequiredRows(t, cfg, store)|) ==> a.outcome == Cancelled
    ensures var req := RequiredPass(t, cfg, store, sig);
            (cfg.minKingdom > 0 && NeedsKingdom(req.supply) && RemainderJoinable(t, cfg)
             && IsCancelled(sig, OptionalPass(t, cfg, store, sig, req).polls)) ==> a.outcome == Cancelled
  {
    var s0 := InitialSupply(t, cfg);
    if !NeedsKingdom(s0) then Attempt(Success(s0), s0)
    else
      var req := RequiredPass(t, cfg, store, sig);
      assert IsCancelled(sig, |RequiredRows(t, cfg, store)|) ==> IsCancelled(sig, req.polls) by {
        if 0 < |cfg.requiredCards| && IsCancelled(sig, |RequiredRows(t, cfg, store)|) {
          LoadCardsSeesSignal(t, s0, RequiredRows(t, cfg, store), sig, 0);
        }
      }
      if IsCancelled(sig, req.polls) then Attempt(Cancelled, req.supply)
      else if !NeedsKingdom(req.supply) then Attempt(Success(req.supply), req.supply)
      else
        assert cfg.requiredCards != "" ==> RemainderJoinable(t, cfg) by {
          if cfg.requiredCards != "" { RequiredMakesJoinable(t, cfg); }
        }
        var s := OptionalPass(t, cfg, store, sig, req).supply;
        if IsCancelled(sig, OptionalPass(t, cfg, store, sig, req).polls) then Attempt(Cancelled, s)
        else Attempt(Classify(s), s)
  }

  /** What an attempt that ran both passes uncancelled reports for the
      supply it ends with. */
  function Classify(s: Supply): Outcome {
    if !NeedsKingdom(s) then Success(s)
    else if WaitingForBane(s) && Shortfall(s) == 1 then NoYoungWitch
    else More(ShortfallText(s.minKingdom - Shortfall(s), s.minKingdom))
  }

  /** Which supply an attempt ends with: the initial one, the one after the
      required pass, or the one after the optional pass. */
  lemma ShuffleSteps(t: Table, cfg: Config, store: string -> seq<Card>, sig: Signal)
    requires ValidSlots(cfg)
    requires cfg.minKingdom == 0 || IsCancelled(sig, 0) || RemainderJoinable(t, cfg)
    ensures var s0 := InitialSupply(t, cfg);
            var req := RequiredPass(t, cfg, store, sig);
            && (!NeedsKingdom(s0) ==> Shuffle(t, cfg, store, sig).supply == s0)
            && (NeedsKingdom(s0) && (IsCancelled(sig, req.polls) || !NeedsKingdom(req.supply)) ==>
                  Shuffle(t, cfg, store, sig).supply == req.supply)
            && (NeedsKingdom(s0) && !IsCancelled(sig, req.polls) && NeedsKingdom(req.supply) ==>
                  && RemainderJoinable(t, cfg)
                  && Shuffle(t, cfg, store, sig).supply == OptionalPass(t, cfg, store, sig, req).supply)
  {
  }

  /** An attempt that runs both passes and sees no signal after them reports
      what `Classify` makes of the supply the optional pass ends with. */
  lemma ShuffleClassifies(t: Table, cfg: Config, store: string -> seq<Card>, sig: Signal)
    requires ValidSlots(cfg) && RemainderJoinable(t, cfg)
    requires NeedsKingdom(InitialSupply(t, cfg))
    requires var req := RequiredPass(t, cfg, store, sig);
             && !IsCancelled(sig, req.polls) && NeedsKingdom(req.supply)
             && !IsCancelled(sig, OptionalPass(t, cfg, store, sig, req).polls)
    ensures var s := OptionalPass(t, cfg, store, sig, RequiredPass(t, cfg, store, sig)).supply;
            Shuffle(t, cfg, store, sig) == Attempt(Classify(s), s)
  {
  }

  /** A signal raised after the required pass's last poll leaves that pass
      as it is without a signal. */
  lemma RequiredPassLateSignal(t: Table, cfg: Config, store: string -> seq<Card>, n: nat)
    requires ValidSlots(cfg) && |RequiredRows(t, cfg, store)| < n
    ensures RequiredPass(t, cfg, store, RaisedAt(n)) == RequiredPass(t, cfg, store, Never)
    ensures RequiredPass(t, cfg, store, Never).polls <= |RequiredRows(t, cfg, store)|
  {
    if 0 < |cfg.requiredCards| {
      LoadCardsLateSignal(t, InitialSupply(t, cfg), RequiredRows(t, cfg, store), true, RaisedAt(n), 0);
    }
  }

  /** An attempt whose two checks after the passes see no signal ends as the
      attempt without a signal does, once both passes agree with it. */
  lemma ShuffleUnseenSignal(t: Table, cfg: Config, store: string -> seq<Card>, sig: Signal)
    requires ValidSlots(cfg) && (cfg.minKingdom == 0 || RemainderJoinable(t, cfg))
    requires RequiredPass(t, cfg, store, sig) == RequiredPass(t, cfg, store, Never)
    requires !IsCancelled(sig, RequiredPass(t, cfg, store, sig).polls)
    requires RemainderJoinable(t, cfg) ==>
               var req := RequiredPass(t, cfg, store, sig);
               && OptionalPass(t, cfg, store, sig, req) == OptionalPass(t, cfg, store, Never, req)
               && (NeedsKingdom(req.supply) ==> !IsCancelled(sig, OptionalPass(t, cfg, store, sig, req).polls))
    ensures Shuffle(t, cfg, store, sig) == Shuffle(t, cfg, store, Never)
  {
    var s0 := InitialSupply(t, cfg);
    var a, b := Shuffle(t, cfg, store, sig), Shuffle(t, cfg, store, Never);
    if !NeedsKingdom(s0) {
      assert a == Attempt(Success(s0), s0) == b;
    } else {
      var req := RequiredPass(t, cfg, store, sig);
      assert req == RequiredPass(t, cfg, store, Never) && !IsCancelled(Never, req.polls);
      if !NeedsKingdom(req.supply) {
        assert a == Attempt(Success(req.supply), req.supply) == b;
      } else {
        var opt := OptionalPass(t, cfg, store, sig, req);
        assert opt == OptionalPass(t, cfg, store, Never, req);
        assert a == Attempt(Classify(opt.supply), opt.supply) == b;
      }
    }
  }

  /** A signal raised after the attempt's last poll is never seen: the
      attempt is exactly the one without a signal, so a supply that fills
      still reaches `successfulResult`. */
  lemma ShuffleLateSignal(t: Table, cfg: Config, store: string -> seq<Card>, n: nat)
    requires ValidSlots(cfg) && (cfg.minKingdom == 0 || RemainderJoinable(t, cfg))
    requires |RequiredRows(t, cfg, store)|
             + (if RemainderJoinable(t, cfg) then |store(RemainderQuery(t, cfg))| else 0) + 1 < n
    ensures Shuffle(t, cfg, store, RaisedAt(n)) == Shuffle(t, cfg, store, Never)
  {
    var sig := RaisedAt(n);
    RequiredPassLateSignal(t, cfg, store, n);
    var req := RequiredPass(t, cfg, store, sig);
    assert !IsCancelled(sig, req.polls);
    if RemainderJoinable(t, cfg) {
      var rows := store(RemainderQuery(t, cfg));
      LoadCardsLateSignal(t, req.supply, rows, false, sig, req.polls + 1);
      assert OptionalPass(t, cfg, store, sig, req).polls <= req.polls + 1 + |rows|;
    }
    ShuffleUnseenSignal(t, cfg, store, sig);
  }

  /** Every attempt ends with a well-formed supply. */
  lemma ShuffleKeepsWf(t: Table, cfg: Config, store: string -> seq<Card>, sig: Signal)
    requires ValidSlots(cfg)
    requires cfg.minKingdom == 0 || IsCancelled(sig, 0) || RemainderJoinable(t, cfg)
    ensures Wf(t, Shuffle(t, cfg, store, sig).supply)
  {
    var s0 := InitialSupply(t, cfg);
    var req := RequiredPass(t, cfg, store, sig);
    var final := Shuffle(t, cfg, store, sig).supply;
    ShuffleSteps(t, cfg, store, sig);
    if 0 < |cfg.requiredCards| {
      LoadCardsKeepsWf(t, s0, RequiredRows(t, cfg, store), true, sig, 0);
    }
    assert Wf(t, req.supply);
    if !NeedsKingdom(s0) {
      assert final == s0;
    } else if !IsCancelled(sig, req.polls) && NeedsKingdom(req.supply) {
      var rows := store(RemainderQuery(t, cfg));
      LoadCardsKeepsWf(t, req.supply, rows, false, sig, req.polls + 1);
      assert final == LoadCards(t, req.supply, rows, false, sig, req.polls + 1).supply;
    } else {
      assert final == req.supply;
    }
  }

  /** A successful supply reports a bane exactly when the Young Witch is in
      its kingdom, and the bane it reports is one of its kingdom cards. */
  lemma ShuffleReportsPairedBane(t: Table, cfg: Config, store: string -> seq<Card>, sig: Signal)
    requires ValidSlots(cfg)
    requires cfg.minKingdom == 0 || IsCancelled(sig, 0) || RemainderJoinable(t, cfg)
    ensures var a := Shuffle(t, cfg, store, sig);
            a.outcome.Ok? ==>
              && (a.outcome.entry.bane != NoBane <==> t.youngWitch in a.supply.kingdom)
              && (a.outcome.entry.bane != NoBane ==> a.outcome.entry.bane in a.supply.kingdom)
  {
    ShuffleKeepsWf(t, cfg, store, sig);
  }

  /** When the required pass leaves room, a successful supply has exactly
      `minKingdom` kingdom cards, counting the extra slot of an active Young
      Witch: the optional pass stops as soon as the kingdom is full. */
  lemma ShuffleFillsExactly(t: Table, cfg: Config, store: string -> seq<Card>, sig: Signal)
    requires ValidSlots(cfg)
    requires cfg.minKingdom == 0 || IsCancelled(sig, 0) || RemainderJoinable(t, cfg)
    requires var s1 := RequiredPass(t, cfg, store, sig).supply; |s1.kingdom| <= s1.minKingdom
    ensures var a := Shuffle(t, cfg, store, sig);
            a.outcome.Ok? ==> |a.supply.kingdom| == a.supply.minKingdom
  {
    var s0 := InitialSupply(t, cfg);
    var req := RequiredPass(t, cfg, store, sig);
    var a := Shuffle(t, cfg, store, sig);
    ShuffleSteps(t, cfg, store, sig);
    if !NeedsKingdom(s0) {
      assert a.supply == s0;
    } else if !IsCancelled(sig, req.polls) && NeedsKingdom(req.supply) {
      var rows := store(RemainderQuery(t, cfg));
      LoadCardsOptionalBound(t, req.supply, rows, sig, req.polls + 1);
      assert a.supply == LoadCards(t, req.supply, rows, false, sig, req.polls + 1).supply;
    } else {
      assert a.supply == req.supply;
    }
  }

  /** Required cards are all taken, even past `minKingdom`: with a target of
      one kingdom card and two required plain kingdom cards, the shuffle
      succeeds with both. */
  lemma ShuffleRequiredOverfills()
    ensures var t := Table(100, 5, 6, "_id");
            var cfg := Config(1, 2, 1, 1, None, "1,2", "", "");
            var rows := [Card(1, 0, 0, "5", 1), Card(2, 0, 0, "5", 1)];
            var a := Shuffle(t, cfg, _ => rows, Never);
            a.outcome.Ok? && a.supply.kingdom == [1, 2] && a.supply.minKingdom == 1
  {
  }

  /** Special cards beyond the required ones stop at `maxSpecial`: the final
      count never passes the larger of `maxSpecial` and what the required
      pass took, so without required cards it never passes `maxSpecial`. */
  lemma ShuffleSpecialCap(t: Table, cfg: Config, store: string -> seq<Card>, sig: Signal)
    requires ValidSlots(cfg)
    requires cfg.minKingdom == 0 || IsCancelled(sig, 0) || RemainderJoinable(t, cfg)
    ensures var n := |RequiredPass(t, cfg, store, sig).supply.special|;
            |Shuffle(t, cfg, store, sig).supply.special| <= if n <= cfg.maxSpecial then cfg.maxSpecial else n
    ensures cfg.requiredCards == "" ==>
              |Shuffle(t, cfg, store, sig).supply.special| <= cfg.maxSpecial
  {
    var s0 := InitialSupply(t, cfg);
    var req := RequiredPass(t, cfg, store, sig);
    var n := |req.supply.special|;
    var final := Shuffle(t, cfg, store, sig).supply;
    ShuffleSteps(t, cfg, store, sig);
    if !NeedsKingdom(s0) {
      assert final == s0;
    } else if !IsCancelled(sig, req.polls) && NeedsKingdom(req.supply) {
      var rows := store(RemainderQuery(t, cfg));
      LoadCardsSpecialCap(t, req.supply, rows, sig, req.polls + 1);
      assert final == LoadCards(t, req.supply, rows, false, sig, req.polls + 1).supply;
    } else {
      assert final == req.supply;
    }
    assert |final.special| <= if n <= cfg.maxSpecial then cfg.maxSpecial else n;
    if cfg.requiredCards == "" {
      assert req.supply == s0;
    }
  }

  /** Plain kingdom rows (not the Young Witch) offered by both queries. */
  function PlainRows(t: Table, cfg: Config, store: string -> seq<Card>): (n: nat)
    requires RemainderJoinable(t, cfg)
    ensures n <= |RequiredRows(t, cfg, store)| + |store(RemainderQuery(t, cfg))|
  {
    CountPlain(t, RequiredRows(t, cfg, store)) + CountPlain(t, store(RemainderQuery(t, cfg)))
  }

  /** Without cancellation, queries that offer at least `minKingdom` plain
      kingdom cards between them always give a successful shuffle. */
  lemma ShuffleEnoughCards(t: Table, cfg: Config, store: string -> seq<Card>)
    requires ValidSlots(cfg) && RemainderJoinable(t, cfg)
    requires cfg.minKingdom <= PlainRows(t, cfg, store)
    ensures Shuffle(t, cfg, store, Never).outcome.Ok?
  {
    var s0 := InitialSupply(t, cfg);
    var req := RequiredPass(t, cfg, store, Never);
    var rows := store(RemainderQuery(t, cfg));
    ShuffleSteps(t, cfg, store, Never);
    if 0 < |cfg.requiredCards| {
      LoadCardsShortfall(t, s0, RequiredRows(t, cfg, store), true, 0);
    } else {
      assert req == Pass(s0, 0);
    }
    assert Shortfall(req.supply) == cfg.minKingdom - CountPlain(t, RequiredRows(t, cfg, store));
    if NeedsKingdom(s0) && NeedsKingdom(req.supply) {
      LoadCardsShortfall(t, req.supply, rows, false, req.polls + 1);
      var s := OptionalPass(t, cfg, store, Never, req).supply;
      assert s == LoadCards(t, req.supply, rows, false, Never, req.polls + 1).supply;
      assert !NeedsKingdom(s);
    }
  }

  /** The required pass over rows without a Young Witch takes one slot per
      plain kingdom row and leaves the bane inactive. */
  lemma RequiredPassWithoutWitch(t: Table, cfg: Config, store: string -> seq<Card>)
    requires ValidSlots(cfg) && !HasWitch(t, RequiredRows(t, cfg, store))
    ensures var s1 := RequiredPass(t, cfg, store, Never).supply;
            && s1.baneStatus == Inactive && s1.minKingdom == cfg.minKingdom
            && Shortfall(s1) == cfg.minKingdom - CountPlain(t, RequiredRows(t, cfg, store))
  {
    var s0 := InitialSupply(t, cfg);
    if 0 < |cfg.requiredCards| {
      LoadCardsShortfall(t, s0, RequiredRows(t, cfg, store), true, 0);
      LoadCardsWithoutWitch(t, s0, RequiredRows(t, cfg, store), true, Never, 0);
    }
  }

  /** Without cancellation or a Young Witch, queries that offer fewer plain
      kingdom cards than `minKingdom` between them fail with
      "<cards found>/<minKingdom>". */
  lemma ShuffleShortage(t: Table, cfg: Config, store: string -> seq<Card>)
    requires ValidSlots(cfg) && RemainderJoinable(t, cfg)
    requires !HasWitch(t, RequiredRows(t, cfg, store)) && !HasWitch(t, store(RemainderQuery(t, cfg)))
    requires PlainRows(t, cfg, store) < cfg.minKingdom
    ensures Shuffle(t, cfg, store, Never).outcome == More(ShortfallText(PlainRows(t, cfg, store), cfg.minKingdom))
  {
    var rows := store(RemainderQuery(t, cfg));
    var req := RequiredPass(t, cfg, store, Never);
    RequiredPassWithoutWitch(t, cfg, store);
    assert CountPlain(t, rows) < Shortfall(req.supply) && req.supply.minKingdom == cfg.minKingdom;
    OptionalShortage(t, req.supply, rows, req.polls + 1, PlainRows(t, cfg, store));
    assert OptionalPass(t, cfg, store, Never, req) == LoadCards(t, req.supply, rows, false, Never, req.polls + 1);
    ShuffleClassifies(t, cfg, store, Never);
  }

  /** An optional pass without a Young Witch, over fewer plain kingdom rows
      than the supply still lacks, ends short by exactly the rows it did not
      get. */
  lemma OptionalShortage(t: Table, s1: Supply, rows: seq<Card>, poll: nat, got: nat)
    requires s1.baneStatus == Inactive && !HasWitch(t, rows) && CountPlain(t, rows) < Shortfall(s1)
    requires got == s1.minKingdom - Shortfall(s1) + CountPlain(t, rows)
    ensures Classify(LoadCards(t, s1, rows, false, Never, poll).supply) == More(ShortfallText(got, s1.minKingdom))
  {
    var s := LoadCards(t, s1, rows, false, Never, poll).supply;
    LoadCardsFallsShort(t, s1, rows, poll);
    ClassifyShort(s, got, s1.minKingdom);
  }

  /** A supply still short of kingdom cards and not waiting for a bane is
      reported as what it holds over what it needs. */
  lemma ClassifyShort(s: Supply, got: nat, need: nat)
    requires NeedsKingdom(s) && !WaitingForBane(s)
    requires s.minKingdom == need && |s.kingdom| == got
    ensures Classify(s) == More(ShortfallText(got, need))
  {
  }

  /** A required pass that holds both the Young Witch and a bane candidate
      ends with the bane active, whatever order the two came in and whatever
      the optional pass does after it. */
  lemma ShuffleRequiredPairs(t: Table, cfg: Config, store: string -> seq<Card>)
    requires ValidSlots(cfg) && RemainderJoinable(t, cfg) && 0 < cfg.minKingdom
    requires HasWitch(t, RequiredRows(t, cfg, store)) && HasBaneCandidate(t, RequiredRows(t, cfg, store))
    ensures var s := Shuffle(t, cfg, store, Never).supply;
            && s.baneStatus == Active && t.youngWitch in s.kingdom
            && GetBane(s) != NoBane && GetBane(s) in s.kingdom
    ensures !Shuffle(t, cfg, store, Never).outcome.NoYoungWitch?
  {
    var s0 := InitialSupply(t, cfg);
    var rows := RequiredRows(t, cfg, store);
    assert 0 < |cfg.requiredCards|;
    LoadCardsRequiredPairs(t, s0, rows, 0);
    LoadCardsKeepsWf(t, s0, rows, true, Never, 0);
    var req := RequiredPass(t, cfg, store, Never);
    assert req.supply.baneStatus == Active && Wf(t, req.supply);
    var final := Shuffle(t, cfg, store, Never).supply;
    ShuffleSteps(t, cfg, store, Never);
    if NeedsKingdom(req.supply) {
      LoadCardsKeepsWf(t, req.supply, store(RemainderQuery(t, cfg)), false, Never, req.polls + 1);
      assert final == OptionalPass(t, cfg, store, Never, req).supply;
      assert Rank(final.baneStatus) >= 2;
    } else {
      assert final == req.supply;
    }
    assert final.baneStatus == Active && Wf(t, final);
  }

  /** The required pass over fresh rows leaves a well-formed supply whose
      `minKingdom` grew only if its bane became active, and the remainder rows
      still fresh for it. */
  lemma RequiredPassWidensOnce(t: Table, cfg: Config, store: string -> seq<Card>, sig: Signal, more: seq<Card>)
    requires ValidSlots(cfg)
    requires Fresh(t, InitialSupply(t, cfg), RequiredRows(t, cfg, store) + more)
    ensures var s1 := RequiredPass(t, cfg, store, sig).supply;
            && Wf(t, s1) && Distinct(s1.kingdom) && Fresh(t, s1, more)
            && s1.minKingdom == cfg.minKingdom + (if s1.baneStatus == Active then 1 else 0)
  {
    var s0 := InitialSupply(t, cfg);
    var rows := RequiredRows(t, cfg, store);
    if 0 < |cfg.requiredCards| {
      FreshPrefix(t, s0, rows, more);
      LoadCardsKeepsFresh(t, s0, rows, more, true, sig, 0);
      LoadCardsWidensOnce(t, s0, rows, true, sig, 0);
    } else {
      assert rows + more == more;
    }
  }

  /** Over fresh rows, an optional pass that runs keeps the kingdom ids
      distinct, and `minKingdom` ends one above its configured value exactly
      when the bane became active. */
  lemma OptionalPassWidensOnce(t: Table, cfg: Config, store: string -> seq<Card>, sig: Signal)
    requires ValidSlots(cfg) && RemainderJoinable(t, cfg)
    requires Fresh(t, InitialSupply(t, cfg), RequiredRows(t, cfg, store) + store(RemainderQuery(t, cfg)))
    requires NeedsKingdom(RequiredPass(t, cfg, store, sig).supply)
    ensures var s2 := OptionalPass(t, cfg, store, sig, RequiredPass(t, cfg, store, sig)).supply;
            && Wf(t, s2) && Distinct(s2.kingdom)
            && s2.minKingdom == cfg.minKingdom + (if s2.baneStatus == Active then 1 else 0)
  {
    var more := store(RemainderQuery(t, cfg));
    var req := RequiredPass(t, cfg, store, sig);
    RequiredPassWidensOnce(t, cfg, store, sig, more);
    LoadCardsWidensFrom(t, req.supply, more, false, sig, req.polls + 1, cfg.minKingdom);
  }

  /** Over fresh rows, `minKingdom` grows by one exactly when a bane is
      reported, and no card enters the kingdom twice. */
  lemma ShuffleWidensOnce(t: Table, cfg: Config, store: string -> seq<Card>, sig: Signal)
    requires ValidSlots(cfg)
    requires cfg.minKingdom == 0 || IsCancelled(sig, 0) || RemainderJoinable(t, cfg)
    requires Fresh(t, InitialSupply(t, cfg), RequiredRows(t, cfg, store)
                   + (if RemainderJoinable(t, cfg) then store(RemainderQuery(t, cfg)) else []))
    ensures var s := Shuffle(t, cfg, store, sig).supply;
            && Distinct(s.kingdom)
            && s.minKingdom == cfg.minKingdom + (if GetBane(s) != NoBane then 1 else 0)
  {
    var s0 := InitialSupply(t, cfg);
    var req := RequiredPass(t, cfg, store, sig);
    var final := Shuffle(t, cfg, store, sig).supply;
    var more := if RemainderJoinable(t, cfg) then store(RemainderQuery(t, cfg)) else [];
    ShuffleSteps(t, cfg, store, sig);
    if !NeedsKingdom(s0) {
      assert final == s0;
    } else {
      if !IsCancelled(sig, req.polls) && NeedsKingdom(req.supply) {
        OptionalPassWidensOnce(t, cfg, store, sig);
        assert final == OptionalPass(t, cfg, store, sig, req).supply;
      } else {
        RequiredPassWidensOnce(t, cfg, store, sig, more);
        assert final == req.supply;
      }
    }
  }
}
