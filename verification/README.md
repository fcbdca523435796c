# Supply shuffler of Dominion Picker, in Dafny

This project models the supply-building engine of Dominion Picker
(`SupplyShuffler.java`): the `ShuffleSupply` accumulator that admits kingdom
and special cards under the Young Witch / bane rule and decides the
"high cost" and "shelters" flags by admission position; the `loadCards`
pass that folds the accumulator over the rows of a card query; the
`doInBackground` driver that runs a required pass and an optional pass and
classifies the result as RES_OK, RES_NO_YW, RES_MORE (with its `"X/Y"`
text) or RES_CANCEL; and `joinFilters` with the other filter strings the
driver builds.

Modules, one per component:

- `Filters` (`filters.dfy`): `joinFilters`, the required filter
  `_ID IN (...)`, the exclusion list and the remainder filter of lines 74-88.
  Filter strings are opaque: only how they are assembled is modelled.
- `Decimal` (`decimal.dfy`): decimal rendering of an `int` and the
  `"X/Y"` shortfall text, with a parser that reads both numbers back.
- `ShuffleSupply` (`supply.dfy`): the accumulator state as an immutable
  `Supply` datatype; `AddSpecial` and `AddKingdom` are pure transitions.
- `Passes` (`passes.dfy`): `loadCards` as a fold over a `seq<Card>`, with
  the AsyncTask's cancellation flag as a sticky `Signal` polled once per row.
- `Shuffler` (`shuffler.dfy`): `doInBackground` as a function from the
  preferences, a card store (filter string to rows) and a signal to an
  `Attempt` (outcome and final supply).

Modelling choices:

- The `TableCard` constants `ID_YOUNG_WITCH`, `SET_PROSPERITY`,
  `SET_DARK_AGES` and `_ID` are not part of this model; they are the fields of
  a `Table` parameter, so every result holds for any values they have,
  provided the ids are non-negative (see "Left out").
- `minKingdom` and `maxSpecial` are natural numbers: the constructor's
  `new ArrayList<>(n)` throws for a negative preference value, so no supply
  exists for one.
- `Math.random()` draws the two slot positions; they are inputs instead, in
  the range the draw can produce (`SlotDrawable`).
- The database query is the `store` parameter. It returns the rows already
  in random order. A null cursor is an empty row sequence.
- The one-level recursive call `addKingdom(ID_YOUNG_WITCH, "4", 3, true)`
  follows `bane = id`. Ids are non-negative, so that bane is never the `-1L`
  sentinel and the call always takes the "Young Witch with a known bane"
  branch. `AdmitWitch` is
  that branch, and both callers use it. The literal set id 3 takes part in
  the flag tests like any other set id.
- Behaviours of the code, modelled as written:
  - `joinFilters` with two or more arguments that are all null or empty
    reads past the end of its array. The model has a precondition there.
    `Shuffle` needs it only when the optional pass is reached.
  - `minKingdom++` happens each time the Young Witch is admitted with a
    known bane. It happens once per shuffle when the rows are fresh
    (distinct ids, none already in the supply); `ShuffleWidensOnce` proves this.
  - A later bane candidate overwrites `bane`, even when the bane is
    already active.
  - With an empty edition filter and a non-empty exclusion clause, the
    remainder filter ends in a dangling `" AND "`.
  - Required cards are all taken, even past `minKingdom`, so a successful
    supply can hold more kingdom cards than the target
    (`ShuffleRequiredOverfills`).

## Model

| member | source | states |
|---|---|---|
| `Filters.JoinFilters` | app/src/main/java/ca/marklauman/dominionpicker/SupplyShuffler.java:113-137 | no argument gives ""; one argument is returned unchanged (null included); with two or more, when one is non-empty, the result is the non-null, non-empty filters in order joined with " AND " (against the reference `Intercalate(Kept(fs))`) |
| `Filters.JoinFiltersSkipsAbsent` | app/src/main/java/ca/marklauman/dominionpicker/SupplyShuffler.java:117-135 | `["", "A", null, "B"]` joins to "A AND B" |
| `Filters.RequiredFilter` | app/src/main/java/ca/marklauman/dominionpicker/SupplyShuffler.java:67 | the required-pass filter is never empty, so its join cannot fail |
| `Filters.ExcludedIds` | app/src/main/java/ca/marklauman/dominionpicker/SupplyShuffler.java:74-79 | the brace-less `if` yields the non-empty lists among required and excluded ids, comma-joined |
| `Filters.ExclusionClause` | app/src/main/java/ca/marklauman/dominionpicker/SupplyShuffler.java:81-82 | the `NOT IN` clause is empty exactly when no card is required or excluded |
| `Filters.RemainderFilter` | app/src/main/java/ca/marklauman/dominionpicker/SupplyShuffler.java:84-88 | with an edition filter, equals `joinFilters(clause, edition)`; without one, a non-empty clause keeps a trailing " AND "; empty exactly when all three inputs are |
| `Decimal.ParseNatToString` | app/src/main/java/ca/marklauman/dominionpicker/SupplyShuffler.java:106 | the decimal text of a count reads back as that count |
| `Decimal.ShortfallText` | app/src/main/java/ca/marklauman/dominionpicker/SupplyShuffler.java:106 | the `"X/Y"` text parses back to exactly (obtained, required) |
| `ShuffleSupply.NewSupply` | app/src/main/java/ca/marklauman/dominionpicker/SupplyShuffler.java:257-265 | a new supply keeps the given `minKingdom`, `maxSpecial` and slot positions, is empty, has inactive bane and false flags, and needs kingdom cards exactly when the target is positive |
| `ShuffleSupply.AddSpecial` | app/src/main/java/ca/marklauman/dominionpicker/SupplyShuffler.java:269-273 | appends iff required or below `maxSpecial`; optional admissions never pass `maxSpecial`; nothing else changes |
| `ShuffleSupply.GetCards` | app/src/main/java/ca/marklauman/dominionpicker/SupplyShuffler.java:318-330 | the kingdom ids in order, then the special ids in order |
| `ShuffleSupply.AdmitWitch` | app/src/main/java/ca/marklauman/dominionpicker/SupplyShuffler.java:293-297 | the Young Witch with a known bane activates it, adds one slot and takes it, so the shortfall is unchanged |
| `ShuffleSupply.AddKingdom` | app/src/main/java/ca/marklauman/dominionpicker/SupplyShuffler.java:283-314 | a full supply ignores optional cards; the kingdom grows only at its end, by nothing, the card, or the Young Witch then the card; `minKingdom` grows by one exactly when the Young Witch joins; specials and slot positions never change |
| `ShuffleSupply.AddKingdomShortfall` | app/src/main/java/ca/marklauman/dominionpicker/SupplyShuffler.java:284-307 | an admitted card other than the Young Witch closes one slot, the Young Witch none; an optional admission from `kingdom.size() <= minKingdom` keeps that bound, including the two-card retry |
| `ShuffleSupply.AddKingdomBane` | app/src/main/java/ca/marklauman/dominionpicker/SupplyShuffler.java:288-305 | the Young Witch without a bane waits and adds nothing; with one it activates; a bane candidate is recorded, even over an earlier one; after a waiting Young Witch it is appended right after it |
| `ShuffleSupply.AddKingdomKeepsWf` | app/src/main/java/ca/marklauman/dominionpicker/SupplyShuffler.java:252-254 | the bane status only moves forward, a set bane never returns to -1, and the bane/Young Witch pairing facts are kept |
| `ShuffleSupply.AddKingdomFlags` | app/src/main/java/ca/marklauman/dominionpicker/SupplyShuffler.java:309-313 | `high_cost` and `shelters` are set only when a card lands on `costCard` or `shelterCard`, from that card's set id (3 for the forced Young Witch) |
| `ShuffleSupply.ShortfallMeansNeed` | app/src/main/java/ca/marklauman/dominionpicker/SupplyShuffler.java:277-279 | `needsKingdom()` holds exactly when `getShortfall()` (lines 340-342) is positive; the shortfall is negative exactly when forced cards overfill the kingdom |
| `ShuffleSupply.WaitingHasNoBane` | app/src/main/java/ca/marklauman/dominionpicker/SupplyShuffler.java:346-348 | while `waitingForBane()` holds, no bane has been seen, `getBane()` reports -1 and the Young Witch is not in the kingdom |
| `ShuffleSupply.ReportedBaneIsPaired` | app/src/main/java/ca/marklauman/dominionpicker/SupplyShuffler.java:333-336 | `GetBane`: `getBane()` is -1 unless the status is ACTIVE; otherwise it and the Young Witch are both in the kingdom |
| `ShuffleSupply.PairingIsOrderIndependent` | app/src/main/java/ca/marklauman/dominionpicker/SupplyShuffler.java:288-307 | with room, Young Witch then bane and bane then Young Witch both give an ACTIVE bane, `minKingdom + 1` and both ids, in the arrival order |
| `Passes.LoadCards` | app/src/main/java/ca/marklauman/dominionpicker/SupplyShuffler.java:163-173 | a pass only extends the kingdom and special lists, keeps the slot positions, and leaves a full supply untouched in optional mode |
| `Passes.LoadCardsKeepsWf` | app/src/main/java/ca/marklauman/dominionpicker/SupplyShuffler.java:164-172 | over a whole pass the bane status never moves back and the pairing facts hold |
| `Passes.LoadCardsOptionalBound` | app/src/main/java/ca/marklauman/dominionpicker/SupplyShuffler.java:164 | an optional pass never takes the kingdom past `minKingdom` |
| `Passes.LoadCardsSettlesFlags` | app/src/main/java/ca/marklauman/dominionpicker/SupplyShuffler.java:310-313 | once the kingdom reaches a flag's position, the flag never changes again: each is decided at most once |
| `Passes.LoadCardsShortfall` | app/src/main/java/ca/marklauman/dominionpicker/SupplyShuffler.java:164-172 | each consumed plain kingdom row closes one slot; a required pass consumes all rows; an optional pass stops exactly at a full kingdom |
| `Passes.LoadCardsSpecialCap` | app/src/main/java/ca/marklauman/dominionpicker/SupplyShuffler.java:170-171 | an optional pass never takes the special cards past `maxSpecial`, or past their count at its start when that is already higher |
| `Passes.LoadCardsSeesSignal` | app/src/main/java/ca/marklauman/dominionpicker/SupplyShuffler.java:164-166 | a required pass reads every row unless cancelled, so a signal raised by its last poll is seen by the poll after it |
| `Passes.LoadCardsEarlyExit` | app/src/main/java/ca/marklauman/dominionpicker/SupplyShuffler.java:164 | once an optional pass has filled the kingdom, further rows change nothing |
| `Passes.LoadCardsCancelTruncates` | app/src/main/java/ca/marklauman/dominionpicker/SupplyShuffler.java:164-166 | a cancelled pass equals an uncancelled pass over a prefix of the rows; an unraised signal changes nothing |
| `Passes.LoadCardsLateSignal` | app/src/main/java/ca/marklauman/dominionpicker/SupplyShuffler.java:164-166 | a pass polls once per row it reads, so a signal raised after its last possible poll gives the same pass as no signal |
| `Passes.LoadCardsFallsShort` | app/src/main/java/ca/marklauman/dominionpicker/SupplyShuffler.java:164-172 | an optional pass without the Young Witch, over fewer plain rows than the supply lacks, takes all of them and still needs kingdom cards, short by exactly the rows it did not get |
| `Passes.LoadCardsWidensOnce` | app/src/main/java/ca/marklauman/dominionpicker/SupplyShuffler.java:293-297 | over fresh rows the kingdom keeps distinct ids and `minKingdom` grows by one only if the bane became active |
| `Passes.LoadCardsRequiredPairs` | app/src/main/java/ca/marklauman/dominionpicker/SupplyShuffler.java:300-305 | a required pass holding the Young Witch and a bane candidate, in either order, ends ACTIVE with both in the kingdom |
| `Passes.LoadCardsWithoutWitch` | app/src/main/java/ca/marklauman/dominionpicker/SupplyShuffler.java:288-292 | without the Young Witch among the rows, the bane stays inactive and `minKingdom` unchanged |
| `Shuffler.Shuffle` | app/src/main/java/ca/marklauman/dominionpicker/SupplyShuffler.java:52-109 | OK iff the kingdom is full, with the row `Success` builds as `successfulResult` does: kingdom ids then special ids, the reported bane and the supply's two flags; NO_YW iff waiting for a bane with shortfall 1; otherwise MORE with a text that parses to (size, minKingdom); zero target gives an empty OK; no cancel without a signal; a signal raised by the last poll of the required pass, or by the check after an optional pass that runs, gives CANCEL (the converse is `ShuffleLateSignal`) |
| `Shuffler.ShuffleLateSignal` | app/src/main/java/ca/marklauman/dominionpicker/SupplyShuffler.java:64-93 | a signal raised after the last poll an attempt makes (one per row of each pass, plus the checks at lines 68 and 92) is never seen: the attempt is exactly the one without a signal |
| `Shuffler.ShuffleUnseenSignal` | app/src/main/java/ca/marklauman/dominionpicker/SupplyShuffler.java:68-93 | when both passes agree with their unsignalled runs and neither check after them sees the signal, the attempt equals the unsignalled one |
| `Shuffler.RequiredMakesJoinable` | app/src/main/java/ca/marklauman/dominionpicker/SupplyShuffler.java:81-91 | with required cards the optional pass's `joinFilters` cannot fail |
| `Shuffler.ShuffleKeepsWf` | app/src/main/java/ca/marklauman/dominionpicker/SupplyShuffler.java:54-95 | whatever the outcome, the final supply keeps the bane/Young Witch pairing facts |
| `Shuffler.ShuffleReportsPairedBane` | app/src/main/java/ca/marklauman/dominionpicker/SupplyShuffler.java:201-210 | the row `Success` writes has a bane iff the Young Witch is in the kingdom, and that bane is a kingdom card |
| `Shuffler.ShuffleFillsExactly` | app/src/main/java/ca/marklauman/dominionpicker/SupplyShuffler.java:90-95 | when the required pass leaves room, success means exactly `minKingdom` kingdom cards, counting the Young Witch's extra slot |
| `Shuffler.ShuffleRequiredOverfills` | app/src/main/java/ca/marklauman/dominionpicker/SupplyShuffler.java:65-71 | with a target of 1 and two required plain kingdom cards, the shuffle succeeds with both in the kingdom |
| `Shuffler.ShuffleSpecialCap` | app/src/main/java/ca/marklauman/dominionpicker/SupplyShuffler.java:269-273 | the final special cards never pass the larger of `maxSpecial` and the required pass's count; without required cards, never `maxSpecial` |
| `Shuffler.ShuffleEnoughCards` | app/src/main/java/ca/marklauman/dominionpicker/SupplyShuffler.java:90-95 | with at least `minKingdom` plain kingdom rows across the required and remainder queries (`PlainRows`) and no cancellation, the shuffle succeeds, with or without required cards |
| `Shuffler.ShuffleShortage` | app/src/main/java/ca/marklauman/dominionpicker/SupplyShuffler.java:97-108 | with fewer plain rows than `minKingdom` across both queries and no Young Witch in either, the outcome is MORE with "<plain rows>/<minKingdom>", with or without required cards |
| `Shuffler.ShuffleRequiredPairs` | app/src/main/java/ca/marklauman/dominionpicker/SupplyShuffler.java:65-71 | required Young Witch and bane candidate end ACTIVE with both in the kingdom, and the outcome is never NO_YW |
| `Shuffler.ShuffleWidensOnce` | app/src/main/java/ca/marklauman/dominionpicker/SupplyShuffler.java:294-296 | over fresh rows the final `minKingdom` is the configured one plus one exactly when a bane is reported, and kingdom ids are distinct |

## Left out

- `Math.random()` slot sampling: floating point. The two positions are inputs, limited to the values the draw can produce.
- The card query: the `ContentResolver` call, SQL filter semantics, the `"random()"` ordering and cursor handling. The `store` parameter returns the rows, already shuffled.
- `successfulResult`, `cancelResult` and `sendMsg`: the history insert, the `Calendar` time stamp used as supply id, `Utils.join` of the ids, and the broadcast. The outcome is returned as a value, and the history row keeps the id sequence.
- AsyncTask threading: the cancellation flag is a sticky `Signal` over numbered polls.
- Java `int`/`long` overflow of `minKingdom` and the ids: not modelled. Counts are unbounded `nat`s; ids are unbounded non-negative `nat`s.
- Card ids and `ID_YOUNG_WITCH` are non-negative database row ids. A collision with the `-1L` "no bane" sentinel (lines 254, 289 and 335) is not modelled: a bane candidate with id -1 would leave `bane == -1L`, and the forced Young Witch call at line 304 would then wait instead of activating the bane.
- Negative `LIMIT_SUPPLY` or `LIMIT_EVENTS` values: the constructor throws `IllegalArgumentException` for them, because `new ArrayList<>(n)` rejects a negative capacity (lines 261-262). The model has no such supply: `minKingdom` and `maxSpecial` are `nat`, in `Config` and in `Supply`.
- `FragmentPicker.getFilter` and the preference store are not part of this model. Their values are `Config` fields.
- `ActivityChooseEdition.java`, `AdapterCards.java`, `CardAdapter.java`, `ActivityMarket.java` and `LoaderId.java`: user interface, view binding and constants, with no supply logic.
- Shuffler.ShuffleRequiredPairs: pairing is proved for a required pass only. In an optional pass the order matters at the last free slot: a bane candidate that fills it keeps a later Young Witch out.
- ShuffleSupply.PairingIsOrderIndependent: requires room for both cards, for the same reason.
- Shuffler.ShuffleWidensOnce: requires fresh rows (distinct ids, none already admitted). Duplicate Young Witch rows would widen the kingdom again.
- Shuffler.ShuffleFillsExactly: requires the required pass to leave room (`kingdom.size() <= minKingdom`); a required pass that overfills succeeds with more cards, as `ShuffleRequiredOverfills` shows.
