/** SQL filter strings built by the shuffler before each card query.
    The strings are opaque here: only how they are assembled is modelled. */
module Filters {

  /** A Java String reference: `None` is `null`. */
  datatype Option<+T> = None | Some(value: T)

  const And: string := " AND "

  /** A filter that `joinFilters` keeps: neither null nor the empty string. */
  predicate Present(f: Option<string>) {
    f.Some? && f.value != ""
  }

  /** The kept filters, in their original order (reference definition). */
  function Kept(fs: seq<Option<string>>): seq<string> {
    if |fs| == 0 then []
    else (if Present(fs[0]) then [fs[0].value] else []) + Kept(fs[1..])
  }

  /** `xs` separated by `sep` (reference definition). */
  function Intercalate(xs: seq<string>, sep: string): string {
    if |xs| == 0 then ""
    else if |xs| == 1 then xs[0]
    else xs[0] + sep + Intercalate(xs[1..], sep)
  }

  /** Every element of `xs`, each preceded by `sep`. */
  function Prefixed(xs: seq<string>, sep: string): string {
    if |xs| == 0 then "" else sep + xs[0] + Prefixed(xs[1..], sep)
  }

  /** What `joinFilters` needs to stay inside the array: with two or more
      arguments, at least one of them must be kept. */
  predicate CanJoin(fs: seq<Option<string>>) {
    |fs| < 2 || Kept(fs) != []
  }

  /** Index of the first kept filter at or after `i` (the scan of the first loop). */
  function FirstPresent(fs: seq<Option<string>>, i: nat): (j: nat)
    requires i <= |fs|
    requires Kept(fs[i..]) != []
    ensures i <= j < |fs| && Present(fs[j])
    ensures forall k :: i <= k < j ==> !Present(fs[k])
    decreases |fs| - i
  {
    if Present(fs[i]) then i
    else
      assert fs[i..][1..] == fs[i + 1..];
      FirstPresent(fs, i + 1)
  }

  /** The second loop: append `" AND " + f` for every kept filter of `rest`. */
  function AppendRest(acc: string, rest: seq<Option<string>>): string
    decreases |rest|
  {
    if |rest| == 0 then acc
    else AppendRest(if Present(rest[0]) then acc + And + rest[0].value else acc, rest[1..])
  }

  /** `joinFilters(String... filters)`. No argument gives "", one argument is
      returned as it is (even null or ""), otherwise the kept filters are
      joined with " AND ". */
  function JoinFilters(fs: seq<Option<string>>): (r: Option<string>)
    requires CanJoin(fs)
    ensures |fs| == 0 ==> r == Some("")
    ensures |fs| == 1 ==> r == fs[0]
    ensures |fs| >= 2 ==> r == Some(Intercalate(Kept(fs), And))
  {
    if |fs| == 0 then Some("")
    else if |fs| == 1 then fs[0]
    else
      assert fs[0..] == fs;
      var i := FirstPresent(fs, 0);
      JoinedFrom(fs, i);
      Some(AppendRest(fs[i].value, fs[i + 1..]))
  }

  lemma {:induction false} KeptAppend(a: seq<Option<string>>, b: seq<Option<string>>)
    ensures Kept(a + b) == Kept(a) + Kept(b)
    decreases |a|
  {
    if |a| == 0 {
      assert a + b == b;
    } else {
      assert (a + b)[1..] == a[1..] + b;
      KeptAppend(a[1..], b);
    }
  }

  lemma {:induction false} KeptNone(a: seq<Option<string>>)
    requires forall k :: 0 <= k < |a| ==> !Present(a[k])
    ensures Kept(a) == []
    decreases |a|
  {
    if |a| > 0 {
      KeptNone(a[1..]);
    }
  }

  lemma {:induction false} AppendRestPrefixes(acc: string, rest: seq<Option<string>>)
    ensures AppendRest(acc, rest) == acc + Prefixed(Kept(rest), And)
    decreases |rest|
  {
    if |rest| > 0 {
      var acc' := if Present(rest[0]) then acc + And + rest[0].value else acc;
      AppendRestPrefixes(acc', rest[1..]);
      var ks := Kept(rest[1..]);
      if Present(rest[0]) {
        assert Kept(rest) == [rest[0].value] + ks;
        assert ([rest[0].value] + ks)[1..] == ks;
        assert Prefixed(Kept(rest), And) == And + rest[0].value + Prefixed(ks, And);
      } else {
        assert Kept(rest) == ks;
      }
    }
  }

  lemma {:induction false} IntercalateHeadPrefixed(x: string, xs: seq<string>, sep: string)
    ensures Intercalate([x] + xs, sep) == x + Prefixed(xs, sep)
    decreases |xs|
  {
    if |xs| > 0 {
      assert ([x] + xs)[1..] == xs;
      assert xs == [xs[0]] + xs[1..];
      IntercalateHeadPrefixed(xs[0], xs[1..], sep);
    }
  }

  lemma JoinedFrom(fs: seq<Option<string>>, i: nat)
    requires i < |fs| && Present(fs[i])
    requires forall k :: 0 <= k < i ==> !Present(fs[k])
    ensures AppendRest(fs[i].value, fs[i + 1..]) == Intercalate(Kept(fs), And)
  {
    var pre, rest := fs[..i], fs[i + 1..];
    var x := fs[i].value;
    assert Kept(fs) == [x] + Kept(rest) by {
      assert fs == pre + ([fs[i]] + rest);
      KeptAppend(pre, [fs[i]] + rest);
      KeptAppend([fs[i]], rest);
      KeptNone(pre);
      assert Kept([fs[i]]) == [x] by {
        assert [fs[i]][1..] == [];
      }
    }
    AppendRestPrefixes(x, rest);
    IntercalateHeadPrefixed(x, Kept(rest), And);
  }

  lemma KeptPair(a: Option<string>, b: Option<string>)
    ensures Kept([a, b]) == (if Present(a) then [a.value] else []) + (if Present(b) then [b.value] else [])
  {
    assert [a, b][1..] == [b];
    assert [b][1..] == [];
    assert Kept([b]) == (if Present(b) then [b.value] else []) + Kept([]);
  }

  /** The filter of the required pass: `_ID IN (<required ids>)`. */
  function RequiredFilter(idColumn: string, requiredCards: string): (r: string)
    ensures |r| > 0
  {
    idColumn + " IN (" + requiredCards + ")"
  }

  /** The comma-separated id list of the required and the excluded cards
      (the brace-less `if` that appends the excluded list). */
  function ExcludedIds(requiredCards: string, excludedCards: string): (r: string)
    ensures r == Intercalate(Kept([Some(requiredCards), Some(excludedCards)]), ",")
  {
    var filt := if 0 < |excludedCards| && 0 < |requiredCards| then requiredCards + "," else requiredCards;
    KeptPair(Some(requiredCards), Some(excludedCards));
    filt + excludedCards
  }

  /** `_ID NOT IN (<ids>)`, or "" when no card is required or excluded. */
  function ExclusionClause(idColumn: string, requiredCards: string, excludedCards: string): (r: string)
    ensures r == "" <==> requiredCards == "" && excludedCards == ""
  {
    var ids := ExcludedIds(requiredCards, excludedCards);
    if 0 < |ids| then idColumn + " NOT IN (" + ids + ")" else ""
  }

  /** The filter of the optional pass, before the pre-filter is joined in.
      An empty edition filter leaves a dangling " AND " after a non-empty
      exclusion clause. */
  function RemainderFilter(idColumn: string, requiredCards: string, excludedCards: string,
                           editionFilter: string): (r: string)
    ensures editionFilter != "" ==>
      Some(r) == JoinFilters([Some(ExclusionClause(idColumn, requiredCards, excludedCards)), Some(editionFilter)])
    ensures editionFilter == "" && (requiredCards != "" || excludedCards != "") ==>
      r == ExclusionClause(idColumn, requiredCards, excludedCards) + And
    ensures r == "" <==> requiredCards == "" && excludedCards == "" && editionFilter == ""
  {
    var filt := ExclusionClause(idColumn, requiredCards, excludedCards);
    KeptPair(Some(filt), Some(editionFilter));
    assert [filt, editionFilter][1..] == [editionFilter];
    assert Intercalate([filt, editionFilter], And) == filt + And + Intercalate([editionFilter], And);
    if 0 < |filt| then filt + And + editionFilter else editionFilter
  }

  /** Null and empty filters are skipped: `["", "A", null, "B"]` joins to "A AND B". */
  lemma JoinFiltersSkipsAbsent()
    ensures JoinFilters([Some(""), Some("A"), None, Some("B")]) == Some("A AND B")
  {
    var fs := [Some(""), Some("A"), None, Some("B")];
    assert fs[1..] == [Some("A"), None, Some("B")];
    assert fs[1..][1..] == [None, Some("B")];
    assert fs[1..][1..][1..] == [Some("B")];
    assert Kept(fs) == ["A", "B"];
    assert ["A", "B"][1..] == ["B"];
    assert Intercalate(["A", "B"], And) == "A" + And + "B";
    assert "A" + And + "B" == "A AND B";
  }
}
