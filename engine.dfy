/** The filter-aggregate engine (app.py lines 33-56): option lists for the three
    sidebar controls, the filter with the "All" sentinel, and the group-sum by
    (state, sex) sorted by state. */
module Engine {
  import opened Seqs
  import opened Ordering
  import opened Lex
  import opened Loader

  /** The option that lifts the restriction on a dimension. */
  const All: string := "All"

  /** The three dimensions a user can filter on. */
  datatype Dimension = Month | Gender | State

  /** The string form (`astype(str)`) of a record's value on a dimension. */
  function Value(r: Record, d: Dimension): string
  {
    match d
    case Month => r.month
    case Gender => r.sex
    case State => r.state
  }

  /** Some row has value `v` on dimension `d`. */
  ghost predicate Occurs(rows: seq<Record>, d: Dimension, v: string)
  {
    exists r :: r in rows && Value(r, d) == v
  }

  /** The column of dimension `d`, row by row. */
  function Values(rows: seq<Record>, d: Dimension): (vs: seq<string>)
    ensures forall v :: v in vs <==> Occurs(rows, d, v)
  {
    var vs := seq(|rows|, k requires 0 <= k < |rows| => Value(rows[k], d));
    assert forall v :: v in vs <==> Occurs(rows, d, v) by {
      forall v | Occurs(rows, d, v)
        ensures v in vs
      {
        var r :| r in rows && Value(r, d) == v;
        var k :| 0 <= k < |rows| && rows[k] == r;
        assert vs[k] == v;
      }
    }
    vs
  }

  // ---------------------------------------------------------------- options

  /** `["All"] + sorted(df[col].astype(str).unique().tolist())` (lines 33-35). */
  function OptionList(rows: seq<Record>, d: Dimension): (opts: seq<string>)
    ensures |opts| >= 1 && opts[0] == All
    ensures Ascending(Less, opts[1..])
    ensures forall v :: v in opts[1..] <==> Occurs(rows, d, v)
  {
    LessIsStrictTotalOrder();
    var vs := SortedDistinct(Less, Values(rows, d));
    assert ([All] + vs)[1..] == vs;
    [All] + vs
  }

  /** The option list depends only on which values occur, not on how often or in
      which order: it is the one strictly ascending list of them. */
  lemma OptionListDeterminedByValues(rows: seq<Record>, rows': seq<Record>, d: Dimension)
    requires forall v :: Occurs(rows, d, v) <==> Occurs(rows', d, v)
    ensures OptionList(rows, d) == OptionList(rows', d)
  {
    var a, b := OptionList(rows, d), OptionList(rows', d);
    LessIsStrictTotalOrder();
    AscendingUnique(Less, a[1..], b[1..]);
    assert a == [a[0]] + a[1..] && b == [b[0]] + b[1..];
  }

  // ---------------------------------------------------------------- filtering

  /** The values chosen in the three sidebar controls. */
  datatype Selection = Selection(months: seq<string>, genders: seq<string>, states: seq<string>)
  {
    function Choice(d: Dimension): seq<string>
    {
      match d
      case Month => months
      case Gender => genders
      case State => states
    }

    function With(d: Dimension, choice: seq<string>): (s: Selection)
      ensures s.Choice(d) == choice
      ensures forall e :: e != d ==> s.Choice(e) == Choice(e)
    {
      match d
      case Month => this.(months := choice)
      case Gender => this.(genders := choice)
      case State => this.(states := choice)
    }
  }

  /** A choice lets a value through if it holds the sentinel or the value itself. */
  predicate Admits(choice: seq<string>, v: string)
  {
    All in choice || v in choice
  }

  /** The three dimensions are combined with a logical AND. */
  predicate Passes(r: Record, sel: Selection)
  {
    && Admits(sel.months, Value(r, Month))
    && Admits(sel.genders, Value(r, Gender))
    && Admits(sel.states, Value(r, State))
  }

  function PassesOn(sel: Selection): Record -> bool
  {
    r => Passes(r, sel)
  }

  /** The rows a selection keeps, as one predicate over each row. */
  function Selected(rows: seq<Record>, sel: Selection): (kept: seq<Record>)
    ensures IsSubseq(kept, rows)
    ensures forall r :: r in kept <==> r in rows && Passes(r, sel)
    ensures forall r :: multiset(kept)[r] == if Passes(r, sel) then multiset(rows)[r] else 0
  {
    Filter(rows, PassesOn(sel))
  }

  function IsIn(d: Dimension, choice: seq<string>): Record -> bool
  {
    r => Value(r, d) in choice
  }

  /** `df[df[col].astype(str).isin(choice)]`. */
  function Where(rows: seq<Record>, d: Dimension, choice: seq<string>): (kept: seq<Record>)
    ensures IsSubseq(kept, rows)
    ensures forall r :: r in kept <==> r in rows && Value(r, d) in choice
    ensures forall r :: multiset(kept)[r] == if Value(r, d) in choice then multiset(rows)[r] else 0
  {
    Filter(rows, IsIn(d, choice))
  }

  /** One conditional step of lines 43-50: skipped when the choice holds "All". */
  function Stage(rows: seq<Record>, d: Dimension, choice: seq<string>): seq<Record>
  {
    if All in choice then rows else Where(rows, d, choice)
  }

  function AdmitsOn(d: Dimension, choice: seq<string>): Record -> bool
  {
    r => Admits(choice, Value(r, d))
  }

  /** A conditional step is a filter by `Admits`. */
  lemma StageIsFilter(rows: seq<Record>, d: Dimension, choice: seq<string>)
    ensures Stage(rows, d, choice) == Filter(rows, AdmitsOn(d, choice))
  {
    if All in choice {
      FilterKeepsAll(rows, AdmitsOn(d, choice));
    } else {
      FilterCongruent(rows, IsIn(d, choice), AdmitsOn(d, choice));
    }
  }

  /** The three conditional steps, one after the other, keep exactly the rows that
      pass all three dimensions at once. */
  lemma StagesCompose(rows: seq<Record>, sel: Selection)
    ensures Stage(Stage(Stage(rows, Month, sel.months), Gender, sel.genders), State, sel.states)
         == Selected(rows, sel)
  {
    var pm, pg, ps := AdmitsOn(Month, sel.months), AdmitsOn(Gender, sel.genders), AdmitsOn(State, sel.states);
    var s1 := Stage(rows, Month, sel.months);
    StageIsFilter(rows, Month, sel.months);
    var s2 := Stage(s1, Gender, sel.genders);
    StageIsFilter(s1, Gender, sel.genders);
    FilterTwice(rows, pm, pg);
    assert s2 == Filter(rows, And(pm, pg));
    StageIsFilter(s2, State, sel.states);
    FilterTwice(rows, And(pm, pg), ps);
    FilterCongruent(rows, And(And(pm, pg), ps), PassesOn(sel));
  }

  /** Lines 41-50: the frame is narrowed by one dimension after the other; a
      dimension whose choice holds "All" is skipped. */
  method ApplyFilters(rows: seq<Record>, sel: Selection) returns (filtered: seq<Record>)
    ensures filtered == Selected(rows, sel)
  {
    filtered := rows;
    if All !in sel.months {
      filtered := Where(filtered, Month, sel.months);
    }
    ghost var s1 := filtered;
    if All !in sel.genders {
      filtered := Where(filtered, Gender, sel.genders);
    }
    ghost var s2 := filtered;
    if All !in sel.states {
      filtered := Where(filtered, State, sel.states);
    }
    assert s1 == Stage(rows, Month, sel.months);
    assert s2 == Stage(s1, Gender, sel.genders);
    assert filtered == Stage(s2, State, sel.states);
    StagesCompose(rows, sel);
  }

  /** A choice holding "All" leaves its dimension unrestricted, whatever else it holds. */
  lemma AllLiftsRestriction(rows: seq<Record>, sel: Selection, d: Dimension)
    requires All in sel.Choice(d)
    ensures Selected(rows, sel) == Selected(rows, sel.With(d, [All]))
  {
    var sel' := sel.With(d, [All]);
    FilterCongruent(rows, PassesOn(sel), PassesOn(sel'));
  }

  /** With "All" in every control the filter keeps every row. */
  lemma AllEverywhereKeepsEverything(rows: seq<Record>, sel: Selection)
    requires All in sel.months && All in sel.genders && All in sel.states
    ensures Selected(rows, sel) == rows
  {
    FilterKeepsAll(rows, PassesOn(sel));
  }

  /** A choice without "All" that names no value present (for one, the empty
      choice) lets nothing through. */
  lemma ExcludingChoiceSelectsNothing(rows: seq<Record>, sel: Selection, d: Dimension)
    requires All !in sel.Choice(d)
    requires forall r :: r in rows ==> Value(r, d) !in sel.Choice(d)
    ensures Selected(rows, sel) == []
  {
    FilterNone(rows, PassesOn(sel));
  }

  // ---------------------------------------------------------------- aggregation

  /** The grouping key: `(state_of_residence, sex_of_infant)`. */
  datatype Key = Key(state: string, sex: string)

  function KeyOf(r: Record): Key
  {
    Key(r.state, r.sex)
  }

  /** The order pandas' `groupby` sorts its keys in: by state, then by sex. */
  predicate KeyLess(a: Key, b: Key)
  {
    Less(a.state, b.state) || (a.state == b.state && Less(a.sex, b.sex))
  }

  lemma KeyLessIsStrictTotalOrder()
    ensures StrictTotalOrder(KeyLess)
  {
    LessIsStrictTotalOrder();
    forall a: Key, b: Key | a != b
      ensures KeyLess(a, b) || KeyLess(b, a)
    {
      if a.state == b.state {
        assert a.sex != b.sex;
      }
    }
  }

  /** One output row: a (state, sex) group with its summed births. */
  datatype AggRow = AggRow(state: string, sex: string, births: int)
  {
    function GroupKey(): Key
    {
      Key(state, sex)
    }
  }

  /** A record's contribution to a sum: pandas skips missing values. */
  function Births(r: Record): int
  {
    r.births.GetOr(0)
  }

  function Total(rows: seq<Record>): int
  {
    if rows == [] then 0 else Births(rows[0]) + Total(rows[1..])
  }

  /** The summed births of the rows in group `k`. */
  function GroupTotal(rows: seq<Record>, k: Key): int
  {
    if rows == [] then 0
    else (if KeyOf(rows[0]) == k then Births(rows[0]) else 0) + GroupTotal(rows[1..], k)
  }

  function AggTotal(out: seq<AggRow>): int
  {
    if out == [] then 0 else out[0].births + AggTotal(out[1..])
  }

  function RowKeys(rows: seq<Record>): (ks: seq<Key>)
    ensures |ks| == |rows|
    ensures forall k :: 0 <= k < |rows| ==> ks[k] == KeyOf(rows[k])
  {
    seq(|rows|, k requires 0 <= k < |rows| => KeyOf(rows[k]))
  }

  function AggKeys(out: seq<AggRow>): (ks: seq<Key>)
    ensures |ks| == |out|
    ensures forall k :: 0 <= k < |out| ==> ks[k] == out[k].GroupKey()
  {
    seq(|out|, k requires 0 <= k < |out| => out[k].GroupKey())
  }

  /** One summed row per key of `ks`, in the order of `ks`. */
  function Groups(rows: seq<Record>, ks: seq<Key>): (out: seq<AggRow>)
    ensures |out| == |ks|
    ensures forall i :: 0 <= i < |ks| ==>
      out[i].GroupKey() == ks[i] && out[i].births == GroupTotal(rows, ks[i])
  {
    if ks == [] then []
    else [AggRow(ks[0].state, ks[0].sex, GroupTotal(rows, ks[0]))] + Groups(rows, ks[1..])
  }

  /** `groupby(['state_of_residence', 'sex_of_infant'], as_index=False)['births'].sum()`
      (line 55): one row per key present, keys in ascending order. */
  function GroupSum(rows: seq<Record>): seq<AggRow>
  {
    KeyLessIsStrictTotalOrder();
    Groups(rows, SortedDistinct(KeyLess, RowKeys(rows)))
  }

  ghost predicate DistinctKeys(ks: seq<Key>)
  {
    forall i, j :: 0 <= i < j < |ks| ==> ks[i] != ks[j]
  }

  /** Adding one record to the front adds its births to exactly the group it
      belongs to, if that group is among `ks`. */
  lemma {:induction false} GroupsCons(r: Record, rows: seq<Record>, ks: seq<Key>)
    requires DistinctKeys(ks)
    ensures AggTotal(Groups([r] + rows, ks))
         == (if KeyOf(r) in ks then Births(r) else 0) + AggTotal(Groups(rows, ks))
  {
    if ks != [] {
      assert ([r] + rows)[1..] == rows;
      GroupsCons(r, rows, ks[1..]);
      assert ks == [ks[0]] + ks[1..];
    }
  }

  /** Summing the groups of a covering list of distinct keys gives the total. */
  lemma {:induction false} GroupsTotal(rows: seq<Record>, ks: seq<Key>)
    requires DistinctKeys(ks)
    requires forall r :: r in rows ==> KeyOf(r) in ks
    ensures AggTotal(Groups(rows, ks)) == Total(rows)
  {
    if rows == [] {
      GroupsEmpty(ks);
    } else {
      assert rows == [rows[0]] + rows[1..];
      GroupsCons(rows[0], rows[1..], ks);
      GroupsTotal(rows[1..], ks);
    }
  }

  lemma {:induction false} GroupsEmpty(ks: seq<Key>)
    ensures AggTotal(Groups([], ks)) == 0
  {
    if ks != [] {
      GroupsEmpty(ks[1..]);
    }
  }

  /** The group-sum emits each key present exactly once, in ascending key order,
      with that group's sum, and loses no births. */
  lemma GroupSumSpec(rows: seq<Record>)
    ensures var out := GroupSum(rows);
      && Ascending(KeyLess, AggKeys(out))
      && (forall k :: k in AggKeys(out) <==> k in RowKeys(rows))
      && (forall i :: 0 <= i < |out| ==> out[i].births == GroupTotal(rows, out[i].GroupKey()))
      && AggTotal(out) == Total(rows)
  {
    KeyLessIsStrictTotalOrder();
    var ks := SortedDistinct(KeyLess, RowKeys(rows));
    var out := GroupSum(rows);
    assert AggKeys(out) == ks;
    forall r | r in rows
      ensures KeyOf(r) in ks
    {
      var k :| 0 <= k < |rows| && rows[k] == r;
      assert RowKeys(rows)[k] == KeyOf(r);
    }
    GroupsTotal(rows, ks);
  }

  // ---------------------------------------------------------------- sorting

  ghost predicate SortedByState(out: seq<AggRow>)
  {
    forall i, j :: 0 <= i < j < |out| ==> !Less(out[j].state, out[i].state)
  }

  /** Places `a` after every row whose state is not above its own. */
  function InsertByState(a: AggRow, s: seq<AggRow>): (r: seq<AggRow>)
    requires SortedByState(s)
    ensures SortedByState(r)
    ensures multiset(r) == multiset(s) + multiset{a}
  {
    if s == [] then [a]
    else if Less(a.state, s[0].state) then
      BelowHead(a, s);
      [a] + s
    else
      var rest := InsertByState(a, s[1..]);
      NotBelowHead(a, s, rest);
      [s[0]] + rest
  }

  lemma BelowHead(a: AggRow, s: seq<AggRow>)
    requires SortedByState(s) && s != [] && Less(a.state, s[0].state)
    ensures SortedByState([a] + s)
  {
    forall j | 0 <= j < |s|
      ensures !Less(s[j].state, a.state)
    {
      if Less(s[j].state, a.state) {
        LessTransitive(s[j].state, a.state, s[0].state);
        if j == 0 {
          LessIrreflexive(s[0].state);
        }
      }
    }
  }

  lemma NotBelowHead(a: AggRow, s: seq<AggRow>, rest: seq<AggRow>)
    requires SortedByState(s) && s != [] && !Less(a.state, s[0].state)
    requires SortedByState(rest) && multiset(rest) == multiset(s[1..]) + multiset{a}
    ensures SortedByState([s[0]] + rest)
    ensures multiset([s[0]] + rest) == multiset(s) + multiset{a}
  {
    assert s == [s[0]] + s[1..];
    RestNotBelowHead(a, s, rest);
    var r := [s[0]] + rest;
    forall i, j | 0 <= i < j < |r|
      ensures !Less(r[j].state, r[i].state)
    {
      assert r[j] == rest[j - 1];
      if i == 0 {
        assert r[j] in rest;
      }
    }
  }

  /** No row of the tail after insertion has a state below the head's. */
  lemma RestNotBelowHead(a: AggRow, s: seq<AggRow>, rest: seq<AggRow>)
    requires SortedByState(s) && s != [] && !Less(a.state, s[0].state)
    requires multiset(rest) == multiset(s[1..]) + multiset{a}
    ensures forall y :: y in rest ==> !Less(y.state, s[0].state)
  {
    forall y | y in rest
      ensures !Less(y.state, s[0].state)
    {
      assert y in multiset(rest);
      if y != a {
        assert y in multiset(s[1..]);
        var k :| 0 <= k < |s[1..]| && s[1..][k] == y;
        assert s[k + 1] == y;
      }
    }
  }

  /** `sort_values(by='state_of_residence')` (line 56), done here by a stable
      insertion sort; only the order of states is promised. */
  function SortByState(s: seq<AggRow>): (r: seq<AggRow>)
    ensures SortedByState(r)
    ensures multiset(r) == multiset(s)
  {
    if s == [] then []
    else
      assert s == s[..|s| - 1] + [s[|s| - 1]];
      InsertByState(s[|s| - 1], SortByState(s[..|s| - 1]))
  }

  /** The chart's rows: group-sum, then sort by state. */
  function Aggregate(rows: seq<Record>): seq<AggRow>
  {
    SortByState(GroupSum(rows))
  }

  lemma {:induction false} AggTotalAppend(a: seq<AggRow>, b: seq<AggRow>)
    ensures AggTotal(a + b) == AggTotal(a) + AggTotal(b)
  {
    if a == [] {
      assert a + b == b;
    } else {
      assert (a + b)[0] == a[0];
      assert (a + b)[1..] == a[1..] + b;
      AggTotalAppend(a[1..], b);
    }
  }

  /** Matching the head of `a` with an equal row of its permutation `b` leaves
      permutations of each other. */
  lemma PermutationTail(a: seq<AggRow>, b: seq<AggRow>, i: nat)
    requires multiset(a) == multiset(b) && a != [] && i < |b| && b[i] == a[0]
    ensures multiset(a[1..]) == multiset(b[..i] + b[i + 1..])
  {
    RemoveAtMultiset(b, i);
    assert a == [a[0]] + a[1..];
    assert multiset(a[1..]) == multiset(a) - multiset{a[0]};
  }

  /** Taking out the row at position `i` takes it out of the multiset. */
  lemma RemoveAtMultiset(b: seq<AggRow>, i: nat)
    requires i < |b|
    ensures multiset(b[..i] + b[i + 1..]) == multiset(b) - multiset{b[i]}
  {
    assert b == b[..i] + [b[i]] + b[i + 1..];
  }

  /** Taking out the row at position `i` takes its births out of the total. */
  lemma RemoveAt(b: seq<AggRow>, i: nat)
    requires i < |b|
    ensures AggTotal(b) == b[i].births + AggTotal(b[..i] + b[i + 1..])
  {
    var pre, post := b[..i], b[i + 1..];
    var tail := [b[i]] + post;
    assert b == pre + tail;
    AggTotalAppend(pre, tail);
    AggTotalAppend(pre, post);
    assert tail[1..] == post;
  }

  /** Reordering the rows does not change their total. */
  lemma {:induction false} AggTotalPermutation(a: seq<AggRow>, b: seq<AggRow>)
    requires multiset(a) == multiset(b)
    ensures AggTotal(a) == AggTotal(b)
  {
    if a == [] {
      assert |b| == |multiset(b)| == 0;
    } else {
      assert a[0] in multiset(a);
      var i :| 0 <= i < |b| && b[i] == a[0];
      PermutationTail(a, b, i);
      RemoveAt(b, i);
      AggTotalPermutation(a[1..], b[..i] + b[i + 1..]);
      assert AggTotal(a) == a[0].births + AggTotal(a[1..]);
    }
  }

  /** An entry that occurs at two positions occurs twice in the multiset. */
  lemma RepeatedEntry<T>(s: seq<T>, i: nat, j: nat)
    requires i < j < |s| && s[i] == s[j]
    ensures multiset(s)[s[i]] >= 2
  {
    assert s == s[..j] + [s[j]] + s[j + 1..];
    assert s[i] in s[..j];
  }

  ghost predicate UniqueKeys(out: seq<AggRow>)
  {
    forall i, j :: 0 <= i < j < |out| ==> out[i].GroupKey() != out[j].GroupKey()
  }

  /** Rows with pairwise distinct keys are pairwise distinct, so each occurs once. */
  lemma {:induction false} UniqueKeysOnce(s: seq<AggRow>, x: AggRow)
    requires UniqueKeys(s)
    ensures multiset(s)[x] <= 1
  {
    if s != [] {
      assert s == [s[0]] + s[1..];
      UniqueKeysOnce(s[1..], x);
    }
  }

  /** Any reordering of rows with distinct keys still has distinct keys. */
  lemma PermutationKeepsUniqueKeys(out: seq<AggRow>, g: seq<AggRow>)
    requires multiset(out) == multiset(g) && UniqueKeys(g)
    ensures UniqueKeys(out)
  {
    forall i, j | 0 <= i < j < |out|
      ensures out[i].GroupKey() != out[j].GroupKey()
    {
      if out[i].GroupKey() == out[j].GroupKey() {
        assert out[i] in multiset(g) && out[j] in multiset(g);
        var p :| 0 <= p < |g| && g[p] == out[i];
        var q :| 0 <= q < |g| && g[q] == out[j];
        assert p == q;
        RepeatedEntry(out, i, j);
        UniqueKeysOnce(g, out[i]);
      }
    }
  }

  /** A reordering shows the same keys. */
  lemma PermutationKeepsKeys(out: seq<AggRow>, g: seq<AggRow>)
    requires multiset(out) == multiset(g)
    ensures forall k :: k in AggKeys(out) <==> k in AggKeys(g)
  {
    forall k
      ensures k in AggKeys(out) <==> k in AggKeys(g)
    {
      if k in AggKeys(out) {
        var i :| 0 <= i < |out| && AggKeys(out)[i] == k;
        assert out[i] in multiset(g);
        var p :| 0 <= p < |g| && g[p] == out[i];
        assert AggKeys(g)[p] == k;
      }
      if k in AggKeys(g) {
        var p :| 0 <= p < |g| && AggKeys(g)[p] == k;
        assert g[p] in multiset(out);
        var i :| 0 <= i < |out| && out[i] == g[p];
        assert AggKeys(out)[i] == k;
      }
    }
  }

  /** What the chart shows (lines 55-56), for ANY order of the group-sum's rows
      that puts states in non-decreasing order: each (state, sex) group present
      among the rows exactly once with its summed births, and the same total as
      the rows. */
  lemma ChartSpec(rows: seq<Record>, out: seq<AggRow>)
    requires multiset(out) == multiset(GroupSum(rows))
    ensures UniqueKeys(out)
    ensures forall k :: k in AggKeys(out) <==> k in RowKeys(rows)
    ensures forall i :: 0 <= i < |out| ==> out[i].births == GroupTotal(rows, out[i].GroupKey())
    ensures AggTotal(out) == Total(rows)
  {
    var g := GroupSum(rows);
    GroupSumSpec(rows);
    KeyLessIsStrictTotalOrder();
    assert UniqueKeys(g) by {
      forall i, j | 0 <= i < j < |g|
        ensures g[i].GroupKey() != g[j].GroupKey()
      {
        assert KeyLess(AggKeys(g)[i], AggKeys(g)[j]);
      }
    }
    PermutationKeepsUniqueKeys(out, g);
    PermutationKeepsKeys(out, g);
    forall i | 0 <= i < |out|
      ensures out[i].births == GroupTotal(rows, out[i].GroupKey())
    {
      assert out[i] in multiset(g);
    }
    AggTotalPermutation(out, g);
  }

  /** The chart this model computes is one such order. */
  lemma AggregateSpec(rows: seq<Record>)
    ensures var out := Aggregate(rows);
      && SortedByState(out)
      && UniqueKeys(out)
      && (forall k :: k in AggKeys(out) <==> k in RowKeys(rows))
      && (forall i :: 0 <= i < |out| ==> out[i].births == GroupTotal(rows, out[i].GroupKey()))
      && AggTotal(out) == Total(rows)
  {
    ChartSpec(rows, Aggregate(rows));
  }

  // ---------------------------------------------------------------- one interaction

  /** What one pass of the engine produces: the empty-result warning, or the
      chart's rows and the filtered table (re-indexed, so a plain sequence). */
  datatype Outcome =
    | EmptyResult
    | Report(chart: seq<AggRow>, table: seq<Record>)

  /** Lines 41-56: filter, then either warn about an empty result or aggregate. */
  method Run(rows: seq<Record>, sel: Selection) returns (out: Outcome)
    ensures out.EmptyResult? <==> Selected(rows, sel) == []
    ensures out.Report? ==> out.table == Selected(rows, sel) && out.chart == Aggregate(out.table)
  {
    var filtered := ApplyFilters(rows, sel);
    if filtered == [] {
      return EmptyResult;
    }
    var chart := Aggregate(filtered);
    return Report(chart, filtered);
  }
}
