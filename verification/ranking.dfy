/**
 * `sort_guilds` (main.py): orders the guilds found by a name search. Each
 * guild is represented by its head record `data[0]`. With names and the
 * search string lower-cased, a guild whose name equals the search comes
 * first, then guilds whose name contains it, then the rest; inside one of
 * these classes the head records are compared by event number, then seed
 * ranking before regular ranking, then rank. Python's `sorted` is stable, so
 * guilds the comparator cannot tell apart keep their input order.
 */
module Ranking {
  import opened Text
  import opened Records

  function SeedValue(b: bool): int {
    if b then 1 else 0
  }

  /** `cmp_rank_seed`: negative when record `a` goes first. */
  function CompareRankSeed(a: Record, b: Record): int {
    if a.gwNum != b.gwNum then a.gwNum - b.gwNum
    else if a.isSeed != b.isSeed then SeedValue(b.isSeed) - SeedValue(a.isSeed)
    else a.rank - b.rank
  }

  /** `cmp_func`, where `search` has already been lower-cased: negative when `a` goes first. */
  function Compare(a: GuildEntry, b: GuildEntry, search: string): int
    requires |a.data| > 0 && |b.data| > 0
  {
    var aName := Lower(a.data[0].name);
    var bName := Lower(b.data[0].name);
    if aName == search && bName != search then -1
    else if aName != search && bName == search then 1
    else if aName == search && bName == search then CompareRankSeed(a.data[0], b.data[0])
    else
      var inA := Contains(aName, search);
      var inB := Contains(bName, search);
      if inA && !inB then -1
      else if !inA && inB then 1
      else CompareRankSeed(a.data[0], b.data[0])
  }

  /** 0: the lower-cased name is the search string; 1: it contains it; 2: neither. */
  function MatchClass(name: string, search: string): nat {
    var n := Lower(name);
    if n == search then 0 else if Contains(n, search) then 1 else 2
  }

  /** The lexicographic key that `cmp_func` compares. */
  datatype SortKey = SortKey(matchClass: nat, gwNum: int, seedOrder: nat, rank: int)

  function Key(g: GuildEntry, search: string): SortKey
    requires |g.data| > 0
  {
    var head := g.data[0];
    SortKey(MatchClass(head.name, search), head.gwNum, if head.isSeed then 0 else 1, head.rank)
  }

  predicate KeyLe(x: SortKey, y: SortKey) {
    || x.matchClass < y.matchClass
    || (x.matchClass == y.matchClass && x.gwNum < y.gwNum)
    || (x.matchClass == y.matchClass && x.gwNum == y.gwNum && x.seedOrder < y.seedOrder)
    || (x.matchClass == y.matchClass && x.gwNum == y.gwNum && x.seedOrder == y.seedOrder && x.rank <= y.rank)
  }

  /** The comparator is exactly the lexicographic order of the keys: it is non-positive
      when the keys are ordered and zero when they are equal. */
  lemma CompareIsKeyOrder(a: GuildEntry, b: GuildEntry, search: string)
    requires |a.data| > 0 && |b.data| > 0
    ensures Compare(a, b, search) <= 0 <==> KeyLe(Key(a, search), Key(b, search))
    ensures Compare(a, b, search) == 0 <==> Key(a, search) == Key(b, search)
  {
    ContainsItself(Lower(a.data[0].name));
    ContainsItself(Lower(b.data[0].name));
  }

  /** Swapping the arguments flips the sign of the comparator. */
  lemma CompareAntisymmetric(a: GuildEntry, b: GuildEntry, search: string)
    requires |a.data| > 0 && |b.data| > 0
    ensures Compare(a, b, search) < 0 <==> Compare(b, a, search) > 0
    ensures Compare(a, b, search) == 0 <==> Compare(b, a, search) == 0
  {
    CompareIsKeyOrder(a, b, search);
    CompareIsKeyOrder(b, a, search);
  }

  /** The comparator is transitive. */
  lemma CompareTransitive(a: GuildEntry, b: GuildEntry, c: GuildEntry, search: string)
    requires |a.data| > 0 && |b.data| > 0 && |c.data| > 0
    requires Compare(a, b, search) <= 0 && Compare(b, c, search) <= 0
    ensures Compare(a, c, search) <= 0
  {
    CompareIsKeyOrder(a, b, search);
    CompareIsKeyOrder(b, c, search);
    CompareIsKeyOrder(a, c, search);
  }

  predicate Sorted(gs: seq<GuildEntry>, search: string)
    requires Headed(gs)
  {
    forall i, j :: 0 <= i < j < |gs| ==> Compare(gs[i], gs[j], search) <= 0
  }

  /** Inserts `x` before the first entry that does not go strictly before it. */
  function Insert(x: GuildEntry, sorted: seq<GuildEntry>, search: string): (r: seq<GuildEntry>)
    requires |x.data| > 0 && Headed(sorted)
    ensures Headed(r)
    ensures multiset(r) == multiset(sorted) + multiset{x}
  {
    if sorted == [] || Compare(x, sorted[0], search) <= 0 then [x] + sorted
    else
      assert sorted == [sorted[0]] + sorted[1..];
      [sorted[0]] + Insert(x, sorted[1..], search)
  }

  /** A stable insertion sort: later input entries are inserted first, so an earlier one
      lands in front of every entry it ties with. */
  function InsertionSort(gs: seq<GuildEntry>, search: string): (r: seq<GuildEntry>)
    requires Headed(gs)
    ensures Headed(r)
    ensures multiset(r) == multiset(gs)
  {
    if gs == [] then []
    else
      assert gs == [gs[0]] + gs[1..];
      Insert(gs[0], InsertionSort(gs[1..], search), search)
  }

  /** `sort_guilds(data, search)`: a permutation of `data` ordered by `cmp_func`. */
  function SortGuilds(data: seq<GuildEntry>, search: string): (r: seq<GuildEntry>)
    requires Headed(data)
    ensures Headed(r)
    ensures multiset(r) == multiset(data) && |r| == |data|
  {
    var r := InsertionSort(data, Lower(search));
    assert |r| == |multiset(r)| == |multiset(data)| == |data|;
    r
  }

  lemma {:induction false} InsertSorted(x: GuildEntry, sorted: seq<GuildEntry>, search: string)
    requires |x.data| > 0 && Headed(sorted) && Sorted(sorted, search)
    ensures Sorted(Insert(x, sorted, search), search)
    decreases |sorted|
  {
    if sorted == [] {
    } else if Compare(x, sorted[0], search) <= 0 {
      InsertInFront(x, sorted, search);
    } else {
      InsertSorted(x, sorted[1..], search);
      InsertBehind(x, sorted, search);
    }
  }

  lemma InsertInFront(x: GuildEntry, sorted: seq<GuildEntry>, search: string)
    requires |x.data| > 0 && Headed(sorted) && Sorted(sorted, search)
    requires sorted != [] && Compare(x, sorted[0], search) <= 0
    ensures Sorted([x] + sorted, search)
  {
    var r := [x] + sorted;
    forall j | 0 < j < |r| ensures Compare(x, r[j], search) <= 0 {
      CompareTransitive(x, sorted[0], r[j], search);
    }
  }

  lemma InsertBehind(x: GuildEntry, sorted: seq<GuildEntry>, search: string)
    requires |x.data| > 0 && Headed(sorted) && Sorted(sorted, search)
    requires sorted != [] && Compare(x, sorted[0], search) > 0
    requires Sorted(Insert(x, sorted[1..], search), search)
    ensures Sorted([sorted[0]] + Insert(x, sorted[1..], search), search)
  {
    CompareAntisymmetric(x, sorted[0], search);
    forall j | 0 <= j < |sorted[1..]| ensures Compare(sorted[0], sorted[1..][j], search) <= 0 {
      assert sorted[1..][j] == sorted[j + 1];
    }
    InsertKeepsBound(sorted[0], x, sorted[1..], search);
    ConsSorted(sorted[0], Insert(x, sorted[1..], search), search);
  }

  /** An entry ordered before `x` and before every entry of `s` is ordered before every
      entry of `Insert(x, s)`. */
  lemma {:induction false} InsertKeepsBound(y: GuildEntry, x: GuildEntry, s: seq<GuildEntry>, search: string)
    requires |x.data| > 0 && |y.data| > 0 && Headed(s)
    requires Compare(y, x, search) <= 0
    requires forall j :: 0 <= j < |s| ==> Compare(y, s[j], search) <= 0
    ensures forall j :: 0 <= j < |Insert(x, s, search)| ==> Compare(y, Insert(x, s, search)[j], search) <= 0
    decreases |s|
  {
    if s != [] && Compare(x, s[0], search) > 0 {
      forall j | 0 <= j < |s[1..]| ensures Compare(y, s[1..][j], search) <= 0 {
        assert s[1..][j] == s[j + 1];
      }
      InsertKeepsBound(y, x, s[1..], search);
    }
  }

  lemma ConsSorted(y: GuildEntry, s: seq<GuildEntry>, search: string)
    requires |y.data| > 0 && Headed(s) && Sorted(s, search)
    requires forall j :: 0 <= j < |s| ==> Compare(y, s[j], search) <= 0
    ensures Sorted([y] + s, search)
  {
    var r := [y] + s;
    forall i, j | 0 <= i < j < |r| ensures Compare(r[i], r[j], search) <= 0 {
      assert r[j] == s[j - 1];
      if i > 0 {
        assert r[i] == s[i - 1];
      }
    }
  }

  lemma {:induction false} InsertionSortSorted(gs: seq<GuildEntry>, search: string)
    requires Headed(gs)
    ensures Sorted(InsertionSort(gs, search), search)
    decreases |gs|
  {
    if gs != [] {
      InsertionSortSorted(gs[1..], search);
      InsertSorted(gs[0], InsertionSort(gs[1..], search), search);
    }
  }

  /** The sorted guilds are in `cmp_func` order: no later guild goes strictly before an
      earlier one. */
  lemma SortGuildsSorted(data: seq<GuildEntry>, search: string)
    requires Headed(data)
    ensures Sorted(SortGuilds(data, search), Lower(search))
  {
    InsertionSortSorted(data, Lower(search));
  }

  /** What the order means for any two positions `i < j` of the result: exact matches
      first, then substring matches, and inside a match class ascending head event
      number, then seed before regular, then ascending rank. */
  lemma SortGuildsOrder(data: seq<GuildEntry>, search: string, i: nat, j: nat)
    requires Headed(data) && i < j < |data|
    ensures var r := SortGuilds(data, search);
      var s := Lower(search);
      var a, b := r[i].data[0], r[j].data[0];
      && (Lower(b.name) == s ==> Lower(a.name) == s)
      && (Lower(a.name) != s && Contains(Lower(b.name), s) ==> Contains(Lower(a.name), s))
      && (MatchClass(a.name, s) == MatchClass(b.name, s) ==> a.gwNum <= b.gwNum)
      && (MatchClass(a.name, s) == MatchClass(b.name, s) && a.gwNum == b.gwNum && b.isSeed ==> a.isSeed)
      && (MatchClass(a.name, s) == MatchClass(b.name, s) && a.gwNum == b.gwNum && a.isSeed == b.isSeed
          ==> a.rank <= b.rank)
  {
    var r := SortGuilds(data, search);
    SortGuildsSorted(data, search);
    assert Compare(r[i], r[j], Lower(search)) <= 0;
    CompareIsKeyOrder(r[i], r[j], Lower(search));
    ContainsItself(Lower(search));
  }

  /** The entries of `gs` that tie with `g` under the comparator, in their order in `gs`. */
  function Ties(gs: seq<GuildEntry>, g: GuildEntry, search: string): seq<GuildEntry>
    requires Headed(gs) && |g.data| > 0
  {
    if gs == [] then []
    else (if Compare(gs[0], g, search) == 0 then [gs[0]] else []) + Ties(gs[1..], g, search)
  }

  lemma {:induction false} InsertStable(x: GuildEntry, sorted: seq<GuildEntry>, g: GuildEntry, search: string)
    requires |x.data| > 0 && Headed(sorted) && |g.data| > 0
    ensures Ties(Insert(x, sorted, search), g, search)
         == (if Compare(x, g, search) == 0 then [x] else []) + Ties(sorted, g, search)
    decreases |sorted|
  {
    var r := Insert(x, sorted, search);
    if sorted == [] || Compare(x, sorted[0], search) <= 0 {
      assert r[1..] == sorted;
    } else {
      var first := sorted[0];
      InsertStable(x, sorted[1..], g, search);
      assert r[1..] == Insert(x, sorted[1..], search);
      CompareIsKeyOrder(x, first, search);
      CompareIsKeyOrder(x, g, search);
      CompareIsKeyOrder(first, g, search);
    }
  }

  lemma {:induction false} InsertionSortStable(gs: seq<GuildEntry>, g: GuildEntry, search: string)
    requires Headed(gs) && |g.data| > 0
    ensures Ties(InsertionSort(gs, search), g, search) == Ties(gs, g, search)
    decreases |gs|
  {
    if gs != [] {
      InsertionSortStable(gs[1..], g, search);
      InsertStable(gs[0], InsertionSort(gs[1..], search), g, search);
    }
  }

  /** Stability: the guilds that compare equal to any given guild appear in the result in
      the same order as in the input. */
  lemma SortGuildsStable(data: seq<GuildEntry>, search: string, g: GuildEntry)
    requires Headed(data) && |g.data| > 0
    ensures Ties(SortGuilds(data, search), g, Lower(search)) == Ties(data, g, Lower(search))
  {
    InsertionSortStable(data, g, Lower(search));
  }

  lemma {:induction false} InsertionSortOfSorted(gs: seq<GuildEntry>, search: string)
    requires Headed(gs) && Sorted(gs, search)
    ensures InsertionSort(gs, search) == gs
    decreases |gs|
  {
    if gs != [] {
      InsertionSortOfSorted(gs[1..], search);
      assert gs == [gs[0]] + gs[1..];
    }
  }

  /** Sorting again changes nothing. */
  lemma SortGuildsIdempotent(data: seq<GuildEntry>, search: string)
    requires Headed(data)
    ensures SortGuilds(SortGuilds(data, search), search) == SortGuilds(data, search)
  {
    SortGuildsSorted(data, search);
    InsertionSortOfSorted(SortGuilds(data, search), Lower(search));
  }

  /** Matching ignores the case of the search string: `sort_guilds` lowers it before use,
      so a search given in lower case ranks the entries exactly as the original does. */
  lemma SortGuildsIgnoresSearchCase(data: seq<GuildEntry>, search: string)
    requires Headed(data)
    ensures SortGuilds(data, Lower(search)) == SortGuilds(data, search)
  {
    LowerIdempotent(search);
  }
}
