/**
 * The request handlers of main.py that reshape query results: `get_guilds`
 * (`POST /search`) folds the rows of the search query into one `{id, data}`
 * entry per run of equal guild ids and ranks the entries with `sort_guilds`;
 * `get_gw_data` (`GET /full/<num>`) splits the rows of one event into the
 * `seed` and `regular` lists. The database is a parameter: `fetch` stands
 * for running the search query with a `LIKE` pattern, and the rows of the
 * event listing are passed in directly.
 */
module Backend {
  import opened Optional
  import opened Records
  import opened Grouping
  import opened LikeEscape
  import opened Ranking

  /** The rows a guild entry stands for: its records with the entry's id restored. */
  function RowsOf(e: GuildEntry): (rs: seq<Row>)
    ensures |rs| == |e.data|
  {
    seq(|e.data|, j requires 0 <= j < |e.data| => RecordRow(e.data[j], e.id))
  }

  function EntryRows(es: seq<GuildEntry>): seq<Row> {
    if es == [] then [] else RowsOf(es[0]) + EntryRows(es[1..])
  }

  /** `es` is a grouping of `rows` by guild id: every entry has data, adjacent entries
      have different ids, and reading the entries' data back in order, each record
      under its entry's id, reproduces `rows` (so every row of an entry has its id). */
  predicate IsGuildGrouping(rows: seq<Row>, es: seq<GuildEntry>) {
    && Headed(es)
    && (forall k :: 0 < k < |es| ==> es[k - 1].id != es[k].id)
    && EntryRows(es) == rows
  }

  /** The entry built from one `(id, group)` pair of `groupby`. */
  function EntryOf(g: Group<int, Row>): GuildEntry {
    GuildEntry(g.key, seq(|g.items|, j requires 0 <= j < |g.items| => RowRecord(g.items[j])))
  }

  function AsGroups(es: seq<GuildEntry>): (gs: seq<Group<int, Row>>)
    ensures |gs| == |es|
  {
    seq(|es|, k requires 0 <= k < |es| => Group(es[k].id, RowsOf(es[k])))
  }

  lemma {:induction false} EntryRowsAppend(es: seq<GuildEntry>, e: GuildEntry)
    ensures EntryRows(es + [e]) == EntryRows(es) + RowsOf(e)
    decreases |es|
  {
    if es == [] {
      assert [e][1..] == [];
    } else {
      assert (es + [e])[1..] == es[1..] + [e];
      EntryRowsAppend(es[1..], e);
    }
  }

  lemma EntryOfRows(rows: seq<Row>, groups: seq<Group<int, Row>>, i: int)
    requires IsRunGrouping(rows, RowId, groups) && 0 <= i < |groups|
    ensures RowsOf(EntryOf(groups[i])) == groups[i].items && |EntryOf(groups[i]).data| > 0
  {
    var g := groups[i];
    forall j | 0 <= j < |g.items| ensures RowsOf(EntryOf(g))[j] == g.items[j] {
      assert RowId(g.items[j]) == g.key;
    }
  }

  /** The loop of `get_guilds` over `groupby(rows, lambda x: x[-1])`. */
  method GroupRows(rows: seq<Row>) returns (entries: seq<GuildEntry>)
    ensures IsGuildGrouping(rows, entries)
  {
    var groups := GroupBy(rows, RowId);
    entries := [];
    var i := 0;
    while i < |groups|
      invariant 0 <= i <= |groups|
      invariant |entries| == i
      invariant forall k :: 0 <= k < i ==> entries[k].id == groups[k].key
      invariant Headed(entries)
      invariant EntryRows(entries) == Flatten(groups[..i])
    {
      var g := groups[i];
      var entry := EntryOf(g);
      EntryOfRows(rows, groups, i);
      EntryRowsAppend(entries, entry);
      FlattenAppend(groups[..i], g);
      assert groups[..i + 1] == groups[..i] + [g];
      entries := entries + [entry];
      i := i + 1;
    }
    assert groups[..i] == groups;
  }

  lemma {:induction false} FlattenAsGroups(es: seq<GuildEntry>)
    ensures Flatten(AsGroups(es)) == EntryRows(es)
    decreases |es|
  {
    if es != [] {
      FlattenAsGroups(es[1..]);
      assert AsGroups(es)[1..] == AsGroups(es[1..]);
    }
  }

  /** A guild grouping is the run grouping of the rows by id. */
  lemma GuildGroupingIsGroupBy(rows: seq<Row>, es: seq<GuildEntry>)
    requires IsGuildGrouping(rows, es)
    ensures AsGroups(es) == GroupBy(rows, RowId)
  {
    var gs := AsGroups(es);
    FlattenAsGroups(es);
    assert IsRunGrouping(rows, RowId, gs);
    RunGroupingUnique(rows, RowId, gs);
  }

  /** The rows determine their grouping: there is exactly one, the one `groupby` builds. */
  lemma GuildGroupingUnique(rows: seq<Row>, es1: seq<GuildEntry>, es2: seq<GuildEntry>)
    requires IsGuildGrouping(rows, es1) && IsGuildGrouping(rows, es2)
    ensures es1 == es2
  {
    GuildGroupingIsGroupBy(rows, es1);
    GuildGroupingIsGroupBy(rows, es2);
    assert |es1| == |es2|;
    forall k | 0 <= k < |es1| ensures es1[k] == es2[k] {
      assert AsGroups(es1)[k] == AsGroups(es2)[k];
      var d1, d2 := es1[k].data, es2[k].data;
      assert |d1| == |RowsOf(es1[k])| == |RowsOf(es2[k])| == |d2|;
      forall j | 0 <= j < |d1| ensures d1[j] == d2[j] {
        assert RowRecord(RowsOf(es1[k])[j]) == d1[j];
        assert RowRecord(RowsOf(es2[k])[j]) == d2[j];
      }
    }
  }

  /** `order by id`: the search query returns the rows sorted by guild id. */
  predicate IdsAscending(rows: seq<Row>) {
    forall i, j :: 0 <= i < j < |rows| ==> rows[i].id <= rows[j].id
  }

  /** With rows sorted by id, every guild appears in exactly one entry, in ascending id order. */
  lemma {:induction false} SortedRowsGiveDistinctIds(rows: seq<Row>, es: seq<GuildEntry>)
    requires IsGuildGrouping(rows, es) && IdsAscending(rows)
    ensures forall k, l :: 0 <= k < l < |es| ==> es[k].id < es[l].id
    decreases |es|
  {
    if |es| > 1 {
      var rest := es[1..];
      var head := RowsOf(es[0]);
      var tailRows := EntryRows(rest);
      assert rows == head + tailRows;
      assert IdsAscending(tailRows) by {
        forall i, j | 0 <= i < j < |tailRows| ensures tailRows[i].id <= tailRows[j].id {
          assert rows[|head| + i] == tailRows[i] && rows[|head| + j] == tailRows[j];
        }
      }
      assert IsGuildGrouping(tailRows, rest) by {
        forall k | 0 < k < |rest| ensures rest[k - 1].id != rest[k].id {
          assert es[k].id != es[k + 1].id;
        }
      }
      SortedRowsGiveDistinctIds(tailRows, rest);
      assert tailRows == RowsOf(rest[0]) + EntryRows(rest[1..]);
      assert rows[|head| - 1] == head[|head| - 1];
      assert rows[|head|] == tailRows[0];
      assert es[0].id <= es[1].id;
      forall k, l | 0 <= k < l < |es| ensures es[k].id < es[l].id {
        if k > 0 {
          assert rest[k - 1].id < rest[l - 1].id;
        } else if l > 1 {
          assert rest[0].id < rest[l - 1].id;
        }
      }
    }
  }

  datatype SearchReply = Failed(message: string, status: int) | Found(result: seq<GuildEntry>)

  /** `get_guilds`: a request without a `search` key is refused with status 400; otherwise
      the rows matching `likify(search)` are grouped by guild and ranked by `sort_guilds`. */
  method GetGuilds(request: map<string, string>, fetch: string -> seq<Row>) returns (reply: SearchReply)
    ensures "search" !in request ==> reply == Failed("Missing search key", 400)
    ensures "search" in request ==> reply.Found?
    ensures "search" in request ==>
      exists es :: IsGuildGrouping(fetch(Likify(request["search"])), es)
        && reply.result == SortGuilds(es, request["search"])
  {
    if "search" !in request {
      return Failed("Missing search key", 400);
    }
    var search := request["search"];
    var entries := GroupRows(fetch(Likify(search)));
    reply := Found(SortGuilds(entries, search));
  }

  /** The key `get_gw_data` stores a group under. */
  function SeedLabel(isSeed: bool): string {
    if isSeed then "seed" else "regular"
  }

  function FullEntries(items: seq<Row>): (es: seq<FullEntry>)
    ensures |es| == |items|
  {
    seq(|items|, j requires 0 <= j < |items| => RowFullEntry(items[j]))
  }

  /** Group `k` is the last of `groups[..n]` whose seed flag is `b`. */
  predicate LastRunBefore(groups: seq<Group<bool, Row>>, b: bool, k: int, n: int)
    requires n <= |groups|
  {
    0 <= k < n && groups[k].key == b && forall m :: k < m < n ==> groups[m].key != b
  }

  /** After storing `groups[..n]`, the label of `b` is present exactly when some of those
      groups has flag `b`, and then holds the entries of the last of them. */
  ghost predicate StoredRuns(data: map<string, seq<FullEntry>>, groups: seq<Group<bool, Row>>, b: bool, n: int)
    requires n <= |groups|
  {
    && (SeedLabel(b) in data <==> exists k :: 0 <= k < n && groups[k].key == b)
    && (SeedLabel(b) in data ==>
          exists k :: LastRunBefore(groups, b, k, n) && data[SeedLabel(b)] == FullEntries(groups[k].items))
  }

  lemma StoreRun(data: map<string, seq<FullEntry>>, groups: seq<Group<bool, Row>>, b: bool, n: int)
    requires 0 <= n < |groups| && StoredRuns(data, groups, b, n)
    ensures StoredRuns(data[SeedLabel(groups[n].key) := FullEntries(groups[n].items)], groups, b, n + 1)
  {
    if b == groups[n].key {
      StoreRunSame(data, groups, n);
    } else {
      StoreRunOther(data, groups, b, n);
    }
  }

  lemma StoreRunSame(data: map<string, seq<FullEntry>>, groups: seq<Group<bool, Row>>, n: int)
    requires 0 <= n < |groups|
    ensures StoredRuns(data[SeedLabel(groups[n].key) := FullEntries(groups[n].items)], groups, groups[n].key, n + 1)
  {
    assert LastRunBefore(groups, groups[n].key, n, n + 1);
  }

  lemma StoreRunOther(data: map<string, seq<FullEntry>>, groups: seq<Group<bool, Row>>, b: bool, n: int)
    requires 0 <= n < |groups| && b != groups[n].key && StoredRuns(data, groups, b, n)
    ensures StoredRuns(data[SeedLabel(groups[n].key) := FullEntries(groups[n].items)], groups, b, n + 1)
  {
    var data' := data[SeedLabel(groups[n].key) := FullEntries(groups[n].items)];
    var lbl := SeedLabel(b);
    assert lbl != SeedLabel(groups[n].key);
    assert lbl in data' <==> lbl in data;
    OtherRunAbsent(groups, b, n);
    if lbl in data {
      var k :| LastRunBefore(groups, b, k, n) && data[lbl] == FullEntries(groups[k].items);
      LastRunExtends(groups, b, k, n);
      assert data'[lbl] == data[lbl];
    }
  }

  lemma OtherRunAbsent(groups: seq<Group<bool, Row>>, b: bool, n: int)
    requires 0 <= n < |groups| && b != groups[n].key
    ensures (exists k :: 0 <= k < n + 1 && groups[k].key == b) <==> (exists k :: 0 <= k < n && groups[k].key == b)
  {
    if exists k :: 0 <= k < n + 1 && groups[k].key == b {
      var k :| 0 <= k < n + 1 && groups[k].key == b;
      assert k < n;
    }
  }

  lemma LastRunExtends(groups: seq<Group<bool, Row>>, b: bool, k: int, n: int)
    requires 0 <= n < |groups| && b != groups[n].key && LastRunBefore(groups, b, k, n)
    ensures LastRunBefore(groups, b, k, n + 1)
  {
  }

  /** `order by is_seed`: regular rankings (flag 0) come before seed rankings. */
  predicate SeedsLast(rows: seq<Row>) {
    forall i, j :: 0 <= i < j < |rows| && rows[i].isSeed ==> rows[j].isSeed
  }

  /** The rows with seed flag `b`, in order. */
  function WithSeed(rows: seq<Row>, b: bool): (r: seq<Row>)
    ensures forall j :: 0 <= j < |r| ==> r[j].isSeed == b
  {
    if rows == [] then [] else (if rows[0].isSeed == b then [rows[0]] else []) + WithSeed(rows[1..], b)
  }

  lemma {:induction false} SeedsLastSplit(rows: seq<Row>)
    requires SeedsLast(rows)
    ensures rows == WithSeed(rows, false) + WithSeed(rows, true)
    decreases |rows|
  {
    if rows != [] {
      var rest := rows[1..];
      assert SeedsLast(rest) by {
        forall i, j | 0 <= i < j < |rest| && rest[i].isSeed ensures rest[j].isSeed {
          assert rows[i + 1] == rest[i] && rows[j + 1] == rest[j];
        }
      }
      SeedsLastSplit(rest);
      var regular := WithSeed(rest, false);
      if rows[0].isSeed && rest != [] {
        assert rows[1].isSeed;
      }
      assert rows == [rows[0]] + rest;
    }
  }

  /** The runs of rows ordered by seed flag: the regular rows, then the seed rows. */
  function SplitRuns(regular: seq<Row>, seed: seq<Row>): seq<Group<bool, Row>> {
    (if regular == [] then [] else [Group(false, regular)])
      + (if seed == [] then [] else [Group(true, seed)])
  }

  lemma SplitRunsGroup(rows: seq<Row>)
    requires SeedsLast(rows)
    ensures IsRunGrouping(rows, RowIsSeed, SplitRuns(WithSeed(rows, false), WithSeed(rows, true)))
  {
    SeedsLastSplit(rows);
    SplitRunsGroupParts(WithSeed(rows, false), WithSeed(rows, true));
  }

  lemma SplitRunsGroupParts(regular: seq<Row>, seed: seq<Row>)
    requires forall j :: 0 <= j < |regular| ==> !regular[j].isSeed
    requires forall j :: 0 <= j < |seed| ==> seed[j].isSeed
    ensures IsRunGrouping(regular + seed, RowIsSeed, SplitRuns(regular, seed))
  {
    var gs := SplitRuns(regular, seed);
    if regular != [] && seed != [] {
      assert gs == [Group(false, regular), Group(true, seed)];
      assert gs[1..] == [Group(true, seed)] && gs[1..][1..] == [];
      assert Flatten(gs[1..]) == seed;
    } else if regular != [] {
      assert gs == [Group(false, regular)] && gs[1..] == [];
      assert regular + seed == regular;
    } else if seed != [] {
      assert gs == [Group(true, seed)] && gs[1..] == [];
      assert regular + seed == seed;
    } else {
      assert gs == [] && regular + seed == [];
    }
  }

  /** With the rows ordered by seed flag, there is one run per flag, so the last run with
      flag `b` holds every row with that flag. */
  lemma OrderedSeedRuns(rows: seq<Row>, b: bool, k: int)
    requires SeedsLast(rows) && LastRunBefore(GroupBy(rows, RowIsSeed), b, k, |GroupBy(rows, RowIsSeed)|)
    ensures GroupBy(rows, RowIsSeed)[k].items == WithSeed(rows, b)
  {
    var gs := SplitRuns(WithSeed(rows, false), WithSeed(rows, true));
    SplitRunsGroup(rows);
    RunGroupingUnique(rows, RowIsSeed, gs);
    assert gs == GroupBy(rows, RowIsSeed);
  }

  datatype GwReply = GwReply(num: int, data: map<string, seq<FullEntry>>)

  /** `get_gw_data`: the dictionary holds `seed` when some row is a seed ranking and
      `regular` when some row is not; each key holds the entries of the last run of rows
      with that flag, since a later run overwrites an earlier one. */
  method GetGwData(num: int, rows: seq<Row>) returns (reply: GwReply)
    ensures reply.num == num
    ensures reply.data.Keys <= {"seed", "regular"}
    ensures forall b :: SeedLabel(b) in reply.data <==> exists i :: 0 <= i < |rows| && rows[i].isSeed == b
    ensures forall b :: SeedLabel(b) in reply.data ==>
      exists k :: LastRunBefore(GroupBy(rows, RowIsSeed), b, k, |GroupBy(rows, RowIsSeed)|)
        && reply.data[SeedLabel(b)] == FullEntries(GroupBy(rows, RowIsSeed)[k].items)
    ensures SeedsLast(rows) ==>
      forall b :: SeedLabel(b) in reply.data ==> reply.data[SeedLabel(b)] == FullEntries(WithSeed(rows, b))
  {
    var groups := GroupBy(rows, RowIsSeed);
    var result: map<string, seq<FullEntry>> := map[];
    var i := 0;
    while i < |groups|
      invariant 0 <= i <= |groups|
      invariant result.Keys <= {"seed", "regular"}
      invariant StoredRuns(result, groups, true, i) && StoredRuns(result, groups, false, i)
    {
      StoreRun(result, groups, true, i);
      StoreRun(result, groups, false, i);
      result := result[SeedLabel(groups[i].key) := FullEntries(groups[i].items)];
      i := i + 1;
    }
    reply := GwReply(num, result);
    StoredRunsFinal(rows, result, true);
    StoredRunsFinal(rows, result, false);
  }

  /** Once every run is stored, the label of `b` is present exactly when some row has flag
      `b`, and with ordered rows it holds every such row. */
  lemma StoredRunsFinal(rows: seq<Row>, data: map<string, seq<FullEntry>>, b: bool)
    requires StoredRuns(data, GroupBy(rows, RowIsSeed), b, |GroupBy(rows, RowIsSeed)|)
    ensures SeedLabel(b) in data <==> exists i :: 0 <= i < |rows| && rows[i].isSeed == b
    ensures SeedLabel(b) in data ==>
      exists k :: LastRunBefore(GroupBy(rows, RowIsSeed), b, k, |GroupBy(rows, RowIsSeed)|)
        && data[SeedLabel(b)] == FullEntries(GroupBy(rows, RowIsSeed)[k].items)
    ensures SeedsLast(rows) && SeedLabel(b) in data ==> data[SeedLabel(b)] == FullEntries(WithSeed(rows, b))
  {
    var groups := GroupBy(rows, RowIsSeed);
    KeyOccurs(rows, RowIsSeed, groups, b);
    if SeedsLast(rows) && SeedLabel(b) in data {
      var k :| LastRunBefore(groups, b, k, |groups|) && data[SeedLabel(b)] == FullEntries(groups[k].items);
      OrderedSeedRuns(rows, b, k);
    }
  }
}
