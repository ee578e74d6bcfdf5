# gw-guild-searcher in Dafny

A model of the core of gw-guild-searcher, a small web application that searches the
Granblue Fantasy Guild Wars (GW) rankings by guild name, guild id or event number.

- The Flask back end (`main.py`) contributes four things:
  - it escapes the search string for a SQL `LIKE … ESCAPE '!'` pattern (`likify`);
  - it folds the ranking rows of one guild into an entry `{id, data}` with
    `itertools.groupby` (`get_guilds`);
  - it ranks the entries (`sort_guilds`);
  - it splits one event's rows into `seed` and `regular` rankings (`get_gw_data`).
- The browser script (`static/js/gw-guild-searcher.js`) contributes three:
  - the text of each ranking record;
  - the head-record link to the game's guild page;
  - the lists of the full event listing and the checks made before a request is sent.

Modules:

- `Optional`: `Option`.
- `Text`: ASCII lower-casing, substring search, decimal printing and parsing.
- `Records`: the row and entry shapes exchanged by the two halves.
- `LikeEscape`: `likify`, with a reference escaper and an un-escaper.
- `Ranking`: `cmp_rank_seed`, `cmp_func` and `sort_guilds`.
- `Grouping`: `itertools.groupby` as a pure function, with its uniqueness characterisation.
- `Backend`: the `get_guilds` and `get_gw_data` loops as methods, and the missing-key reply.
- `Searcher`: the browser side.

`sort_guilds` is modelled as follows:

- the comparator is proved to be the lexicographic order of the key (match class, event
  number, seed flag, rank);
- Python's stable `sorted` is a stable insertion sort;
- the result is proved to be a permutation, sorted, stable and idempotent.

The `get_guilds` loop is proved to yield the unique grouping of the rows into runs of
equal id. The `get_gw_data` loop is proved to leave, under each of `seed` and `regular`,
the last run of rows with that flag; with the rows in `order by is_seed` that run is every
row with the flag. A record's text is proved to read back as the rank, the seed flag, the
event number and, when points are present, the formatted points. It does not give back
the guild name, which is not part of the text, nor the points number itself, since the
formatting is left abstract.

## Model

| member | source | states |
|---|---|---|
| LikeEscape.LikifyShape | main.py:49-51 | `Likify(s)` (`likify`) is `%`, the escaped string, `%`; its length is `len(s) + 2` plus the number of `!`, `%` and `_` in `s` |
| LikeEscape.ChainedReplaceIsEscape | main.py:51 | the three chained `replace` calls equal a single pass that prefixes each `!`, `%`, `_` with `!`: the escapes added for `%` and `_` are not doubled, because `!` is replaced first |
| LikeEscape.EscapeLength | main.py:51 | the escaped middle is longer than the input by exactly the number of special characters |
| LikeEscape.UnescapeEscape | main.py:49-51 | un-escaping the middle of `likify(s)` succeeds and gives back exactly `s`: every special character from the input is preceded by an escaping `!` |
| LikeEscape.EscapeUnescape | main.py:49-51 | conversely, a well-formed escaped pattern is the escape of what it un-escapes to, so escaping is a bijection onto well-formed patterns |
| Text.ContainsIffOccurs | main.py:83-84 | Python's `search in name` holds exactly when `search` occurs at some index of `name` |
| Text.ContainsItself | main.py:83-84 | every string contains itself, so an exact match also counts as containing the search |
| Text.DecimalRoundTrip | static/js/gw-guild-searcher.js:121 | the decimal text of an integer parses back to that integer |
| Ranking.CompareIsKeyOrder | main.py:54-92 | `Compare(a, b)` (`cmp_func`, with `CompareRankSeed` as `cmp_rank_seed`) is `<= 0` exactly when the key (match class, `gw_num`, seed before regular, `rank`) of `a` is lexicographically at most that of `b`, and `0` exactly when the keys are equal |
| Ranking.CompareAntisymmetric | main.py:54-92 | `cmp_func(a, b)` is negative exactly when `cmp_func(b, a)` is positive, and zero in both directions together |
| Ranking.CompareTransitive | main.py:54-92 | `cmp_func(a, b) <= 0` and `cmp_func(b, c) <= 0` give `cmp_func(a, c) <= 0` |
| Ranking.Insert | main.py:95 | inserting one entry yields the old entries plus that entry, as a multiset |
| Ranking.InsertionSort | main.py:95 | the stable sort returns a permutation of its input |
| Ranking.SortGuilds | main.py:53-95 | `sort_guilds` returns a permutation of `data` (same length, same multiset of entries) |
| Ranking.InsertSorted | main.py:95 | inserting into a sorted list keeps it sorted under `cmp_func` |
| Ranking.InsertionSortSorted | main.py:95 | the insertion sort's result is sorted under `cmp_func` |
| Ranking.SortGuildsSorted | main.py:94-95 | the result of `sort_guilds` is sorted under `cmp_func` with the lower-cased search |
| Ranking.SortGuildsOrder | main.py:54-94 | for any two positions `i < j` of the result: if the later head name equals the lower-cased search, so does the earlier one; if the earlier one is not an exact match and the later one contains the search, so does the earlier one; within one match class, `gw_num` ascends, then seed rankings come before regular ones, then `rank` ascends |
| Ranking.InsertStable | main.py:95 | insertion keeps the relative order of the entries that tie with any given entry |
| Ranking.InsertionSortStable | main.py:95 | the insertion sort keeps, for each entry, the subsequence of entries tying with it |
| Ranking.SortGuildsStable | main.py:95 | `sort_guilds` is stable: the entries that `cmp_func` cannot tell apart keep their input order |
| Ranking.InsertionSortOfSorted | main.py:95 | sorting an already sorted list leaves it unchanged |
| Ranking.SortGuildsIgnoresSearchCase | main.py:94 | ranking for a search and for its lower-cased form gives the same result: the case of the search does not matter |
| Ranking.SortGuildsIdempotent | main.py:94-95 | ranking an already ranked result again changes nothing |
| Grouping.GroupBy | main.py:126 | `groupby` yields runs: their concatenation is the input, each run is non-empty, every element of a run has the run's key, and adjacent runs have different keys |
| Grouping.GroupByRun | main.py:126 | a maximal run of equal keys in front of the rest becomes the first group |
| Grouping.RunGroupingUnique | main.py:126 | any grouping with the run properties is exactly what `groupby` yields |
| Grouping.RestIsRunGrouping | main.py:126 | dropping the first run leaves a run grouping of the remaining elements, which start with a different key |
| Grouping.FlattenAppend | main.py:126-136 | appending a group appends its items to the concatenation |
| Grouping.KeyOccurs | main.py:176-177 | some element has key `v` exactly when some group has key `v` |
| Backend.GroupRows | main.py:124-136 | the entries built by the `get_guilds` loop each have non-empty `data`, all sharing the entry's id; adjacent entries have different ids; the entries' rows concatenate to the fetched rows |
| Backend.GuildGroupingIsGroupBy | main.py:126-136 | such a grouping of rows into entries is the `groupby` of the rows by id, read as entries |
| Backend.GuildGroupingUnique | main.py:126-136 | two groupings of the same rows into entries are equal |
| Backend.SortedRowsGiveDistinctIds | main.py:19 | with the rows in `order by id`, the entry ids strictly ascend, so each guild has exactly one entry |
| Backend.GetGuilds | main.py:110-138 | a request without `search` gets `'Missing search key'` with status 400; otherwise the reply is the grouping of the rows fetched for `likify(search)`, ranked by `sort_guilds` |
| Backend.StoreRun | main.py:176-184 | storing one more run keeps the invariant: the label of a flag is present exactly when a stored run has that flag, and holds the entries of the last such run |
| Backend.SeedsLastSplit | main.py:21 | rows in `order by is_seed` are the regular rows followed by the seed rows |
| Backend.SplitRunsGroup | main.py:21 | such rows form at most two runs, regular then seed |
| Backend.OrderedSeedRuns | main.py:176-184 | under `order by is_seed`, the last run with a given flag holds every row with that flag |
| Backend.StoredRunsFinal | main.py:175-184 | after the loop, each label is present exactly when some row has its flag, and holds the last run with that flag; under `order by is_seed` that run is every row with the flag |
| Backend.GetGwData | main.py:167-189 | `get_gw_data` returns `num` and a dictionary whose keys, given by `SeedLabel`, are among `seed` and `regular`; a key is present exactly when some row has its flag; each key holds the entries of the last run of rows with that flag, so later runs overwrite earlier ones; with the rows in `order by is_seed`, each key holds every row with its flag, in order |
| Searcher.ReadPointsClause | static/js/gw-guild-searcher.js:43 | the points clause `PointsClause` reads back as the formatted points when points is present (zero included) and as nothing when it is absent |
| Searcher.RecordTextReadsBack | static/js/gw-guild-searcher.js:40-43 | reading the record text `RecordText` back recovers the rank, the seed flag, the event number, and the formatted points exactly when points is present |
| Searcher.GuildLinkLeadsTo | static/js/gw-guild-searcher.js:17-22 | a guild link `GuildLink` (`createGuildLink`) shows the name, and its target reads back as the given id when that id is truthy (`id || data.id`), otherwise as the record's own id, where an absent one reads as `undefined` |
| Searcher.RecordLineReads | static/js/gw-guild-searcher.js:37-56 | of the lines `RecordLine` builds, only record 0 is a heading; every line reads as the record's guild name then its text; the head link shows the name and leads to the entry id when that id is non-zero |
| Searcher.RenderEntry | static/js/gw-guild-searcher.js:33-59 | the block of one entry has one line per record, in `data` order |
| Searcher.RenderGuildInfo | static/js/gw-guild-searcher.js:25-61 | an empty result gives exactly the error `"No results found."`; otherwise there is one block per entry, in order, each rendering that entry |
| Searcher.FullItemReads | static/js/gw-guild-searcher.js:76-87 | a full-listing item `FullItem`'s list value is the entry's rank; its `" - <points> points"` text is present exactly when points is present; its link shows the name and leads to the entry's id |
| Searcher.RenderList | static/js/gw-guild-searcher.js:68-91 | one listing has the heading `ListHeading` gives its key (`"Regular rankings:"` for `regular`, `"Seed rankings:"` otherwise) and one item per entry, in order |
| Searcher.RenderGwData | static/js/gw-guild-searcher.js:63-95 | one list per key of `data`, in order, each rendering that key's entries |
| Searcher.NameButton | static/js/gw-guild-searcher.js:97-105 | an empty name is refused with `"Name cannot be empty."`; any other name is sent as a POST to `search` |
| Searcher.IdButton | static/js/gw-guild-searcher.js:113-121 | the id is refused with `"Invalid ID."` exactly when it did not parse or is not positive; otherwise a GET goes to `info/<id>`, whose path reads back as the id |
| Searcher.GwNumButton | static/js/gw-guild-searcher.js:129-140 | the number is sent exactly when it parsed and is within `[min, max]`; a `NaN` bound rejects nothing; a refusal shows `"Invalid Guild Wars event number."`; a GET goes to `full/<num>`, whose path reads back as the number |

## Left out

- The HTTP layer: Flask routing, `response_helper`'s JSON and header wrapping, the index page and its `min`/`max` query (main.py:24-37, 97-108).
- The database: sqlite connections and queries.
  - The rows a query returns are the parameter `fetch` of `Backend.GetGuilds` and the argument `rows` of `Backend.GetGwData`.
  - `order by id` and `order by is_seed` appear only as preconditions of the lemmas that need them (`IdsAscending`, `SeedsLast`).
  - The `LIKE` match itself is not modelled.
- `find_by_id` (main.py:143-165): a query and a list comprehension with no logic of its own.
- `upload` and the CSV helpers (main.py:39-47, 194-227): file and database I/O.
- `ajaxP` (static/js/util.js) and static/js/upload.js: asynchronous transport and DOM wiring. The model stops at the request a button would send (`Searcher.Action`).
- The DOM: elements are modelled as values (`Line`, `Link`, `ListItem`, `RankList`); `showError` is the `ErrorView`/`ShowError` value.
- `toLocaleString` is the uninterpreted parameter `fmt`. A number printed by string concatenation is written as its decimal text.
- `parseInt` and unary `+` are not modelled: their results are parameters of type `Option<int>`, whose `None` stands for `NaN`. A `NaN` attribute then compares false and rejects nothing. A missing or empty attribute, which `+` turns into `0`, is passed as `Some(0)`.
- JavaScript numbers are unbounded integers here: no doubles, no fractional ranks or points.
- `Text.Lower`: lowers ASCII letters only, not Python's Unicode `lower()`.
- `is_seed` is a boolean, where the column holds `0`/`1`; `cmp_rank_seed`'s `b.is_seed - a.is_seed` is written out over the two values.
- The order of the keys of `get_gw_data`'s dictionary, as the browser enumerates it, is the order of the sequence `Searcher.RenderGwData` receives.
- A record sent by the server carries no `id` of its own, so a link built for a falsy entry id leads to `…/undefined`; `Searcher.RecordLineReads` states the link target only for a non-zero id.
- `Backend.GetGuilds`: `search` is a string. A JSON body whose `search` is not a string, or is not an object at all, is not modelled.
