/**
 * The browser side (static/js/gw-guild-searcher.js) without the document:
 * the text of one ranking record, the rule that only a guild's head record
 * is shown as a link to the game's guild page, the lines built by
 * `renderGuildInfo` and `renderGwData`, and the checks the three buttons make
 * before sending a request. `toLocaleString` is the parameter `fmt`; the
 * result of `parseInt` is an `Option<int>` whose `None` is `NaN`.
 */
module Searcher {
  import opened Optional
  import opened Text
  import opened Records

  const GuildUrlPrefix := "http://game.granbluefantasy.jp/#guild/detail/"

  const RankedLead := " - Ranked #"
  const SeedLead := " in seed rankings in GW #"
  const RegularLead := " in GW #"
  const PointsLead := " with "
  const PointsTrail := " points"

  /** The `" with <points> points"` clause: present whenever points is neither `null` nor
      `undefined`, so zero points are shown too. */
  function PointsClause(points: Option<int>, fmt: int -> string): string {
    match points
    case Some(p) => PointsLead + fmt(p) + PointsTrail
    case None => ""
  }

  /** The text `renderGuildInfo` builds for one ranking record. */
  function RecordText(r: Record, fmt: int -> string): string {
    " - Ranked #" + IntToDecimal(r.rank)
      + (if r.isSeed then " in seed rankings " else " ")
      + "in GW #" + IntToDecimal(r.gwNum)
      + PointsClause(r.points, fmt)
  }

  /** What a reader of a record line can tell: the rank, the kind of ranking, the event,
      and the formatted points if they are shown. */
  datatype RecordSummary = RecordSummary(rank: int, isSeed: bool, gwNum: int, points: Option<string>)

  /** The longest prefix without a space. */
  function TakeToken(s: string): (t: string)
    ensures |t| <= |s| && t == s[..|t|]
  {
    if s == [] || s[0] == ' ' then [] else [s[0]] + TakeToken(s[1..])
  }

  /** Reads a record line's text back. */
  function ReadRecordText(t: string): Option<RecordSummary> {
    if IsPrefix(RankedLead, t) then ReadRank(t[|RankedLead|..]) else None
  }

  function ReadRank(s: string): Option<RecordSummary> {
    var rankText := TakeToken(s);
    match ParseDecimal(rankText)
    case Some(rank) => ReadKind(rank, s[|rankText|..])
    case None => None
  }

  function ReadKind(rank: int, s: string): Option<RecordSummary> {
    if IsPrefix(SeedLead, s) then ReadEvent(rank, true, s[|SeedLead|..])
    else if IsPrefix(RegularLead, s) then ReadEvent(rank, false, s[|RegularLead|..])
    else None
  }

  function ReadEvent(rank: int, isSeed: bool, s: string): Option<RecordSummary> {
    var gwText := TakeToken(s);
    match ParseDecimal(gwText)
    case Some(gw) => Some(RecordSummary(rank, isSeed, gw, ReadPoints(s[|gwText|..])))
    case None => None
  }

  function ReadPoints(tail: string): Option<string> {
    if |tail| >= |PointsLead| + |PointsTrail| && IsPrefix(PointsLead, tail)
    then Some(tail[|PointsLead|..|tail| - |PointsTrail|])
    else None
  }

  lemma {:induction false} TakeTokenStops(a: string, rest: string)
    requires forall i :: 0 <= i < |a| ==> a[i] != ' '
    requires rest == [] || rest[0] == ' '
    ensures TakeToken(a + rest) == a
    decreases |a|
  {
    if a == [] {
      assert a + rest == rest;
    } else {
      assert (a + rest)[1..] == a[1..] + rest;
      TakeTokenStops(a[1..], rest);
      assert a == [a[0]] + a[1..];
    }
  }

  lemma DecimalHasNoSpace(n: int)
    ensures forall i :: 0 <= i < |IntToDecimal(n)| ==> IntToDecimal(n)[i] != ' '
  {
    var s := IntToDecimal(n);
    forall i | 0 <= i < |s| ensures s[i] != ' ' {
      assert s[i] == '-' || IsDigit(s[i]);
    }
  }

  lemma ReadPointsClause(points: Option<int>, fmt: int -> string)
    ensures ReadPoints(PointsClause(points, fmt)) == match points case Some(p) => Some(fmt(p)) case None => None
  {
    match points
    case Some(p) =>
      var tail := PointsClause(points, fmt);
      assert tail[..|PointsLead|] == PointsLead;
      assert tail[|PointsLead|..|tail| - |PointsTrail|] == fmt(p);
    case None =>
  }

  lemma ReadDecimalToken(n: int, rest: string)
    requires rest == [] || rest[0] == ' '
    ensures TakeToken(IntToDecimal(n) + rest) == IntToDecimal(n)
    ensures (IntToDecimal(n) + rest)[|IntToDecimal(n)|..] == rest
    ensures ParseDecimal(IntToDecimal(n)) == Some(n)
  {
    DecimalHasNoSpace(n);
    TakeTokenStops(IntToDecimal(n), rest);
    DecimalRoundTrip(n);
  }

  lemma ReadEventBack(r: Record, fmt: int -> string)
    ensures ReadEvent(r.rank, r.isSeed, IntToDecimal(r.gwNum) + PointsClause(r.points, fmt))
         == Some(RecordSummary(r.rank, r.isSeed, r.gwNum, ReadPoints(PointsClause(r.points, fmt))))
  {
    ReadDecimalToken(r.gwNum, PointsClause(r.points, fmt));
  }

  lemma ReadKindBack(r: Record, fmt: int -> string)
    ensures var lead := if r.isSeed then SeedLead else RegularLead;
      ReadKind(r.rank, lead + (IntToDecimal(r.gwNum) + PointsClause(r.points, fmt)))
        == Some(RecordSummary(r.rank, r.isSeed, r.gwNum, ReadPoints(PointsClause(r.points, fmt))))
  {
    var lead := if r.isSeed then SeedLead else RegularLead;
    var after := IntToDecimal(r.gwNum) + PointsClause(r.points, fmt);
    var s := lead + after;
    assert s[..|lead|] == lead && s[|lead|..] == after;
    if !r.isSeed {
      assert s[4] == 'G' && SeedLead[4] == 's';
    }
    ReadEventBack(r, fmt);
  }

  lemma Regroup(a: string, b: string, c: string, d: string, e: string, f: string)
    ensures a + b + c + d + e + f == a + (b + ((c + d) + (e + f)))
  {
  }

  lemma RecordTextParts(r: Record, fmt: int -> string)
    ensures RecordText(r, fmt)
         == RankedLead + (IntToDecimal(r.rank) + ((if r.isSeed then SeedLead else RegularLead)
              + (IntToDecimal(r.gwNum) + PointsClause(r.points, fmt))))
  {
    var a, b := RankedLead, IntToDecimal(r.rank);
    var c := if r.isSeed then " in seed rankings " else " ";
    var d, e, f := "in GW #", IntToDecimal(r.gwNum), PointsClause(r.points, fmt);
    assert c + d == if r.isSeed then SeedLead else RegularLead;
    Regroup(a, b, c, d, e, f);
  }

  /** A record line's text determines the rank, the ranking kind, the event number and
      whether (and as what) the points are shown: nothing is lost or ambiguous. */
  lemma RecordTextReadsBack(r: Record, fmt: int -> string)
    ensures ReadRecordText(RecordText(r, fmt))
         == Some(RecordSummary(r.rank, r.isSeed, r.gwNum,
                               match r.points case Some(p) => Some(fmt(p)) case None => None))
  {
    var lead := if r.isSeed then SeedLead else RegularLead;
    var rest := lead + (IntToDecimal(r.gwNum) + PointsClause(r.points, fmt));
    var afterRanked := IntToDecimal(r.rank) + rest;
    var t := RecordText(r, fmt);
    RecordTextParts(r, fmt);
    assert t[..|RankedLead|] == RankedLead && t[|RankedLead|..] == afterRanked;
    ReadDecimalToken(r.rank, rest);
    ReadKindBack(r, fmt);
    ReadPointsClause(r.points, fmt);
  }

  /** The text of the link `createGuildLink` makes, and its target. */
  datatype Link = Link(text: string, href: string)

  /** A JavaScript number is falsy when it is `0`, `NaN`, `null` or `undefined`. */
  predicate Truthy(id: Option<int>) {
    id.Some? && id.value != 0
  }

  /** How an id is written into a URL; an absent one reads `undefined`. */
  function IdText(id: Option<int>): string {
    match id
    case Some(n) => IntToDecimal(n)
    case None => "undefined"
  }

  /** `createGuildLink(data, id)`: the guild's name linking to the guild's page, using
      `id` when it is truthy and the record's own id otherwise. */
  function GuildLink(name: string, id: Option<int>, ownId: Option<int>): Link {
    Link(name, GuildUrlPrefix + IdText(if Truthy(id) then id else ownId))
  }

  /** The guild id a link leads to, read from its target. */
  function LinkedId(link: Link): Option<int> {
    if IsPrefix(GuildUrlPrefix, link.href) then ParseDecimal(link.href[|GuildUrlPrefix|..]) else None
  }

  lemma GuildLinkLeadsTo(name: string, id: Option<int>, ownId: Option<int>)
    ensures GuildLink(name, id, ownId).text == name
    ensures LinkedId(GuildLink(name, id, ownId)) == if Truthy(id) then id else ownId
  {
    var target := if Truthy(id) then id else ownId;
    var href := GuildLink(name, id, ownId).href;
    assert href[|GuildUrlPrefix|..] == IdText(target);
    match target
    case Some(n) => DecimalRoundTrip(n);
    case None => assert IdText(target)[0] == 'u';
  }

  /** One `li` of a guild's list: the head record is a link followed by the text, every
      other record plain text. */
  datatype Line = Heading(link: Link, text: string) | Plain(text: string)

  /** The text a reader sees on a line. */
  function Shown(line: Line): string {
    match line
    case Heading(link, text) => link.text + text
    case Plain(text) => text
  }

  /** The line for record `i` of a guild entry. Records sent by the server carry no id of
      their own, so the link falls back to `undefined` when the entry id is falsy. */
  function RecordLine(entry: GuildEntry, i: nat, fmt: int -> string): Line
    requires i < |entry.data|
  {
    var elem := entry.data[i];
    var text := RecordText(elem, fmt);
    if i == 0 then Heading(GuildLink(elem.name, Some(entry.id), None), text)
    else Plain(elem.name + text)
  }

  /** Only the head record is a heading; it links the guild's name to the page of the
      entry's guild; and every line, linked or not, reads as the record's guild name
      followed by its record text. */
  lemma RecordLineReads(entry: GuildEntry, i: nat, fmt: int -> string)
    requires i < |entry.data|
    ensures var line := RecordLine(entry, i, fmt);
      && (line.Heading? <==> i == 0)
      && Shown(line) == entry.data[i].name + RecordText(entry.data[i], fmt)
      && (line.Heading? ==> line.link.text == entry.data[i].name)
      && (line.Heading? ==> LinkedId(line.link) == if entry.id != 0 then Some(entry.id) else None)
  {
    if i == 0 {
      GuildLinkLeadsTo(entry.data[i].name, Some(entry.id), None);
    }
  }

  datatype GuildView = ErrorView(message: string) | GuildBlocks(blocks: seq<seq<Line>>)

  /** `lines` is the block of `entry`: one line per record, in order. */
  predicate BlockRenders(entry: GuildEntry, lines: seq<Line>, fmt: int -> string) {
    |lines| == |entry.data| && forall i :: 0 <= i < |lines| ==> lines[i] == RecordLine(entry, i, fmt)
  }

  /** The callback `renderGuildInfo` runs for each entry: one line per record. */
  method RenderEntry(entry: GuildEntry, fmt: int -> string) returns (lines: seq<Line>)
    ensures BlockRenders(entry, lines, fmt)
  {
    lines := [];
    for i := 0 to |entry.data|
      invariant |lines| == i
      invariant forall j :: 0 <= j < i ==> lines[j] == RecordLine(entry, j, fmt)
    {
      lines := lines + [RecordLine(entry, i, fmt)];
    }
  }

  /** `renderGuildInfo`: an empty result is the error "No results found."; otherwise one
      block per guild entry holding one line per record, in order. */
  method RenderGuildInfo(data: seq<GuildEntry>, fmt: int -> string) returns (view: GuildView)
    ensures |data| == 0 <==> view == ErrorView("No results found.")
    ensures |data| > 0 ==> view.GuildBlocks? && |view.blocks| == |data|
    ensures |data| > 0 ==> forall k :: 0 <= k < |data| ==> BlockRenders(data[k], view.blocks[k], fmt)
  {
    if |data| == 0 {
      return ErrorView("No results found.");
    }
    var blocks: seq<seq<Line>> := [];
    var k := 0;
    while k < |data|
      invariant 0 <= k <= |data|
      invariant |blocks| == k
      invariant forall m :: 0 <= m < k ==> BlockRenders(data[m], blocks[m], fmt)
    {
      var lines := RenderEntry(data[k], fmt);
      blocks := blocks + [lines];
      k := k + 1;
    }
    view := GuildBlocks(blocks);
  }

  /** One `li` of the full listing of an event. */
  datatype ListItem = ListItem(link: Link, pointsText: Option<string>, value: int)

  datatype RankList = RankList(heading: string, items: seq<ListItem>)

  function ListHeading(kind: string): string {
    if kind == "regular" then "Regular rankings:" else "Seed rankings:"
  }

  /** The item for one entry of the listing: the guild's link, the `" - <points> points"`
      text only when points is neither `null` nor `undefined`, and the entry's rank as the
      list value. */
  function FullItem(e: FullEntry, fmt: int -> string): ListItem {
    ListItem(GuildLink(e.name, None, Some(e.id)),
             match e.points case Some(p) => Some(" - " + fmt(p) + " points") case None => None,
             e.rank)
  }

  /** An item's value is the entry's rank, its points text is present exactly when the
      entry has points, and its link shows the guild's name and leads to the entry's id. */
  lemma FullItemReads(e: FullEntry, fmt: int -> string)
    ensures var item := FullItem(e, fmt);
      && item.value == e.rank
      && (item.pointsText.Some? <==> e.points.Some?)
      && (item.pointsText.Some? ==> item.pointsText.value == " - " + fmt(e.points.value) + " points")
      && item.link.text == e.name
      && LinkedId(item.link) == Some(e.id)
  {
    var href := GuildUrlPrefix + IntToDecimal(e.id);
    assert href[|GuildUrlPrefix|..] == IntToDecimal(e.id);
    DecimalRoundTrip(e.id);
  }

  /** `list` is the rendering of the entries listed under key `kind`. */
  predicate ListRenders(list: RankList, kind: string, entries: seq<FullEntry>, fmt: int -> string) {
    && list.heading == ListHeading(kind)
    && |list.items| == |entries|
    && forall i :: 0 <= i < |entries| ==> list.items[i] == FullItem(entries[i], fmt)
  }

  /** The body of `renderGwData`'s loop for one key: the heading and one item per entry. */
  method RenderList(kind: string, entries: seq<FullEntry>, fmt: int -> string) returns (list: RankList)
    ensures ListRenders(list, kind, entries, fmt)
  {
    var items: seq<ListItem> := [];
    for i := 0 to |entries|
      invariant |items| == i
      invariant forall j :: 0 <= j < i ==> items[j] == FullItem(entries[j], fmt)
    {
      items := items + [FullItem(entries[i], fmt)];
    }
    list := RankList(ListHeading(kind), items);
  }

  /** `renderGwData`: one list per key of the response's `data` object, in enumeration
      order, headed by the ranking kind, with one item per entry. */
  method RenderGwData(data: seq<(string, seq<FullEntry>)>, fmt: int -> string) returns (lists: seq<RankList>)
    ensures |lists| == |data|
    ensures forall k :: 0 <= k < |data| ==> ListRenders(lists[k], data[k].0, data[k].1, fmt)
  {
    lists := [];
    for k := 0 to |data|
      invariant |lists| == k
      invariant forall m :: 0 <= m < k ==> ListRenders(lists[m], data[m].0, data[m].1, fmt)
    {
      var list := RenderList(data[k].0, data[k].1, fmt);
      lists := lists + [list];
    }
  }

  /** What a button handler does: show an error, or send a request. */
  datatype Action = ShowError(message: string) | Send(verb: string, path: string, search: Option<string>)

  /** `guildNameButtonHandler`: an empty name is refused; any other name is searched for. */
  function NameButton(name: string): (a: Action)
    ensures a.ShowError? <==> |name| == 0
    ensures a.ShowError? ==> a.message == "Name cannot be empty."
    ensures a.Send? ==> a.verb == "POST" && a.path == "search" && a.search == Some(name)
  {
    if |name| == 0 then ShowError("Name cannot be empty.")
    else Send("POST", "search", Some(name))
  }

  /** `guildIdButtonHandler`: only an id that parsed to a positive number is requested, and
      the id the server reads back from the path is that number. */
  function IdButton(id: Option<int>): (a: Action)
    ensures a.ShowError? <==> id.None? || id.value <= 0
    ensures a.ShowError? ==> a.message == "Invalid ID."
    ensures a.Send? ==> a.verb == "GET" && IsPrefix("info/", a.path) && a.search.None?
    ensures a.Send? ==> ParseDecimal(a.path[5..]) == id
  {
    match id
    case None => ShowError("Invalid ID.")
    case Some(n) =>
      if n <= 0 then ShowError("Invalid ID.")
      else
        DecimalRoundTrip(n);
        assert ("info/" + IntToDecimal(n))[5..] == IntToDecimal(n);
        Send("GET", "info/" + IntToDecimal(n), None)
  }

  /** `gwNumButtonHandler`: the event number must have parsed and lie within the input's
      `min` and `max` attributes, both inclusive. A bound that is `NaN` (`None`) compares
      false, so it rejects nothing. */
  function GwNumButton(gwNum: Option<int>, minGw: Option<int>, maxGw: Option<int>): (a: Action)
    ensures a.Send? <==>
      gwNum.Some?
      && (minGw.None? || minGw.value <= gwNum.value)
      && (maxGw.None? || gwNum.value <= maxGw.value)
    ensures a.ShowError? ==> a.message == "Invalid Guild Wars event number."
    ensures a.Send? ==> a.verb == "GET" && IsPrefix("full/", a.path) && a.search.None?
    ensures a.Send? ==> ParseDecimal(a.path[5..]) == gwNum
  {
    match gwNum
    case None => ShowError("Invalid Guild Wars event number.")
    case Some(n) =>
      if (minGw.Some? && n < minGw.value) || (maxGw.Some? && n > maxGw.value) then
        ShowError("Invalid Guild Wars event number.")
      else
        DecimalRoundTrip(n);
        assert ("full/" + IntToDecimal(n))[5..] == IntToDecimal(n);
        Send("GET", "full/" + IntToDecimal(n), None)
  }
}
