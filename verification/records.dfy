/**
 * The shapes the server reads from its `rankings` table and sends to the
 * browser. A `Row` is one result tuple `(gw_num, is_seed, name, rank,
 * points, id)`; a `Record` is the same row without its guild id, as it
 * appears in a guild's `data` list; a `GuildEntry` is `{id, data}`; a
 * `FullEntry` is one item of the full listing of a Guild Wars event.
 */
module Records {
  import opened Optional

  datatype Row = Row(gwNum: int, isSeed: bool, name: string, rank: int, points: Option<int>, id: int)

  datatype Record = Record(gwNum: int, isSeed: bool, name: string, rank: int, points: Option<int>)

  datatype GuildEntry = GuildEntry(id: int, data: seq<Record>)

  datatype FullEntry = FullEntry(name: string, rank: int, points: Option<int>, id: int)

  function RowId(r: Row): int {
    r.id
  }

  function RowIsSeed(r: Row): bool {
    r.isSeed
  }

  /** The dictionary built for each row of a guild's group: every column but the id. */
  function RowRecord(r: Row): Record {
    Record(r.gwNum, r.isSeed, r.name, r.rank, r.points)
  }

  /** The row a record came from, given the id of the guild it was grouped under. */
  function RecordRow(rec: Record, id: int): Row {
    Row(rec.gwNum, rec.isSeed, rec.name, rec.rank, rec.points, id)
  }

  /** The dictionary built for each row of the full listing of one event. */
  function RowFullEntry(r: Row): FullEntry {
    FullEntry(r.name, r.rank, r.points, r.id)
  }

  /** Every guild entry has a head record `data[0]`, the record that represents it. */
  predicate Headed(gs: seq<GuildEntry>) {
    forall i :: 0 <= i < |gs| ==> |gs[i].data| > 0
  }
}
