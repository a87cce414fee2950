/** analytics/src/db/pg_snapshot_repo.rs: the Postgres side of a flush. */
module PgSnapshotRepo {
  import opened Counts
  import opened Snapshot

  datatype LinkRow = LinkRow(clicks: int, last: Option<int>)

  /** `global_daily_clicks` and `link_daily_clicks` (in `daily`), `analytics_global.total_clicks`, `links`. */
  datatype Tables = Tables(daily: map<Bucket, int>, total: int, links: map<Code, LinkRow>)

  // The foreign key of link_daily_clicks.
  predicate ForeignKey(t: Tables) {
    forall b <- t.daily :: b.Link? ==> b.code in t.links
  }

  // Running total minus the sum of the rows it stands for.
  ghost function GlobalDrift(t: Tables): int {
    t.total - Sum(t.daily, Globals(t.daily.Keys))
  }

  ghost function LinkDrift(t: Tables, code: Code): int
    requires code in t.links
  {
    t.links[code].clicks - Sum(t.daily, OfLink(t.daily.Keys, code))
  }

  /** Every running total equals the sum of its daily rows. */
  ghost predicate Consistent(t: Tables) {
    && ForeignKey(t)
    && GlobalDrift(t) == 0
    && forall code :: code in t.links ==> LinkDrift(t, code) == 0
  }

  // ---- The merge as a function of the tables and the snapshot -------------------------------------------

  function Committed(daily: map<Bucket, int>, incoming: map<Bucket, int>): map<Bucket, int> {
    map b | b in incoming :: Max(Get(daily, b), incoming[b])
  }

  function Deltas(daily: map<Bucket, int>, incoming: map<Bucket, int>): map<Bucket, int> {
    map b | b in incoming :: CalculateMergeDelta(Get(daily, b), incoming[b]).1
  }

  // The upsert into link_daily_clicks skips codes that are not in `links`.
  predicate Lands(links: map<Code, LinkRow>, b: Bucket) {
    b.Link? ==> b.code in links
  }

  // insert ... on conflict do update set clicks = greatest(excluded.clicks, clicks)
  function UpsertGreatest(daily: map<Bucket, int>, rows: map<Bucket, int>): map<Bucket, int> {
    map b | b in daily.Keys + rows.Keys ::
      if b !in rows then daily[b] else if b !in daily then rows[b] else Max(daily[b], rows[b])
  }

  function Landing(links: map<Code, LinkRow>, rows: map<Bucket, int>): map<Bucket, int> {
    map b | b in rows && Lands(links, b) :: rows[b]
  }

  function Greatest(a: Option<int>, ts: int): Option<int> {
    if a.None? then Some(ts) else Some(Max(a.value, ts))
  }

  ghost function LinkDelta(deltas: map<Bucket, int>, code: Code): int {
    Sum(deltas, OfLink(deltas.Keys, code))
  }

  // A link row is named by the batched update when it gained clicks or carries a click time.
  ghost predicate Touched(snap: RedisSnapshot, deltas: map<Bucket, int>, code: Code) {
    LinkCodes(snap.daily.Keys) != {} && (LinkDelta(deltas, code) > 0 || code in snap.last)
  }

  const UNIX_EPOCH := 0

  ghost function UpdatedRow(row: LinkRow, snap: RedisSnapshot, deltas: map<Bucket, int>, code: Code): LinkRow {
    if Touched(snap, deltas, code) then
      LinkRow(row.clicks + LinkDelta(deltas, code),
              Greatest(row.last, if code in snap.last then snap.last[code] else UNIX_EPOCH))
    else row
  }

  ghost function UpdatedLinks(links: map<Code, LinkRow>, snap: RedisSnapshot, deltas: map<Bucket, int>)
    : map<Code, LinkRow>
  {
    map code | code in links :: UpdatedRow(links[code], snap, deltas, code)
  }

  // The clicks each code gained on the given fields.
  ghost function Gains(deltas: map<Bucket, int>, fields: set<Bucket>): map<Code, int> {
    map code | code in LinkCodes(fields) :: Sum(deltas, OfLink(fields, code))
  }

  ghost function Merged(t: Tables, snap: RedisSnapshot): Tables {
    var deltas := Deltas(t.daily, snap.daily);
    Tables(UpsertGreatest(t.daily, Landing(t.links, Committed(t.daily, snap.daily))),
           t.total + Sum(deltas, Globals(deltas.Keys)),
           UpdatedLinks(t.links, snap, deltas))
  }

  ghost function Outcome(t: Tables, snap: RedisSnapshot): MergeOutcome {
    var deltas := Deltas(t.daily, snap.daily);
    MergeOutcome(Committed(t.daily, snap.daily),
                 Sum(deltas, Globals(deltas.Keys)),
                 Gains(deltas, snap.daily.Keys))
  }

  // ---- The code -----------------------------------------------------------------------------------------

  datatype DeltaRow = DeltaRow(code: Code, delta: int, ts: int)

  datatype Result<+T> = Ok(value: T) | Err

  ghost predicate NamesOnce(rows: seq<DeltaRow>) {
    forall i, j :: 0 <= i < j < |rows| ==> rows[i].code != rows[j].code
  }

  // update links ... from unnest(...) as incoming where links.short_code = incoming.code
  function UpdateLinks(links: map<Code, LinkRow>, rows: seq<DeltaRow>): map<Code, LinkRow> {
    if rows == [] then links
    else
      var row := rows[0];
      UpdateLinks(if row.code in links then
          links[row.code := LinkRow(links[row.code].clicks + row.delta, Greatest(links[row.code].last, row.ts))]
        else links, rows[1..])
  }

  // When the batch names each code once, every existing code it names is updated from its one row.
  lemma {:induction false} UpdateLinksRow(links: map<Code, LinkRow>, rows: seq<DeltaRow>, code: Code)
    requires NamesOnce(rows)
    ensures UpdateLinks(links, rows).Keys == links.Keys
    ensures code in links && (forall i :: 0 <= i < |rows| ==> rows[i].code != code)
      ==> UpdateLinks(links, rows)[code] == links[code]
    ensures code in links ==> forall i :: 0 <= i < |rows| && rows[i].code == code ==>
      UpdateLinks(links, rows)[code]
      == LinkRow(links[code].clicks + rows[i].delta, Greatest(links[code].last, rows[i].ts))
    decreases |rows|
  {
    if rows != [] {
      var row := rows[0];
      var next := if row.code in links then
          links[row.code := LinkRow(links[row.code].clicks + row.delta, Greatest(links[row.code].last, row.ts))]
        else links;
      assert forall i :: 0 <= i < |rows| - 1 ==> rows[1..][i] == rows[i + 1];
      UpdateLinksRow(next, rows[1..], code);
    }
  }

  ghost predicate Names(rows: seq<DeltaRow>, code: Code) {
    exists i :: 0 <= i < |rows| && rows[i].code == code
  }

  // What the batch owes to the deltas and click times it was built from.
  ghost predicate Carries(row: DeltaRow, linkDeltas: map<Code, int>, last: map<Code, int>) {
    && row.delta == Max(Get(linkDeltas, row.code), 0)
    && row.ts == if row.code in last then last[row.code] else UNIX_EPOCH
  }

  ghost predicate AllCarry(rows: seq<DeltaRow>, linkDeltas: map<Code, int>, last: map<Code, int>) {
    forall i :: 0 <= i < |rows| ==> Carries(rows[i], linkDeltas, last)
  }

  lemma PushRow(rows: seq<DeltaRow>, row: DeltaRow)
    requires NamesOnce(rows) && !Names(rows, row.code)
    ensures NamesOnce(rows + [row])
    ensures forall code :: Names(rows + [row], code) <==> Names(rows, code) || code == row.code
  {
    assert (rows + [row])[|rows|] == row;
    forall code | Names(rows, code)
      ensures Names(rows + [row], code)
    {
      var i :| 0 <= i < |rows| && rows[i].code == code;
      assert (rows + [row])[i].code == code;
    }
  }

  /** Builds the batch for `links`: codes with a delta first, then codes that only carry a click time. */
  method DeltaRows(linkDeltas: map<Code, int>, last: map<Code, int>) returns (rows: seq<DeltaRow>)
    ensures NamesOnce(rows) && AllCarry(rows, linkDeltas, last)
    ensures forall code :: Names(rows, code) <==> Get(linkDeltas, code) > 0 || code in last
  {
    rows := [];
    var todo := linkDeltas.Keys;
    while todo != {}
      invariant todo <= linkDeltas.Keys
      invariant NamesOnce(rows) && AllCarry(rows, linkDeltas, last)
      invariant forall code :: Names(rows, code) <==>
        code in linkDeltas && code !in todo && (linkDeltas[code] > 0 || code in last)
      decreases |todo|
    {
      var code :| code in todo;
      if linkDeltas[code] > 0 || code in last {
        var row := DeltaRow(code, Max(linkDeltas[code], 0), if code in last then last[code] else UNIX_EPOCH);
        PushRow(rows, row);
        rows := rows + [row];
      }
      todo := todo - {code};
    }
    todo := last.Keys;
    while todo != {}
      invariant todo <= last.Keys
      invariant NamesOnce(rows) && AllCarry(rows, linkDeltas, last)
      invariant forall code :: Names(rows, code) <==>
        if code in linkDeltas then linkDeltas[code] > 0 || code in last else code in last && code !in todo
      decreases |todo|
    {
      var code :| code in todo;
      if code !in linkDeltas {
        var row := DeltaRow(code, 0, last[code]);
        PushRow(rows, row);
        rows := rows + [row];
      }
      todo := todo - {code};
    }
  }

  // The batch built by DeltaRows has the effect UpdatedLinks states.
  lemma BatchUpdates(links: map<Code, LinkRow>, snap: RedisSnapshot, deltas: map<Bucket, int>,
                     linkDeltas: map<Code, int>, rows: seq<DeltaRow>)
    requires LinkCodes(snap.daily.Keys) != {} && deltas.Keys == snap.daily.Keys
    requires forall b :: b in deltas ==> deltas[b] >= 0
    requires linkDeltas == Gains(deltas, snap.daily.Keys)
    requires NamesOnce(rows) && AllCarry(rows, linkDeltas, snap.last)
    requires forall code :: Names(rows, code) <==> Get(linkDeltas, code) > 0 || code in snap.last
    ensures UpdateLinks(links, rows) == UpdatedLinks(links, snap, deltas)
  {
    var updated := UpdateLinks(links, rows);
    UpdateLinksRow(links, rows, Code(""));
    forall code | code in links
      ensures updated[code] == UpdatedRow(links[code], snap, deltas, code)
    {
      UpdateLinksRow(links, rows, code);
      SumNonNegative(deltas, OfLink(deltas.Keys, code));
      if code !in linkDeltas {
        assert OfLink(deltas.Keys, code) == {};
      }
      assert Get(linkDeltas, code) == LinkDelta(deltas, code);
      if Names(rows, code) {
        var i :| 0 <= i < |rows| && rows[i].code == code;
        assert Carries(rows[i], linkDeltas, snap.last);
      }
    }
  }

  // Rows computed from what was read, for the part of the snapshot handled so far.
  ghost predicate Computed(daily: map<Bucket, int>, incoming: map<Bucket, int>, rows: map<Bucket, int>) {
    && rows.Keys <= incoming.Keys
    && forall b :: b in rows ==> rows[b] == Max(Get(daily, b), incoming[b])
  }

  lemma OneMoreField(deltas: map<Bucket, int>, done: set<Bucket>, b: Bucket)
    requires b.Link? && b !in done
    ensures Gains(deltas, done + {b})
      == Gains(deltas, done)[b.code := Get(Gains(deltas, done), b.code) + Get(deltas, b)]
  {
    var after := Gains(deltas, done + {b});
    assert LinkCodes(done + {b}) == LinkCodes(done) + {b.code};
    SumPick(deltas, OfLink(done + {b}, b.code), b);
    assert OfLink(done + {b}, b.code) - {b} == OfLink(done, b.code);
    if b.code !in LinkCodes(done) { assert OfLink(done, b.code) == {}; }
    forall code | code in after && code != b.code
      ensures after[code] == Gains(deltas, done)[code]
    {
      assert OfLink(done + {b}, code) == OfLink(done, code);
    }
  }

  /** The loop over `snapshot.global_daily`: rows to upsert and the total gained. */
  method GlobalRows(daily: map<Bucket, int>, incoming: map<Bucket, int>, globals: set<Bucket>)
    returns (rows: map<Bucket, int>, gained: int)
    requires globals <= incoming.Keys
    ensures rows.Keys == globals && Computed(daily, incoming, rows)
    ensures gained == Sum(Deltas(daily, incoming), globals)
  {
    rows, gained := map[], 0;
    var todo := globals;
    while todo != {}
      invariant todo <= globals && rows.Keys == globals - todo
      invariant Computed(daily, incoming, rows)
      invariant gained + Sum(Deltas(daily, incoming), todo) == Sum(Deltas(daily, incoming), globals)
      decreases todo
    {
      var b :| b in todo;
      SumPick(Deltas(daily, incoming), todo, b);
      var (committed, delta) := CalculateMergeDelta(Get(daily, b), incoming[b]);
      rows := rows[b := committed];
      gained := gained + delta;
      todo := todo - {b};
    }
  }

  /** The loop over `snapshot.link_daily`: rows to upsert and the gain of each code. */
  method LinkRows(daily: map<Bucket, int>, incoming: map<Bucket, int>, fields: set<Bucket>)
    returns (rows: map<Bucket, int>, linkDeltas: map<Code, int>)
    requires fields <= incoming.Keys && forall b <- fields :: b.Link?
    ensures rows.Keys == fields && Computed(daily, incoming, rows)
    ensures linkDeltas == Gains(Deltas(daily, incoming), fields)
  {
    rows, linkDeltas := map[], map[];
    var todo := fields;
    while todo != {}
      invariant todo <= fields && rows.Keys == fields - todo
      invariant Computed(daily, incoming, rows)
      invariant linkDeltas == Gains(Deltas(daily, incoming), rows.Keys)
      decreases todo
    {
      var b :| b in todo;
      LinkStep(daily, incoming, rows, linkDeltas, b);
      var (committed, delta) := CalculateMergeDelta(Get(daily, b), incoming[b]);
      rows := rows[b := committed];
      linkDeltas := linkDeltas[b.code := Get(linkDeltas, b.code) + delta];
      todo := todo - {b};
    }
  }

  lemma LinkStep(daily: map<Bucket, int>, incoming: map<Bucket, int>, rows: map<Bucket, int>,
                 linkDeltas: map<Code, int>, b: Bucket)
    requires b in incoming && b.Link? && b !in rows && linkDeltas == Gains(Deltas(daily, incoming), rows.Keys)
    ensures var (committed, delta) := CalculateMergeDelta(Get(daily, b), incoming[b]);
      linkDeltas[b.code := Get(linkDeltas, b.code) + delta] == Gains(Deltas(daily, incoming), rows[b := committed].Keys)
  {
    var (committed, delta) := CalculateMergeDelta(Get(daily, b), incoming[b]);
    OneMoreField(Deltas(daily, incoming), rows.Keys, b);
    assert rows[b := committed].Keys == rows.Keys + {b};
  }

  /** `fault` names the statement that fails, if any: nothing is visible before the commit. */
  datatype Fault = NoFault | AtBegin | AtGlobal | AtLinks | AtCommit

  class SnapshotRepo {
    var daily: map<Bucket, int>
    var total: int
    var links: map<Code, LinkRow>

    ghost function State(): Tables reads this {
      Tables(daily, total, links)
    }

    constructor (t: Tables)
      ensures State() == t
    {
      daily, total, links := t.daily, t.total, t.links;
    }

    method MergeSnapshot(snap: RedisSnapshot, fault: Fault) returns (r: Result<MergeOutcome>)
      modifies this
      ensures r.Err? ==> State() == old(State())
      ensures r.Ok? ==> State() == Merged(old(State()), snap) && r.value == Outcome(old(State()), snap)
      ensures fault.NoFault? || snap.daily == map[] ==> r.Ok?
      ensures fault.AtCommit? && snap.daily != map[] ==> r.Err?
    {
      if snap.daily == map[] {
        MergedNothing(State(), snap);
        return Ok(EMPTY_OUTCOME);
      }
      var tx := Transaction(Tables(daily, total, links), snap, fault);
      match tx
      case Err => r := Err;
      case Ok(done) =>
        daily, total, links := done.0.daily, done.0.total, done.0.links;
        r := Ok(done.1);
    }
  }

  /** From begin to commit: the tables a committed transaction leaves and the outcome it reports. */
  method Transaction(t: Tables, snap: RedisSnapshot, fault: Fault) returns (r: Result<(Tables, MergeOutcome)>)
    ensures r.Ok? ==> r.value == (Merged(t, snap), Outcome(t, snap))
    ensures fault.NoFault? ==> r.Ok?
    ensures fault.AtCommit? ==> r.Err?
  {
    if fault.AtBegin? || (fault.AtGlobal? && Globals(snap.daily.Keys) != {}) { return Err; }
    var daily, total, globalRows, globalDelta := GlobalBlock(t.daily, t.total, snap);
    if fault.AtLinks? && LinkCodes(snap.daily.Keys) != {} { return Err; }
    var links, committed, linkDeltas;
    daily, links, committed, linkDeltas := LinkBlock(t, daily, t.links, snap, globalRows);
    if fault.AtCommit? { return Err; }
    r := Ok((Tables(daily, total, links), MergeOutcome(committed, globalDelta, linkDeltas)));
  }

  /** The block under `!snapshot.global_daily.is_empty()`. */
  method GlobalBlock(daily: map<Bucket, int>, total: int, snap: RedisSnapshot)
    returns (txDaily: map<Bucket, int>, txTotal: int, rows: map<Bucket, int>, globalDelta: int)
    ensures rows.Keys == Globals(snap.daily.Keys) && Computed(daily, snap.daily, rows)
    ensures txDaily == UpsertGreatest(daily, rows)
    ensures globalDelta == Sum(Deltas(daily, snap.daily), Globals(Deltas(daily, snap.daily).Keys))
    ensures txTotal == total + globalDelta
  {
    var globals := Globals(snap.daily.Keys);
    assert Globals(Deltas(daily, snap.daily).Keys) == globals;
    txDaily, txTotal, rows, globalDelta := daily, total, map[], 0;
    if globals == {} {
      UpsertNothing(daily);
    } else {
      rows, globalDelta := GlobalRows(daily, snap.daily, globals);
      txDaily := UpsertGreatest(txDaily, rows);
      SumNonNegative(Deltas(daily, snap.daily), globals);
      if globalDelta > 0 { txTotal := txTotal + globalDelta; }
    }
  }

  /** The block under `!snapshot.link_daily.is_empty()`. The upsert of the global rows wrote no link row, so the
      rows selected for update here are those of `t`. */
  method LinkBlock(ghost t: Tables, daily: map<Bucket, int>, links: map<Code, LinkRow>, snap: RedisSnapshot,
                   globalRows: map<Bucket, int>)
    returns (txDaily: map<Bucket, int>, txLinks: map<Code, LinkRow>, committed: map<Bucket, int>,
             linkDeltas: map<Code, int>)
    requires links == t.links && daily == UpsertGreatest(t.daily, globalRows)
    requires globalRows.Keys == Globals(snap.daily.Keys) && Computed(t.daily, snap.daily, globalRows)
    ensures txDaily == Merged(t, snap).daily && txLinks == Merged(t, snap).links
    ensures committed == Outcome(t, snap).committed && linkDeltas == Outcome(t, snap).linkDeltas
  {
    var fields := snap.daily.Keys - globalRows.Keys;
    var rows: map<Bucket, int>, batch: seq<DeltaRow> := map[], [];
    txDaily, txLinks, committed, linkDeltas := daily, links, globalRows, map[];
    if fields == {} {
      UpsertNothing(daily);
    } else {
      rows, linkDeltas := LinkRows(daily, snap.daily, fields);
      ReadAfterUpsert(t.daily, globalRows, snap.daily, rows, fields);
      txDaily := UpsertGreatest(txDaily, Landing(txLinks, rows));
      committed := committed + rows;
      batch := DeltaRows(linkDeltas, snap.last);
      txLinks := UpdateLinks(txLinks, batch);
    }
    AssembleRows(t, snap, globalRows, rows);
    AssembleLinks(t, snap, fields, linkDeltas, batch);
  }

  lemma ReadAfterUpsert(daily: map<Bucket, int>, written: map<Bucket, int>, incoming: map<Bucket, int>,
                        rows: map<Bucket, int>, fields: set<Bucket>)
    requires written.Keys !! fields && rows.Keys == fields
    requires Computed(UpsertGreatest(daily, written), incoming, rows)
    ensures Computed(daily, incoming, rows)
    ensures Gains(Deltas(UpsertGreatest(daily, written), incoming), fields) == Gains(Deltas(daily, incoming), fields)
  {
    var now := UpsertGreatest(daily, written);
    assert forall b :: b in fields ==> Get(now, b) == Get(daily, b);
    forall code
      ensures Sum(Deltas(now, incoming), OfLink(fields, code)) == Sum(Deltas(daily, incoming), OfLink(fields, code))
    {
      SumSame(Deltas(now, incoming), Deltas(daily, incoming), OfLink(fields, code));
    }
  }

  lemma UpsertNothing(daily: map<Bucket, int>)
    ensures UpsertGreatest(daily, map[]) == daily
  {
  }

  // Upserting the global rows and then the landing link rows upserts the whole snapshot.
  lemma AssembleRows(t: Tables, snap: RedisSnapshot, globalRows: map<Bucket, int>, linkRows: map<Bucket, int>)
    requires globalRows.Keys == Globals(snap.daily.Keys) && linkRows.Keys == snap.daily.Keys - globalRows.Keys
    requires Computed(t.daily, snap.daily, globalRows) && Computed(t.daily, snap.daily, linkRows)
    ensures globalRows + linkRows == Committed(t.daily, snap.daily)
    ensures UpsertGreatest(UpsertGreatest(t.daily, globalRows), Landing(t.links, linkRows)) == Merged(t, snap).daily
    ensures linkRows == map[] ==> Landing(t.links, linkRows) == map[]
  {
    assert globalRows + linkRows == Committed(t.daily, snap.daily);
    UpsertTwice(t.daily, globalRows, Landing(t.links, linkRows));
    SplitLanding(t.links, globalRows, linkRows);
  }

  lemma SplitLanding(links: map<Code, LinkRow>, globalRows: map<Bucket, int>, linkRows: map<Bucket, int>)
    requires globalRows.Keys !! linkRows.Keys && forall b :: b in globalRows ==> b.Global?
    ensures globalRows + Landing(links, linkRows) == Landing(links, globalRows + linkRows)
  {
  }

  lemma UpsertTwice(daily: map<Bucket, int>, first: map<Bucket, int>, second: map<Bucket, int>)
    requires first.Keys !! second.Keys
    ensures UpsertGreatest(UpsertGreatest(daily, first), second) == UpsertGreatest(daily, first + second)
  {
  }

  lemma AssembleLinks(t: Tables, snap: RedisSnapshot, fields: set<Bucket>, linkDeltas: map<Code, int>,
                      batch: seq<DeltaRow>)
    requires fields == snap.daily.Keys - Globals(snap.daily.Keys)
    requires linkDeltas == if fields == {} then map[] else Gains(Deltas(t.daily, snap.daily), fields)
    requires fields == {} ==> batch == []
    requires fields != {} ==> NamesOnce(batch) && AllCarry(batch, linkDeltas, snap.last)
    requires fields != {} ==> forall code :: Names(batch, code) <==> Get(linkDeltas, code) > 0 || code in snap.last
    ensures UpdateLinks(t.links, batch) == Merged(t, snap).links && Outcome(t, snap).linkDeltas == linkDeltas
  {
    var deltas := Deltas(t.daily, snap.daily);
    assert LinkCodes(fields) == LinkCodes(snap.daily.Keys);
    assert forall code :: OfLink(fields, code) == OfLink(snap.daily.Keys, code);
    if fields == {} {
      assert LinkCodes(snap.daily.Keys) == {};
      assert Gains(deltas, snap.daily.Keys) == map[];
    } else {
      var b :| b in fields;
      assert b.code in LinkCodes(snap.daily.Keys);
      assert Gains(deltas, fields) == Gains(deltas, snap.daily.Keys);
      BatchUpdates(t.links, snap, deltas, linkDeltas, batch);
    }
  }

  lemma MergedNothing(t: Tables, snap: RedisSnapshot)
    requires snap.daily == map[]
    ensures Merged(t, snap) == t && Outcome(t, snap) == EMPTY_OUTCOME
  {
    assert LinkCodes(snap.daily.Keys) == {};
    assert UpdatedLinks(t.links, snap, Deltas(t.daily, snap.daily)) == t.links;
    assert Landing(t.links, map[]) == map[];
    UpsertNothing(t.daily);
  }
}
