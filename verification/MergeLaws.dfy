/** What merging promises: running totals follow the rows, merges are joins, and what a torn merge breaks. */
module MergeLaws {
  import opened Counts
  import opened Snapshot
  import opened PgSnapshotRepo

  ghost predicate NonNegative(m: map<Bucket, int>) {
    forall b :: b in m ==> m[b] >= 0
  }

  // ---- Totals -------------------------------------------------------------------------------------------

  /** A merge whose `select ... for update` returned `read` and whose writes then met the tables `t`. */
  ghost function MergedAgainst(read: map<Bucket, int>, t: Tables, snap: RedisSnapshot): Tables {
    var deltas := Deltas(read, snap.daily);
    Tables(UpsertGreatest(t.daily, Landing(t.links, Committed(read, snap.daily))),
           t.total + Sum(deltas, Globals(deltas.Keys)),
           UpdatedLinks(t.links, snap, deltas))
  }

  // Rows returned by the select are locked until the commit; only rows it did not find may have appeared.
  ghost predicate Locked(read: map<Bucket, int>, daily: map<Bucket, int>) {
    forall b :: b in read ==> b in daily && daily[b] == read[b]
  }

  // Clicks counted twice in a running total, bucket by bucket.
  function DoubleCount(read: map<Bucket, int>, now: map<Bucket, int>, incoming: map<Bucket, int>): map<Bucket, int> {
    map b | b in incoming ::
      if b in read then 0 else if Get(now, b) < incoming[b] then Get(now, b) else incoming[b]
  }

  // `part` is the landing part of the snapshot in some group of buckets, `keys` the rows of the group.
  lemma GroupSum(read: map<Bucket, int>, now: map<Bucket, int>, incoming: map<Bucket, int>, rows: map<Bucket, int>,
                 keys: set<Bucket>, part: set<Bucket>)
    requires NonNegative(now) && NonNegative(incoming) && Locked(read, now)
    requires keys <= now.Keys && part <= incoming.Keys && now.Keys * part <= keys && incoming.Keys * keys <= part
    requires forall b :: b in part ==> b in rows && rows[b] == Max(Get(read, b), incoming[b])
    requires forall b :: b in keys - part ==> b !in rows
    ensures Sum(UpsertGreatest(now, rows), keys + part)
      == Sum(now, keys) + Sum(Deltas(read, incoming), part) - Sum(DoubleCount(read, now, incoming), part)
  {
    var after, deltas, twice := UpsertGreatest(now, rows), Deltas(read, incoming), DoubleCount(read, now, incoming);
    var whole := keys + part;
    SumWiden(now, keys, whole);
    SumWiden(deltas, part, whole);
    SumWiden(twice, part, whole);
    var gained := map b | b in whole :: Get(now, b) + Get(deltas, b);
    SumAdds(now, deltas, gained, whole);
    forall b | b in whole
      ensures Get(gained, b) == Get(after, b) + Get(twice, b)
    {
      assert b !in part ==> b in now && b !in incoming;
    }
    SumAdds(after, twice, gained, whole);
  }

  /** A torn merge drifts the global total by exactly what it counted twice. */
  lemma TornGlobalDrift(read: map<Bucket, int>, t: Tables, snap: RedisSnapshot)
    requires NonNegative(t.daily) && NonNegative(snap.daily) && Locked(read, t.daily)
    ensures GlobalDrift(MergedAgainst(read, t, snap))
      == GlobalDrift(t) + Sum(DoubleCount(read, t.daily, snap.daily), Globals(snap.daily.Keys))
  {
    var rows := Landing(t.links, Committed(read, snap.daily));
    var after := UpsertGreatest(t.daily, rows);
    var keys, part := Globals(t.daily.Keys), Globals(snap.daily.Keys);
    GroupSum(read, t.daily, snap.daily, rows, keys, part);
    assert Globals(after.Keys) == keys + part;
    assert Globals(Deltas(read, snap.daily).Keys) == part;
  }

  // The row of a link gains what the snapshot gained for it, whether or not the batch names it.
  lemma RowGains(row: LinkRow, read: map<Bucket, int>, snap: RedisSnapshot, code: Code)
    ensures UpdatedRow(row, snap, Deltas(read, snap.daily), code).clicks
      == row.clicks + Sum(Deltas(read, snap.daily), OfLink(snap.daily.Keys, code))
  {
    var deltas := Deltas(read, snap.daily);
    var part := OfLink(snap.daily.Keys, code);
    assert OfLink(deltas.Keys, code) == part;
    SumNonNegative(deltas, part);
    if part != {} {
      var b :| b in part;
      assert b.code in LinkCodes(snap.daily.Keys);
    }
  }

  lemma TornLinkDrift(read: map<Bucket, int>, t: Tables, snap: RedisSnapshot, code: Code)
    requires NonNegative(t.daily) && NonNegative(snap.daily) && Locked(read, t.daily) && code in t.links
    ensures LinkDrift(MergedAgainst(read, t, snap), code)
      == LinkDrift(t, code) + Sum(DoubleCount(read, t.daily, snap.daily), OfLink(snap.daily.Keys, code))
  {
    var rows := Landing(t.links, Committed(read, snap.daily));
    var keys, part := OfLink(t.daily.Keys, code), OfLink(snap.daily.Keys, code);
    GroupSum(read, t.daily, snap.daily, rows, keys, part);
    assert OfLink(UpsertGreatest(t.daily, rows).Keys, code) == keys + part;
    RowGains(t.links[code], read, snap, code);
  }

  /** With two writers at once, `total_clicks` stays equal to the sum of its rows if and only if no day that the
      second writer did not find was meanwhile inserted, both with clicks. */
  lemma TotalsSurviveTornMergeIff(read: map<Bucket, int>, t: Tables, snap: RedisSnapshot)
    requires NonNegative(t.daily) && NonNegative(snap.daily) && Locked(read, t.daily) && GlobalDrift(t) == 0
    ensures GlobalDrift(MergedAgainst(read, t, snap)) == 0 <==>
      forall b :: b in snap.daily && b.Global? && b !in read && b in t.daily ==> t.daily[b] == 0 || snap.daily[b] == 0
  {
    TornGlobalDrift(read, t, snap);
    var twice := DoubleCount(read, t.daily, snap.daily);
    SumNonNegative(twice, Globals(snap.daily.Keys));
    assert forall b :: b in Globals(snap.daily.Keys) ==>
      (Get(twice, b) == 0 <==> (b !in read && b in t.daily ==> t.daily[b] == 0 || snap.daily[b] == 0));
  }

  /** The same for `click_count` of each link. */
  lemma ClickCountSurvivesTornMergeIff(read: map<Bucket, int>, t: Tables, snap: RedisSnapshot, code: Code)
    requires NonNegative(t.daily) && NonNegative(snap.daily) && Locked(read, t.daily)
    requires code in t.links && LinkDrift(t, code) == 0
    ensures LinkDrift(MergedAgainst(read, t, snap), code) == 0 <==>
      forall day :: var b := Link(code, day);
        b in snap.daily && b !in read && b in t.daily ==> t.daily[b] == 0 || snap.daily[b] == 0
  {
    TornLinkDrift(read, t, snap, code);
    var twice, part := DoubleCount(read, t.daily, snap.daily), OfLink(snap.daily.Keys, code);
    SumNonNegative(twice, part);
    assert forall b :: b in part ==> b == Link(code, b.day);
    assert forall b :: b in part ==>
      (Get(twice, b) == 0 <==> (b !in read && b in t.daily ==> t.daily[b] == 0 || snap.daily[b] == 0));
  }

  /** A merge serialised by the writer lock changes no drift, whatever the drift was. */
  lemma MergeKeepsDrift(t: Tables, snap: RedisSnapshot)
    requires NonNegative(t.daily) && NonNegative(snap.daily)
    ensures GlobalDrift(Merged(t, snap)) == GlobalDrift(t)
    ensures forall code :: code in t.links ==> LinkDrift(Merged(t, snap), code) == LinkDrift(t, code)
    ensures NonNegative(Merged(t, snap).daily)
  {
    TornGlobalDrift(t.daily, t, snap);
    var twice := DoubleCount(t.daily, t.daily, snap.daily);
    SumNonNegative(twice, Globals(snap.daily.Keys));
    forall code | code in t.links
      ensures LinkDrift(Merged(t, snap), code) == LinkDrift(t, code)
    {
      TornLinkDrift(t.daily, t, snap, code);
      SumNonNegative(twice, OfLink(snap.daily.Keys, code));
    }
  }

  /** Running totals equal sums: kept by every serialised merge. */
  lemma MergeKeepsConsistent(t: Tables, snap: RedisSnapshot)
    requires NonNegative(t.daily) && NonNegative(snap.daily) && Consistent(t)
    ensures Consistent(Merged(t, snap))
  {
    MergeKeepsDrift(t, snap);
  }

  /** The reported outcome tells what the merge did: the rows it committed and what each total gained. */
  lemma OutcomeTells(t: Tables, snap: RedisSnapshot)
    requires NonNegative(t.daily) && NonNegative(snap.daily)
    ensures var outcome, after := Outcome(t, snap), Merged(t, snap);
      && outcome.committed.Keys == snap.daily.Keys
      && outcome.globalDelta == after.total - t.total
      && (forall b :: b in snap.daily && Lands(t.links, b) ==>
           b in after.daily && outcome.committed[b] == after.daily[b])
      && (forall code :: code in t.links ==>
           Get(outcome.linkDeltas, code) == after.links[code].clicks - t.links[code].clicks)
  {
    var deltas := Deltas(t.daily, snap.daily);
    forall code | code in t.links
      ensures Get(Outcome(t, snap).linkDeltas, code) == Merged(t, snap).links[code].clicks - t.links[code].clicks
    {
      RowGains(t.links[code], t.daily, snap, code);
      if code !in LinkCodes(snap.daily.Keys) { NoFields(snap.daily.Keys, code); }
    }
  }

  lemma NoFields(keys: set<Bucket>, code: Code)
    requires code !in LinkCodes(keys)
    ensures OfLink(keys, code) == {}
  {
    assert forall b :: b in OfLink(keys, code) ==> b.code in LinkCodes(keys);
  }

  // insert into links: the totals of a new row are zero and it has no daily rows yet.
  function Created(t: Tables, code: Code): Tables {
    if code in t.links then t else t.(links := t.links[code := LinkRow(0, None)])
  }

  // delete from links: link_daily_clicks rows go with it (on delete cascade), the global rows stay.
  function Deleted(t: Tables, code: Code): Tables {
    t.(links := t.links - {code}, daily := map b | b in t.daily && !(b.Link? && b.code == code) :: t.daily[b])
  }

  lemma DeletedKeepsDrift(t: Tables, code: Code)
    ensures GlobalDrift(Deleted(t, code)) == GlobalDrift(t)
    ensures forall c :: c in t.links && c != code ==> LinkDrift(Deleted(t, code), c) == LinkDrift(t, c)
  {
    var after := Deleted(t, code);
    assert Globals(after.daily.Keys) == Globals(t.daily.Keys);
    SumSame(after.daily, t.daily, Globals(t.daily.Keys));
    forall c | c in t.links && c != code
      ensures LinkDrift(after, c) == LinkDrift(t, c)
    {
      assert OfLink(after.daily.Keys, c) == OfLink(t.daily.Keys, c);
      SumSame(after.daily, t.daily, OfLink(t.daily.Keys, c));
    }
  }

  /** Creating a link and deleting one keep every running total equal to the sum of its rows. */
  lemma LinkChangesKeepConsistent(t: Tables, code: Code)
    requires Consistent(t)
    ensures Consistent(Created(t, code)) && Consistent(Deleted(t, code))
    ensures code in Created(t, code).links && (code !in t.links ==> Created(t, code).links[code] == LinkRow(0, None))
    ensures forall c :: c in t.links ==> Created(t, code).links[c] == t.links[c]
    ensures code !in Deleted(t, code).links && forall day :: Link(code, day) !in Deleted(t, code).daily
    ensures forall b :: b in t.daily && b != Link(code, b.day) ==>
      b in Deleted(t, code).daily && Deleted(t, code).daily[b] == t.daily[b]
    ensures forall c :: c in t.links && c != code ==>
      c in Deleted(t, code).links && Deleted(t, code).links[c] == t.links[c]
  {
    if code !in t.links {
      assert OfLink(t.daily.Keys, code) == {};
      assert forall c :: c in t.links ==> LinkDrift(Created(t, code), c) == LinkDrift(t, c);
    }
    DeletedKeepsDrift(t, code);
  }

  /** A merge during which `code` is created after the upsert of the daily rows and before the update of `links`
      (two statements of one read-committed transaction). */
  ghost function MergedAroundCreate(t: Tables, snap: RedisSnapshot, code: Code): Tables {
    var deltas := Deltas(t.daily, snap.daily);
    Merged(t, snap).(links := UpdatedLinks(Created(t, code).links, snap, deltas))
  }

  /** The new link's total then equals the sum of its rows if and only if the snapshot had no clicks for it. */
  lemma TotalsSurviveCreateInMergeIff(t: Tables, snap: RedisSnapshot, code: Code)
    requires Consistent(t) && NonNegative(snap.daily) && code !in t.links
    ensures LinkDrift(MergedAroundCreate(t, snap, code), code) == 0 <==>
      forall b :: b in snap.daily && b.Link? && b.code == code ==> snap.daily[b] == 0
  {
    var after := MergedAroundCreate(t, snap, code);
    var deltas := Deltas(t.daily, snap.daily);
    assert OfLink(after.daily.Keys, code) == {};
    assert OfLink(deltas.Keys, code) == OfLink(snap.daily.Keys, code);
    SumNonNegative(deltas, OfLink(deltas.Keys, code));
    RowGains(LinkRow(0, None), t.daily, snap, code);
    assert forall b :: b in OfLink(snap.daily.Keys, code) ==> b !in t.daily && Get(deltas, b) == snap.daily[b];
  }

  /** Every other total, `total_clicks` included, has the drift it had. */
  lemma MergeAroundCreateKeepsOthers(t: Tables, snap: RedisSnapshot, code: Code)
    requires NonNegative(t.daily) && NonNegative(snap.daily) && code !in t.links
    ensures var after := MergedAroundCreate(t, snap, code);
      && after.daily == Merged(t, snap).daily && after.links.Keys == t.links.Keys + {code}
      && (ForeignKey(t) ==> ForeignKey(after))
      && GlobalDrift(after) == GlobalDrift(t)
      && forall c :: c in t.links ==> LinkDrift(after, c) == LinkDrift(t, c)
  {
    MergeKeepsDrift(t, snap);
    var after := MergedAroundCreate(t, snap, code);
    forall c | c in t.links
      ensures after.links[c] == Merged(t, snap).links[c]
    {
    }
  }
}
