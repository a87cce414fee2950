/** analytics/src/redis_persistence.rs: rehydration and flush, run without interference. What other parties may do
    between two commands is the business of Pipeline, whose steps use the same functions. */
module Persistence {
  import opened Counts
  import opened Snapshot
  import opened PgSnapshotRepo
  import opened MergeLaws
  import opened MergeJoin
  import opened RedisStats

  const ROLLING_WINDOW_DAYS := 7
  const STALE_GRACE_DAYS := 1

  function RollingWindowStart(today: Day): Day { today - ROLLING_WINDOW_DAYS }

  function StaleCutoff(today: Day): Day { today - (ROLLING_WINDOW_DAYS + STALE_GRACE_DAYS) }

  // get_daily_clicks_since
  function Window(daily: map<Bucket, int>, since: Day): map<Bucket, int> {
    map b | b in daily && b.day >= since :: daily[b]
  }

  function Without(rows: map<Bucket, int>, failed: set<Bucket>): map<Bucket, int> {
    map b | b in rows && b !in failed :: rows[b]
  }

  /** Redis after pushing back rows, except those whose hmax failed: the greater of field and row. */
  function Pushed(counts: map<Bucket, int>, rows: map<Bucket, int>, failed: set<Bucket>): map<Bucket, int> {
    UpsertGreatest(counts, Without(rows, failed))
  }

  // last_clicked_at_batch for the codes of the captured link fields
  function LastClickedAt(last: map<Code, int>, codes: set<Code>): map<Code, int> {
    map code | code in codes && code in last :: last[code]
  }

  function SnapshotOf(counts: map<Bucket, int>, last: map<Code, int>, cutoff: Day): RedisSnapshot {
    RedisSnapshot(counts, LastClickedAt(last, LinkCodes(counts.Keys)), StaleFields(counts, cutoff))
  }

  /** What goes wrong during one flush: single commands may fail, and so may whole connections. */
  datatype Faults = Faults(capture: bool, merge: Fault, connection: bool, hmax: set<Bucket>, cleanup: set<Bucket>)

  function Removed(snap: RedisSnapshot, faults: Faults, text: ScriptText): set<Bucket> {
    if text.AsWritten? then {} else snap.stale - faults.hmax - faults.cleanup
  }

  lemma OneMorePush(counts: map<Bucket, int>, rows: map<Bucket, int>, failed: set<Bucket>, todo: set<Bucket>, b: Bucket)
    requires b in todo && b in rows
    ensures Pushed(counts, rows, failed + (todo - {b}))
      == if b in failed then Pushed(counts, rows, failed + todo)
         else HMax(Pushed(counts, rows, failed + todo), b, rows[b])
  {
    if b in failed {
      assert failed + (todo - {b}) == failed + todo;
    }
  }

  class Persistence {
    const redis: RedisServer
    const db: SnapshotRepo

    constructor (redis: RedisServer, db: SnapshotRepo)
      ensures this.redis == redis && this.db == db
    {
      this.redis, this.db := redis, db;
    }

    /** The loop around `RedisStats::hmax`: failures are logged and skipped. */
    method HmaxAll(rows: map<Bucket, int>, failed: set<Bucket>) returns (done: set<Bucket>)
      modifies redis`counts
      ensures redis.counts == Pushed(old(redis.counts), rows, failed)
      ensures done == rows.Keys - failed
    {
      done := {};
      var todo := rows.Keys;
      ghost var before := redis.counts;
      PushNothing(before, rows, failed);
      while todo != {}
        invariant todo <= rows.Keys && done == rows.Keys - todo - failed
        invariant redis.counts == Pushed(before, rows, failed + todo)
        decreases todo
      {
        var b :| b in todo;
        OneMorePush(before, rows, failed, todo, b);
        if b !in failed {
          var _ := redis.Hmax(b, rows[b]);
          done := done + {b};
        }
        todo := todo - {b};
      }
      assert failed + {} == failed;
    }

    method Rehydrate(today: Day, queryFails: bool, connectionFails: bool, failed: set<Bucket>) returns (ok: bool)
      modifies redis`counts
      ensures ok <==> !queryFails && !connectionFails
      ensures redis.counts ==
        if ok then Pushed(old(redis.counts), Window(db.daily, RollingWindowStart(today)), failed) else old(redis.counts)
    {
      if queryFails { return false; }
      var data := Window(db.daily, RollingWindowStart(today));
      if connectionFails { return false; }
      var _ := HmaxAll(data, failed);
      ok := true;
    }

    /** Deletes stale fields whose reconciliation went through and whose value is the committed one. */
    method CleanupStale(stale: set<Bucket>, reconciled: set<Bucket>, committed: map<Bucket, int>, failed: set<Bucket>,
                        text: ScriptText)
      requires reconciled <= committed.Keys
      requires forall b :: b in stale * reconciled && b in redis.counts ==> redis.counts[b] == committed[b]
      modifies redis`counts
      ensures redis.counts == old(redis.counts) - (if text.AsWritten? then {} else stale * reconciled - failed)
    {
      var todo := stale;
      ghost var before := redis.counts;
      ghost var gone: set<Bucket> := {};
      while todo != {}
        invariant todo <= stale
        invariant gone == if text.AsWritten? then {} else (stale - todo) * reconciled - failed
        invariant redis.counts == before - gone
        decreases todo
      {
        var b :| b in todo;
        todo := todo - {b};
        if b in reconciled && b !in failed {
          var expected := Get(committed, b);
          var r := redis.CompareAndDeleteField(text, b, expected);
          if text.AsDocumented? {
            RemoveOne(before, gone, b, expected);
            gone := gone + {b};
          }
        }
      }
    }

    method ReconcileAndCleanup(snap: RedisSnapshot, outcome: MergeOutcome, faults: Faults, text: ScriptText)
      requires snap.daily == redis.counts && snap.stale <= snap.daily.Keys
      requires outcome.committed.Keys == snap.daily.Keys
      requires forall b :: b in snap.daily ==> outcome.committed[b] >= snap.daily[b]
      modifies redis`counts
      ensures redis.counts == if faults.connection then old(redis.counts)
        else Pushed(old(redis.counts), outcome.committed, faults.hmax) - Removed(snap, faults, text)
    {
      if faults.connection { return; }
      var reconciled := HmaxAll(outcome.committed, faults.hmax);
      CleanupStale(snap.stale, reconciled, outcome.committed, faults.cleanup, text);
      assert snap.stale * reconciled - faults.cleanup == snap.stale - faults.hmax - faults.cleanup;
    }

    /** One flush of a quiet system, with any of its commands failing. */
    method Flush(today: Day, faults: Faults, text: ScriptText) returns (ok: bool)
      modifies redis`counts, db
      ensures redis.last == old(redis.last)
      ensures var snap := SnapshotOf(old(redis.counts), old(redis.last), StaleCutoff(today));
        && (!ok ==> db.State() == old(db.State()) && redis.counts == old(redis.counts))
        && (ok ==> db.State() == Merged(old(db.State()), snap))
        && (ok ==> redis.counts == if faults.connection then old(redis.counts) else
             Pushed(old(redis.counts), Committed(old(db.daily), snap.daily), faults.hmax) - Removed(snap, faults, text))
      ensures ok <== !faults.capture && faults.merge.NoFault?
    {
      if faults.capture { return false; }
      var snap := SnapshotOf(redis.counts, redis.last, StaleCutoff(today));
      if snap.daily == map[] {
        MergedNothing(db.State(), snap);
        PushNothing(redis.counts, Committed(db.daily, snap.daily), faults.hmax);
        return true;
      }
      var merged := db.MergeSnapshot(snap, faults.merge);
      if merged.Err? { return false; }
      ReconcileAndCleanup(snap, merged.value, faults, text);
      ok := true;
    }
  }

  lemma PushNothing(counts: map<Bucket, int>, rows: map<Bucket, int>, failed: set<Bucket>)
    ensures Pushed(counts, rows, failed + rows.Keys) == counts
    ensures rows == map[] ==> Pushed(counts, rows, failed) == counts
  {
  }

  lemma RemoveOne(before: map<Bucket, int>, gone: set<Bucket>, b: Bucket, expected: int)
    requires b in before && b !in gone ==> before[b] == expected
    ensures CompareAndDelete(before - gone, b, expected) == before - (gone + {b})
  {
  }

  // ---- Rehydration --------------------------------------------------------------------------------------

  /** Every Redis field shows exactly its Postgres row. */
  ghost predicate Mirrors(counts: map<Bucket, int>, daily: map<Bucket, int>) {
    forall b :: b in counts ==> b in daily && counts[b] == daily[b]
  }

  /** A rehydration with any failures keeps Redis a mirror of Postgres. */
  lemma RehydrateMirrors(counts: map<Bucket, int>, daily: map<Bucket, int>, today: Day, failed: set<Bucket>)
    requires Mirrors(counts, daily)
    ensures Mirrors(Pushed(counts, Window(daily, RollingWindowStart(today)), failed), daily)
  {
  }

  datatype Attempt = Attempt(today: Day, failed: set<Bucket>)

  function Rehydrations(counts: map<Bucket, int>, daily: map<Bucket, int>, attempts: seq<Attempt>): map<Bucket, int> {
    if attempts == [] then counts
    else
      var last := attempts[|attempts| - 1];
      Pushed(Rehydrations(counts, daily, attempts[..|attempts| - 1]), Window(daily, RollingWindowStart(last.today)),
             last.failed)
  }

  /** From an empty Redis any number of rehydrations, each with any failures, leaves only fields equal to their rows,
      so a flush with no clicks since changes no table. */
  lemma {:induction false} RehydrationsMirror(t: Tables, attempts: seq<Attempt>, today: Day)
    requires ForeignKey(t) && NonNegative(t.daily)
    ensures var counts := Rehydrations(map[], t.daily, attempts);
      Mirrors(counts, t.daily) && Merged(t, SnapshotOf(counts, map[], StaleCutoff(today))) == t
    decreases |attempts|
  {
    if attempts != [] {
      var last := attempts[|attempts| - 1];
      RehydrationsMirror(t, attempts[..|attempts| - 1], today);
      RehydrateMirrors(Rehydrations(map[], t.daily, attempts[..|attempts| - 1]), t.daily, last.today, last.failed);
    }
    FlushAfterRehydrateChangesNothing(t, Rehydrations(map[], t.daily, attempts), today);
  }

  /** A flush of a Redis that mirrors Postgres, with no clicks since, leaves every table as it was. */
  lemma FlushAfterRehydrateChangesNothing(t: Tables, counts: map<Bucket, int>, today: Day)
    requires Mirrors(counts, t.daily) && ForeignKey(t) && NonNegative(t.daily)
    ensures Merged(t, SnapshotOf(counts, map[], StaleCutoff(today))) == t
  {
    assert LastClickedAt(map[], LinkCodes(counts.Keys)) == map[];
    MergeBelow(t, SnapshotOf(counts, map[], StaleCutoff(today)));
  }

  /** A rehydration without failures, from whatever Redis held, brings the rows of the last seven days, today's
      included, up to the Postgres row, touches no other field, and restores no day that is stale at that moment. */
  lemma RehydrateDominates(counts: map<Bucket, int>, daily: map<Bucket, int>, today: Day, b: Bucket)
    ensures var after := Pushed(counts, Window(daily, RollingWindowStart(today)), {});
      && (b in after <==> b in counts || (b in daily && b.day >= today - 7))
      && (b in daily && b.day >= today - 7 ==>
           after[b] == (if b in counts then Max(counts[b], daily[b]) else daily[b])
           && b !in StaleFields(after, StaleCutoff(today)))
      && (b in counts && (b !in daily || b.day < today - 7) ==> after[b] == counts[b])
  {
  }

  // ---- Cleanup ------------------------------------------------------------------------------------------

  /** After a flush without failures each field shows the committed count, and a field is gone exactly when it was
      stale; what Postgres now holds for a global field or a field of an existing link is that committed count. */
  lemma FlushLeaves(t: Tables, counts: map<Bucket, int>, last: map<Code, int>, today: Day, b: Bucket)
    requires b in counts && counts[b] >= 0 && NonNegative(t.daily)
    ensures var snap := SnapshotOf(counts, last, StaleCutoff(today));
      var after := Pushed(counts, Committed(t.daily, snap.daily), {})
        - Removed(snap, Faults(false, NoFault, false, {}, {}), AsDocumented);
      && (b in after <==> b.day >= today - 8)
      && (b in after ==> after[b] == Max(counts[b], Get(t.daily, b)))
      && (Lands(t.links, b) ==> Get(Merged(t, snap).daily, b) == Max(counts[b], Get(t.daily, b)))
  {
  }

  /** A flush brings the click time of every existing link with captured fields up to the one in Redis, and lowers
      none. */
  lemma FlushBringsTimes(t: Tables, counts: map<Bucket, int>, last: map<Code, int>, today: Day, code: Code)
    requires code in t.links && code in LinkCodes(counts.Keys)
    ensures var snap := SnapshotOf(counts, last, StaleCutoff(today));
      var before, after := t.links[code].last, Merged(t, snap).links[code].last;
      && (code in last ==>
           after == Some(if before.Some? && before.value > last[code] then before.value else last[code]))
      && (code !in last && before.Some? && before.value >= 0 ==> after == before)
  {
  }

  /** With the script as written a flush, whatever fails in it, keeps every field; Conservation.FieldsStay carries
      this over whole runs. */
  lemma AsWrittenRemovesNothing(t: Tables, counts: map<Bucket, int>, last: map<Code, int>, today: Day, faults: Faults)
    ensures var snap := SnapshotOf(counts, last, StaleCutoff(today));
      var after := Pushed(counts, Committed(t.daily, snap.daily), faults.hmax) - Removed(snap, faults, AsWritten);
      after.Keys == counts.Keys
  {
  }
}
