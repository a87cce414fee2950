/** analytics/src/event_consumer.rs: processing delivered entries and draining the pending list. */
module EventConsumer {
  import opened Counts
  import opened Snapshot
  import opened RedisStats

  // process_entry: record a click, or drop an entry that does not parse.
  function Process(r: Redis, log: seq<Option<Click>>, id: nat): Redis {
    if id >= |log| then r
    else if log[id].Some? then RecordClick(r, id, log[id].value)
    else AckAndDelete(r, id)
  }

  // The entries in `failing` stay pending: for them the server executes nothing, because it refuses or never gets the
  // EVAL, or because it refuses the XACKDEL, whose error drop_click_event discards.
  function ProcessAll(r: Redis, log: seq<Option<Click>>, ids: seq<nat>, failing: set<nat>): Redis {
    if ids == [] then r
    else
      var last := ids[|ids| - 1];
      var before := ProcessAll(r, log, ids[..|ids| - 1], failing);
      if last in failing then before else Process(before, log, last)
  }

  function Ids(ids: seq<nat>): set<nat> {
    set id | id in ids
  }

  ghost predicate Ascending(ids: seq<nat>) {
    forall i, j :: 0 <= i < j < |ids| ==> ids[i] < ids[j]
  }

  /** XAUTOCLAIM from "0-0": the oldest pending entries, at most `count` of them, oldest first. */
  ghost predicate Claims(claimed: seq<nat>, pending: set<nat>, count: nat) {
    && Ascending(claimed)
    && Ids(claimed) <= pending
    && |claimed| == (if count < |pending| then count else |pending|)
    && forall c, id :: c in Ids(claimed) && id in pending - Ids(claimed) ==> c < id
  }

  // Every pending entry is in the stream and known.
  ghost predicate Valid(r: Redis, log: seq<Option<Click>>) {
    r.pending <= r.entries && forall id :: id in r.pending ==> id < |log|
  }

  // ---- Facts about processing ---------------------------------------------------------------------------

  lemma {:induction false} ProcessAllPending(r: Redis, log: seq<Option<Click>>, ids: seq<nat>, failing: set<nat>)
    requires Valid(r, log) && Ids(ids) <= r.pending
    ensures ProcessAll(r, log, ids, failing).pending == r.pending - (Ids(ids) - failing)
    ensures Valid(ProcessAll(r, log, ids, failing), log)
    decreases |ids|
  {
    if ids != [] {
      var n := |ids| - 1;
      assert ids == ids[..n] + [ids[n]];
      assert Ids(ids) == Ids(ids[..n]) + {ids[n]};
      ProcessAllPending(r, log, ids[..n], failing);
    }
  }

  lemma {:induction false} ProcessAllAppend(r: Redis, log: seq<Option<Click>>, xs: seq<nat>, ys: seq<nat>,
                                            failing: set<nat>)
    ensures ProcessAll(r, log, xs + ys, failing) == ProcessAll(ProcessAll(r, log, xs, failing), log, ys, failing)
    decreases |ys|
  {
    if ys == [] {
      assert xs + ys == xs;
    } else {
      assert (xs + ys)[..|xs + ys| - 1] == xs + ys[..|ys| - 1];
      ProcessAllAppend(r, log, xs, ys[..|ys| - 1], failing);
    }
  }

  lemma {:induction false} DistinctCount(ids: seq<nat>)
    requires Ascending(ids)
    ensures |Ids(ids)| == |ids|
    decreases |ids|
  {
    if ids != [] {
      var n := |ids| - 1;
      DistinctCount(ids[..n]);
      assert ids == ids[..n] + [ids[n]];
      assert Ids(ids) == Ids(ids[..n]) + {ids[n]};
    }
  }

  // Batches until one claims nothing.
  function BatchesNeeded(pending: nat, count: nat): nat
    requires count > 0
  {
    if pending == 0 then 1
    else if pending <= count then 2
    else BatchesNeeded(pending - count, count) + 1
  }

  /** That is ceil(pending / count) + 1: one batch fewer could not have claimed everything. */
  lemma {:induction false} BatchesAreCeil(pending: nat, count: nat)
    requires count > 0
    ensures var full := BatchesNeeded(pending, count) - 1;
      pending <= full * count && (pending > 0 ==> (full - 1) * count < pending) && (pending == 0 ==> full == 0)
    decreases pending
  {
    if pending > count {
      BatchesAreCeil(pending - count, count);
      var full := BatchesNeeded(pending - count, count) - 1;
      assert (full + 1) * count == full * count + count;
      assert (full - 1) * count == full * count - count;
    }
  }

  lemma BatchProgress(r: Redis, log: seq<Option<Click>>, claimed: seq<nat>, count: nat)
    requires Valid(r, log) && Claims(claimed, r.pending, count)
    ensures var after := ProcessAll(r, log, claimed, {});
      && Valid(after, log)
      && after.pending == r.pending - Ids(claimed)
      && |after.pending| == |r.pending| - |claimed|
  {
    ProcessAllPending(r, log, claimed, {});
    DistinctCount(claimed);
  }

  lemma NeedOneMore(left: nat, claimed: nat, count: nat)
    requires count > 0 && claimed == if count < left then count else left
    ensures BatchesNeeded(left, count) == 1 + if claimed == 0 then 0 else BatchesNeeded(left - claimed, count)
  {
  }

  lemma AscendingAppend(xs: seq<nat>, ys: seq<nat>, rest: set<nat>)
    requires Ascending(xs) && Ascending(ys) && forall x, y :: x in Ids(xs) && y in rest ==> x < y
    requires Ids(ys) <= rest
    ensures Ascending(xs + ys) && Ids(xs + ys) == Ids(xs) + Ids(ys)
  {
    forall i, j | 0 <= i < j < |xs + ys|
      ensures (xs + ys)[i] < (xs + ys)[j]
    {
      if i < |xs| <= j {
        assert xs[i] in Ids(xs) && ys[j - |xs|] in Ids(ys);
      }
    }
  }

  /** From `before` to `now`, exactly `processed` went, in order, and what is left is younger. */
  ghost predicate Drained(before: Redis, now: Redis, log: seq<Option<Click>>, processed: seq<nat>) {
    && Valid(now, log)
    && now == ProcessAll(before, log, processed, {})
    && Ascending(processed)
    && Ids(processed) + now.pending == before.pending
    && (forall c, id :: c in Ids(processed) && id in now.pending ==> c < id)
    && |processed| + |now.pending| == |before.pending|
  }

  lemma DrainedMore(before: Redis, now: Redis, log: seq<Option<Click>>, processed: seq<nat>, batch: seq<nat>,
                    count: nat)
    requires Drained(before, now, log, processed) && Claims(batch, now.pending, count)
    ensures Drained(before, ProcessAll(now, log, batch, {}), log, processed + batch)
    ensures |ProcessAll(now, log, batch, {}).pending| == |now.pending| - |batch|
  {
    BatchProgress(now, log, batch, count);
    AscendingAppend(processed, batch, now.pending);
    ProcessAllAppend(before, log, processed, batch, {});
  }

  class Consumer {
    const redis: RedisServer
    const log: seq<Option<Click>>
    const readBatchSize: nat

    constructor (redis: RedisServer, log: seq<Option<Click>>, readBatchSize: nat)
      ensures this.redis == redis && this.log == log && this.readBatchSize == readBatchSize
    {
      this.redis, this.log, this.readBatchSize := redis, log, readBatchSize;
    }

    method ProcessEntry(id: nat, fails: bool)
      requires id < |log|
      modifies redis
      ensures redis.State() == if fails then old(redis.State()) else Process(old(redis.State()), log, id)
    {
      if fails { return; }
      if log[id].Some? {
        var _ := redis.RecordClickEvent(id, log[id].value);
      } else {
        redis.DropClickEvent(id);
      }
    }

    /** The server's answer to XAUTOCLAIM. */
    method AutoClaim() returns (claimed: seq<nat>)
      ensures Claims(claimed, redis.pending, readBatchSize)
    {
      claimed := [];
      var left := redis.pending;
      while left != {} && |claimed| < readBatchSize
        invariant left <= redis.pending && |claimed| <= readBatchSize
        invariant Ascending(claimed) && Ids(claimed) == redis.pending - left
        invariant |claimed| + |left| == |redis.pending|
        invariant forall c, id :: c in Ids(claimed) && id in left ==> c < id
        decreases left
      {
        var least := TakeLeast(left);
        AscendingAppend(claimed, [least], left);
        claimed := claimed + [least];
        left := left - {least};
      }
    }

    /** One XAUTOCLAIM and the loop over what it claimed. */
    method DrainPendingBatch(failing: set<nat>) returns (count: nat, ghost claimed: seq<nat>)
      requires Valid(redis.State(), log)
      modifies redis
      ensures Claims(claimed, old(redis.pending), readBatchSize) && count == |claimed|
      ensures redis.State() == ProcessAll(old(redis.State()), log, claimed, failing)
    {
      var reply := AutoClaim();
      ghost var before := redis.State();
      assert forall j :: 0 <= j < |reply| ==> reply[j] in Ids(reply);
      for i := 0 to |reply|
        invariant redis.State() == ProcessAll(before, log, reply[..i], failing)
      {
        assert reply[..i + 1][..i] == reply[..i];
        ProcessEntry(reply[i], reply[i] in failing);
      }
      assert reply[..|reply|] == reply;
      count, claimed := |reply|, reply;
    }

    // One round of the loop with no entry failing.
    method DrainOnce(ghost before: Redis, ghost processed: seq<nat>) returns (claimed: nat, ghost more: seq<nat>)
      requires Drained(before, redis.State(), log, processed)
      modifies redis
      ensures Drained(before, redis.State(), log, more) && |more| == |processed| + claimed
      ensures claimed == if readBatchSize < |old(redis.pending)| then readBatchSize else |old(redis.pending)|
      ensures |redis.pending| == |old(redis.pending)| - claimed
    {
      ghost var now := redis.State();
      ghost var batch;
      claimed, batch := DrainPendingBatch({});
      DrainedMore(before, now, log, processed, batch, readBatchSize);
      more := processed + batch;
    }

    /** The drain loop with no entry failing, no shutdown and no other reader. It ends, after exactly
        ceil(pending / batch) + 1 batches, with nothing pending; every pending entry was processed exactly once,
        oldest first. */
    method DrainPending() returns (totalClaimed: nat, ghost batches: nat, ghost processed: seq<nat>)
      requires Valid(redis.State(), log) && readBatchSize > 0
      modifies redis
      ensures redis.pending == {} && Drained(old(redis.State()), redis.State(), log, processed)
      ensures totalClaimed == |processed| == |old(redis.pending)|
      ensures batches == BatchesNeeded(|old(redis.pending)|, readBatchSize)
    {
      totalClaimed, batches, processed := 0, 0, [];
      ghost var before := redis.State();
      var claimed := 1;
      while claimed != 0
        invariant Drained(before, redis.State(), log, processed) && totalClaimed == |processed|
        invariant batches + (if claimed == 0 then 0 else BatchesNeeded(|redis.pending|, readBatchSize))
          == BatchesNeeded(|before.pending|, readBatchSize)
        invariant claimed == 0 ==> |redis.pending| == 0
        decreases |redis.pending|, claimed
      {
        NeedOneMore(|redis.pending|, if readBatchSize < |redis.pending| then readBatchSize else |redis.pending|,
                    readBatchSize);
        claimed, processed := DrainOnce(before, processed);
        batches := batches + 1;
        totalClaimed := totalClaimed + claimed;
      }
    }
  }

  method TakeLeast(ids: set<nat>) returns (least: nat)
    requires ids != {}
    ensures least in ids && forall id :: id in ids ==> least <= id
  {
    least :| least in ids;
    var rest := ids - {least};
    while rest != {}
      invariant rest <= ids && least in ids - rest
      invariant forall x :: x in ids && x !in rest ==> least <= x
      decreases rest
    {
      var id :| id in rest;
      rest := rest - {id};
      if id < least { least := id; }
    }
  }

  // ---- Entries that keep failing ------------------------------------------------------------------------

  ghost predicate BatchStep(r: Redis, after: Redis, log: seq<Option<Click>>, count: nat, failing: set<nat>) {
    exists claimed :: Claims(claimed, r.pending, count) && after == ProcessAll(r, log, claimed, failing)
  }

  /** Successive states of a drain loop in which the same entries fail each time. */
  ghost predicate DrainRun(rs: seq<Redis>, log: seq<Option<Click>>, count: nat, failing: set<nat>) {
    && rs != []
    && Valid(rs[0], log)
    && forall i :: 0 <= i < |rs| - 1 ==> BatchStep(rs[i], rs[i + 1], log, count, failing)
  }

  lemma BatchShrinks(r: Redis, after: Redis, log: seq<Option<Click>>, count: nat, failing: set<nat>)
    requires Valid(r, log) && count > 0 && BatchStep(r, after, log, count, failing)
    ensures Valid(after, log) && after.pending <= r.pending && r.pending * failing <= after.pending
    ensures r.pending !! failing && r.pending != {} ==> |after.pending| < |r.pending|
  {
    var claimed :| Claims(claimed, r.pending, count) && after == ProcessAll(r, log, claimed, failing);
    ProcessAllPending(r, log, claimed, failing);
    if r.pending !! failing && r.pending != {} {
      DistinctCount(claimed);
      assert Ids(claimed) - failing == Ids(claimed);
    }
  }

  lemma {:induction false} RunShrinks(rs: seq<Redis>, log: seq<Option<Click>>, count: nat, failing: set<nat>, i: nat)
    requires DrainRun(rs, log, count, failing) && count > 0 && i < |rs|
    ensures Valid(rs[i], log) && rs[0].pending * failing <= rs[i].pending <= rs[0].pending
    ensures rs[0].pending !! failing ==> rs[i].pending == {} || |rs[i].pending| + i <= |rs[0].pending|
    decreases i
  {
    if i > 0 {
      RunShrinks(rs, log, count, failing, i - 1);
      assert BatchStep(rs[i - 1], rs[i - 1 + 1], log, count, failing);
      BatchShrinks(rs[i - 1], rs[i], log, count, failing);
    }
  }

  /** The loop stops only at an empty claim. With some entries staying pending every time it gets there, in any run with
      enough batches, if and only if none of them was pending: one such entry keeps it claiming for ever. */
  lemma DrainStopsIff(rs: seq<Redis>, log: seq<Option<Click>>, count: nat, failing: set<nat>)
    requires DrainRun(rs, log, count, failing) && count > 0 && |rs| > |rs[0].pending|
    ensures Claims([], rs[|rs| - 1].pending, count) <==> rs[0].pending !! failing
  {
    var last := |rs| - 1;
    RunShrinks(rs, log, count, failing, last);
    if rs[0].pending !! failing {
      assert rs[last].pending == {};
    } else {
      var id :| id in rs[0].pending && id in failing;
      assert id in rs[last].pending;
    }
  }
}
