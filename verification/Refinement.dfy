/** The loops of Persistence and EventConsumer, undisturbed, are runs of the pipeline, so whatever holds over all runs
    of the pipeline holds of them. */
module Refinement {
  import opened Counts
  import opened Snapshot
  import opened PgSnapshotRepo
  import opened RedisStats
  import opened Pipeline
  import opened Persistence
  import opened Conservation
  import EventConsumer
  import MergeJoin

  ghost function With(s: State, w: nat, writer: Writer): State {
    s.(writers := s.writers[w := writer])
  }

  lemma {:induction false} Chain(s: State, xs: seq<Step>, ys: seq<Step>)
    ensures Run(s, xs + ys) == Run(Run(s, xs), ys)
    decreases |ys|
  {
    if ys == [] {
      assert xs + ys == xs;
    } else {
      assert (xs + ys)[..|xs + ys| - 1] == xs + ys[..|ys| - 1];
      Chain(s, xs, ys[..|ys| - 1]);
    }
  }

  lemma Push(s: State, steps: seq<Step>, step: Step)
    ensures Run(s, steps + [step]) == Next(Run(s, steps), step)
  {
    assert (steps + [step])[..|steps|] == steps;
  }

  // ---- Consuming entries --------------------------------------------------------------------------------

  /** Processing delivered or claimed entries is recording the clicks among them and dropping the others. */
  lemma {:induction false} ProcessingIsRun(s: State, ids: seq<nat>, failing: set<nat>) returns (steps: seq<Step>)
    ensures forall i :: 0 <= i < |steps| ==> (steps[i].Record? || steps[i].Drop?) && steps[i].id in ids
    ensures Run(s, steps).redis == EventConsumer.ProcessAll(s.redis, s.log, ids, failing)
    ensures Run(s, steps).log == s.log && Run(s, steps).pg == s.pg && Run(s, steps).writers == s.writers
    decreases |ids|
  {
    if ids == [] {
      steps := [];
    } else {
      var id := ids[|ids| - 1];
      steps := ProcessingIsRun(s, ids[..|ids| - 1], failing);
      if id !in failing && id < |s.log| {
        var step := if s.log[id].Some? then Record(id) else Drop(id);
        Push(s, steps, step);
        steps := steps + [step];
      }
    }
  }

  lemma OneFateIsValid(s: State)
    requires OneFate(s)
    ensures EventConsumer.Valid(s.redis, s.log)
  {
    assert forall id :: id in s.redis.pending ==> Fate(s, id);
  }

  /** Draining the pending entries of the pipeline's Redis is a run of the pipeline that leaves none pending. */
  method DrainRuns(c: EventConsumer.Consumer, ghost s: State) returns (claimed: nat, ghost steps: seq<Step>)
    requires s.redis == c.redis.State() && s.log == c.log && OneFate(s) && c.readBatchSize > 0
    modifies c.redis
    ensures forall i :: 0 <= i < |steps| ==> steps[i].Record? || steps[i].Drop?
    ensures Run(s, steps).redis == c.redis.State() && c.redis.pending == {} && claimed == |s.redis.pending|
    ensures Run(s, steps).pg == s.pg && Run(s, steps).writers == s.writers
  {
    OneFateIsValid(s);
    ghost var batches, processed;
    claimed, batches, processed := c.DrainPending();
    steps := ProcessingIsRun(s, processed, {});
  }

  // ---- A flush ------------------------------------------------------------------------------------------

  predicate PushStep(step: Step, w: nat) {
    step == Commit(w) || (step.Capture? && step.w == w) || (step.CaptureLast? && step.w == w)
    || (step.Reconcile? && step.w == w)
  }

  predicate FlushStep(step: Step, w: nat) {
    PushStep(step, w) || (step.Clean? && step.w == w) || step == Crash(w)
  }

  function Overlay<K>(under: map<K, int>, over: map<K, int>, keys: set<K>): map<K, int>
    requires keys <= over.Keys
  {
    map k | k in under.Keys + keys :: if k in keys then over[k] else under[k]
  }

  lemma OverlayMore<K>(under: map<K, int>, over: map<K, int>, keys: set<K>, k: K)
    requires k in keys && keys <= over.Keys
    ensures Overlay(under, over, keys - {k})[k := over[k]] == Overlay(under, over, keys)
  {
  }

  lemma OverlayNone<K>(under: map<K, int>, over: map<K, int>)
    ensures Overlay(under, over, {}) == under
  {
  }

  lemma SameWriter(s: State, w: nat)
    requires w in s.writers
    ensures With(s, w, s.writers[w]) == s
  {
    assert s.writers[w := s.writers[w]] == s.writers;
  }

  lemma OneMoreWriter(s: State, w: nat, first: Writer, second: Writer)
    ensures With(With(s, w, first), w, second) == With(s, w, second)
  {
    assert s.writers[w := first][w := second] == s.writers[w := second];
  }

  lemma {:induction false} CaptureFields(s: State, w: nat, cutoff: Day, snap: RedisSnapshot, todo: set<Bucket>)
    returns (steps: seq<Step>)
    requires w in s.writers && s.writers[w] == Capturing(cutoff, snap) && todo <= s.redis.counts.Keys
    ensures forall i :: 0 <= i < |steps| ==> PushStep(steps[i], w)
    ensures Run(s, steps) == With(s, w, Capturing(cutoff, snap.(daily := Overlay(snap.daily, s.redis.counts, todo))))
    decreases |todo|
  {
    if todo == {} {
      steps := [];
      OverlayNone(snap.daily, s.redis.counts);
      SameWriter(s, w);
    } else {
      var b :| b in todo;
      var rest := CaptureFields(s, w, cutoff, snap, todo - {b});
      var daily := Overlay(snap.daily, s.redis.counts, todo - {b});
      CaptureOne(s, w, cutoff, snap.(daily := daily), b);
      Push(s, rest, Capture(w, b));
      steps := rest + [Capture(w, b)];
      OverlayMore(snap.daily, s.redis.counts, todo, b);
    }
  }

  lemma CaptureOne(s: State, w: nat, cutoff: Day, snap: RedisSnapshot, b: Bucket)
    requires b in s.redis.counts
    ensures Next(With(s, w, Capturing(cutoff, snap)), Capture(w, b))
      == With(s, w, Capturing(cutoff, snap.(daily := snap.daily[b := s.redis.counts[b]])))
  {
    OneMoreWriter(s, w, Capturing(cutoff, snap), Capturing(cutoff, snap.(daily := snap.daily[b := s.redis.counts[b]])));
  }

  lemma {:induction false} CaptureTimes(s: State, w: nat, cutoff: Day, snap: RedisSnapshot, todo: set<Code>)
    returns (steps: seq<Step>)
    requires w in s.writers && s.writers[w] == Capturing(cutoff, snap)
    requires todo <= s.redis.last.Keys && todo <= LinkCodes(snap.daily.Keys)
    ensures forall i :: 0 <= i < |steps| ==> PushStep(steps[i], w)
    ensures Run(s, steps) == With(s, w, Capturing(cutoff, snap.(last := Overlay(snap.last, s.redis.last, todo))))
    decreases |todo|
  {
    if todo == {} {
      steps := [];
      OverlayNone(snap.last, s.redis.last);
      SameWriter(s, w);
    } else {
      var code :| code in todo;
      var rest := CaptureTimes(s, w, cutoff, snap, todo - {code});
      var last := Overlay(snap.last, s.redis.last, todo - {code});
      CaptureOneTime(s, w, cutoff, snap.(last := last), code);
      Push(s, rest, CaptureLast(w, code));
      steps := rest + [CaptureLast(w, code)];
      OverlayMore(snap.last, s.redis.last, todo, code);
    }
  }

  lemma CaptureOneTime(s: State, w: nat, cutoff: Day, snap: RedisSnapshot, code: Code)
    requires code in s.redis.last && code in LinkCodes(snap.daily.Keys)
    ensures Next(With(s, w, Capturing(cutoff, snap)), CaptureLast(w, code))
      == With(s, w, Capturing(cutoff, snap.(last := snap.last[code := s.redis.last[code]])))
  {
    var later := snap.(last := snap.last[code := s.redis.last[code]]);
    OneMoreWriter(s, w, Capturing(cutoff, snap), Capturing(cutoff, later));
  }

  /** Everything the capture reads, field by field. */
  lemma CaptureIsRun(s: State, w: nat, cutoff: Day) returns (steps: seq<Step>)
    requires w in s.writers && s.writers[w] == Capturing(cutoff, EMPTY_SNAPSHOT)
    ensures forall i :: 0 <= i < |steps| ==> PushStep(steps[i], w)
    ensures Run(s, steps)
      == With(s, w, Capturing(cutoff, SnapshotOf(s.redis.counts, s.redis.last, cutoff).(stale := {})))
  {
    var counts, last := s.redis.counts, s.redis.last;
    var fields := CaptureFields(s, w, cutoff, EMPTY_SNAPSHOT, counts.Keys);
    assert Overlay(map[], counts, counts.Keys) == counts;
    var mid := Run(s, fields);
    var codes := LinkCodes(counts.Keys) * last.Keys;
    var times := CaptureTimes(mid, w, cutoff, RedisSnapshot(counts, map[], {}), codes);
    assert Overlay(map[], last, codes) == LastClickedAt(last, LinkCodes(counts.Keys));
    Chain(s, fields, times);
    steps := fields + times;
  }

  lemma {:induction false} ReconcileIsRun(s: State, w: nat, snap: RedisSnapshot, outcome: MergeOutcome,
                                          todo: set<Bucket>)
    returns (steps: seq<Step>)
    requires w in s.writers && s.writers[w] == Reconciling(snap, outcome, {}) && todo <= outcome.committed.Keys
    ensures forall i :: 0 <= i < |steps| ==> PushStep(steps[i], w)
    ensures var counts := Pushed(s.redis.counts, outcome.committed, outcome.committed.Keys - todo);
      Run(s, steps) == With(WithCounts(s, counts), w, Reconciling(snap, outcome, todo))
    decreases |todo|
  {
    var committed := outcome.committed;
    if todo == {} {
      steps := [];
      PushNothing(s.redis.counts, committed, {});
      assert {} + committed.Keys == committed.Keys - todo;
      SameWriter(s, w);
    } else {
      var b :| b in todo;
      var rest := ReconcileIsRun(s, w, snap, outcome, todo - {b});
      var counts := Pushed(s.redis.counts, committed, committed.Keys - (todo - {b}));
      ReconcileOne(s, w, snap, outcome, todo - {b}, counts, b);
      Push(s, rest, Reconcile(w, b));
      steps := rest + [Reconcile(w, b)];
      OneMoreReconcile(s.redis.counts, committed, todo, b);
    }
  }

  lemma ReconcileOne(s: State, w: nat, snap: RedisSnapshot, outcome: MergeOutcome, done: set<Bucket>,
                     counts: map<Bucket, int>, b: Bucket)
    requires b in outcome.committed
    ensures Next(With(WithCounts(s, counts), w, Reconciling(snap, outcome, done)), Reconcile(w, b))
      == With(WithCounts(s, HMax(counts, b, outcome.committed[b])), w, Reconciling(snap, outcome, done + {b}))
  {
    OneMoreWriter(s, w, Reconciling(snap, outcome, done), Reconciling(snap, outcome, done + {b}));
  }

  lemma OneMoreReconcile(counts: map<Bucket, int>, rows: map<Bucket, int>, todo: set<Bucket>, b: Bucket)
    requires b in todo && todo <= rows.Keys
    ensures HMax(Pushed(counts, rows, rows.Keys - (todo - {b})), b, rows[b]) == Pushed(counts, rows, rows.Keys - todo)
    ensures todo - {b} + {b} == todo
  {
  }

  lemma {:induction false} CleanIsRun(s: State, w: nat, todo: set<Bucket>) returns (steps: seq<Step>)
    requires w in s.writers && s.writers[w].Reconciling? && todo <= s.writers[w].snap.stale * s.writers[w].reconciled
    requires forall b :: b in todo && b in s.redis.counts ==>
      s.redis.counts[b] == Get(s.writers[w].outcome.committed, b)
    ensures forall i :: 0 <= i < |steps| ==> FlushStep(steps[i], w)
    ensures todo == {} ==> steps == []
    ensures Run(s, steps) == WithCounts(s, s.redis.counts - todo)
    decreases |todo|
  {
    if todo == {} {
      steps := [];
      assert s.redis.counts - todo == s.redis.counts;
    } else {
      var b :| b in todo;
      var rest := CleanIsRun(s, w, todo - {b});
      Push(s, rest, Clean(w, b));
      steps := rest + [Clean(w, b)];
      RemoveOne(s.redis.counts, todo - {b}, b, Get(s.writers[w].outcome.committed, b));
      assert todo - {b} + {b} == todo;
    }
  }

  /** The state after a flush, as Persistence.Flush states it: nothing has changed if it failed, nothing was pushed
      back if the connection failed after the commit. */
  ghost function Flushed(s: State, w: nat, cutoff: Day, faults: Faults, text: ScriptText, ok: bool): State {
    if !ok then s.(writers := s.writers - {w})
    else if faults.connection then AfterCommit(s, w, cutoff)
    else CleanedUp(s, w, cutoff, faults, text)
  }

  ghost function CleanedUp(s: State, w: nat, cutoff: Day, faults: Faults, text: ScriptText): State {
    var snap := SnapshotOf(s.redis.counts, s.redis.last, cutoff);
    var outcome := Outcome(s.pg, snap);
    var after := Pushed(s.redis.counts, outcome.committed, faults.hmax) - Removed(snap, faults, text);
    With(WithCounts(s.(pg := Merged(s.pg, snap)), after), w,
         Reconciling(snap, outcome, outcome.committed.Keys - faults.hmax))
  }

  lemma StaleMakesNoMerge(t: Tables, snap: RedisSnapshot)
    ensures Merged(t, snap.(stale := {})) == Merged(t, snap)
    ensures Outcome(t, snap.(stale := {})) == Outcome(t, snap)
  {
    var bare := snap.(stale := {});
    var deltas := Deltas(t.daily, snap.daily);
    assert forall code :: Touched(bare, deltas, code) <==> Touched(snap, deltas, code);
    assert UpdatedLinks(t.links, bare, deltas) == UpdatedLinks(t.links, snap, deltas);
  }

  lemma CommitOfCapture(s: State, w: nat, cutoff: Day)
    ensures var snap := SnapshotOf(s.redis.counts, s.redis.last, cutoff);
      Next(With(s, w, Capturing(cutoff, snap.(stale := {}))), Commit(w)) == AfterCommit(s, w, cutoff)
  {
    var snap := SnapshotOf(s.redis.counts, s.redis.last, cutoff);
    StaleMakesNoMerge(s.pg, snap);
    CommitOne(s, w, cutoff, snap.(stale := {}));
  }

  lemma CommitOne(s: State, w: nat, cutoff: Day, snap: RedisSnapshot)
    ensures Next(With(s, w, Capturing(cutoff, snap)), Commit(w))
      == With(s.(pg := Merged(s.pg, snap)), w,
              Reconciling(snap.(stale := StaleFields(snap.daily, cutoff)), Outcome(s.pg, snap), {}))
  {
    var whole := snap.(stale := StaleFields(snap.daily, cutoff));
    OneMoreWriter(s, w, Capturing(cutoff, snap), Reconciling(whole, Outcome(s.pg, snap), {}));
  }

  // What the cleanup removes after the pushes: fields whose value is the committed one.
  lemma RemovedAreCommitted(t: Tables, snap: RedisSnapshot, faults: Faults, text: ScriptText, b: Bucket)
    requires snap.stale <= snap.daily.Keys && b in Removed(snap, faults, text)
    ensures var committed := Committed(t.daily, snap.daily);
      b in committed && b !in faults.hmax && Pushed(snap.daily, committed, faults.hmax)[b] == committed[b]
  {
  }

  lemma CleanRest(s: State, w: nat, cutoff: Day, faults: Faults, text: ScriptText) returns (steps: seq<Step>)
    ensures forall i :: 0 <= i < |steps| ==> FlushStep(steps[i], w)
    ensures text.AsWritten? ==> steps == []
    ensures Run(BeforeCleanup(s, w, cutoff, faults), steps) == CleanedUp(s, w, cutoff, faults, text)
  {
    var snap := SnapshotOf(s.redis.counts, s.redis.last, cutoff);
    var before := BeforeCleanup(s, w, cutoff, faults);
    forall b | b in Removed(snap, faults, text)
      ensures b in snap.stale * before.writers[w].reconciled
      ensures before.redis.counts[b] == Get(before.writers[w].outcome.committed, b)
    {
      RemovedAreCommitted(s.pg, snap, faults, text, b);
    }
    steps := CleanIsRun(before, w, Removed(snap, faults, text));
  }

  ghost function BeforeCleanup(s: State, w: nat, cutoff: Day, faults: Faults): State {
    var snap := SnapshotOf(s.redis.counts, s.redis.last, cutoff);
    var outcome := Outcome(s.pg, snap);
    With(WithCounts(s.(pg := Merged(s.pg, snap)), Pushed(s.redis.counts, outcome.committed, faults.hmax)), w,
         Reconciling(snap, outcome, outcome.committed.Keys - faults.hmax))
  }

  lemma PushesToCleanup(s: State, w: nat, cutoff: Day, faults: Faults) returns (steps: seq<Step>)
    ensures forall i :: 0 <= i < |steps| ==> PushStep(steps[i], w)
    ensures Run(AfterCommit(s, w, cutoff), steps) == BeforeCleanup(s, w, cutoff, faults)
  {
    var snap := SnapshotOf(s.redis.counts, s.redis.last, cutoff);
    var outcome := Outcome(s.pg, snap);
    var done := outcome.committed.Keys - faults.hmax;
    steps := ReconcileIsRun(AfterCommit(s, w, cutoff), w, snap, outcome, done);
    SameFailures(s.redis.counts, outcome.committed, faults.hmax);
    OneMoreWriter(s, w, Reconciling(snap, outcome, {}), Reconciling(snap, outcome, done));
  }

  lemma SameFailures(counts: map<Bucket, int>, rows: map<Bucket, int>, failed: set<Bucket>)
    ensures Pushed(counts, rows, rows.Keys - (rows.Keys - failed)) == Pushed(counts, rows, failed)
  {
    assert Without(rows, rows.Keys - (rows.Keys - failed)) == Without(rows, failed);
  }

  ghost function AfterCommit(s: State, w: nat, cutoff: Day): State {
    var snap := SnapshotOf(s.redis.counts, s.redis.last, cutoff);
    With(s.(pg := Merged(s.pg, snap)), w, Reconciling(snap, Outcome(s.pg, snap), {}))
  }

  lemma CommitIsRun(s: State, w: nat, cutoff: Day) returns (steps: seq<Step>)
    ensures forall i :: 0 <= i < |steps| ==> PushStep(steps[i], w)
    ensures Run(Next(s, Begin(w, cutoff)), steps) == AfterCommit(s, w, cutoff)
  {
    var begun := Next(s, Begin(w, cutoff));
    var capture := CaptureIsRun(begun, w, cutoff);
    var snap := SnapshotOf(s.redis.counts, s.redis.last, cutoff);
    OneMoreWriter(s, w, Capturing(cutoff, EMPTY_SNAPSHOT), Capturing(cutoff, snap.(stale := {})));
    CommitOfCapture(s, w, cutoff);
    Push(begun, capture, Commit(w));
    steps := capture + [Commit(w)];
  }

  lemma AbortIsRun(s: State, w: nat, cutoff: Day) returns (steps: seq<Step>)
    ensures forall i :: 0 <= i < |steps| ==> FlushStep(steps[i], w) && !steps[i].Clean?
    ensures Run(Next(s, Begin(w, cutoff)), steps) == s.(writers := s.writers - {w})
  {
    var begun := Next(s, Begin(w, cutoff));
    var capture := CaptureIsRun(begun, w, cutoff);
    Push(begun, capture, Crash(w));
    assert Run(begun, capture).writers - {w} == s.writers - {w};
    steps := capture + [Crash(w)];
  }

  lemma CleanupIsRun(s: State, w: nat, cutoff: Day, faults: Faults, text: ScriptText) returns (steps: seq<Step>)
    ensures forall i :: 0 <= i < |steps| ==> FlushStep(steps[i], w) && (text.AsWritten? ==> !steps[i].Clean?)
    ensures Run(Next(s, Begin(w, cutoff)), steps) == CleanedUp(s, w, cutoff, faults, text)
  {
    var begun := Next(s, Begin(w, cutoff));
    var commit := CommitIsRun(s, w, cutoff);
    var pushes := PushesToCleanup(s, w, cutoff, faults);
    var cleanup := CleanRest(s, w, cutoff, faults, text);
    Chain(begun, commit, pushes);
    Chain(begun, commit + pushes, cleanup);
    steps := commit + pushes + cleanup;
  }

  /** A flush, whatever fails in it, is a run of one writer's steps, and with the script as written none of them
      cleans. FlushRuns ties the state to the method. */
  lemma FlushIsRun(s: State, w: nat, today: Day, faults: Faults, text: ScriptText, ok: bool) returns (steps: seq<Step>)
    ensures forall i :: 0 <= i < |steps| ==> FlushStep(steps[i], w) && (text.AsWritten? ==> !steps[i].Clean?)
    ensures Run(Next(s, Begin(w, StaleCutoff(today))), steps) == Flushed(s, w, StaleCutoff(today), faults, text, ok)
  {
    if !ok {
      steps := AbortIsRun(s, w, StaleCutoff(today));
    } else if faults.connection {
      steps := CommitIsRun(s, w, StaleCutoff(today));
    } else {
      steps := CleanupIsRun(s, w, StaleCutoff(today), faults, text);
    }
  }

  /** Whenever the pipeline is where the objects are, a call of Flush takes both to the same place. */
  method FlushRuns(p: Persistence, ghost s: State, ghost w: nat, today: Day, faults: Faults, text: ScriptText)
    returns (ok: bool, ghost steps: seq<Step>)
    requires s.redis == p.redis.State() && s.pg == p.db.State()
    modifies p.redis`counts, p.db
    ensures forall i :: 0 <= i < |steps| ==> FlushStep(steps[i], w) && (text.AsWritten? ==> !steps[i].Clean?)
    ensures var after := Run(Next(s, Begin(w, StaleCutoff(today))), steps);
      && after == Flushed(s, w, StaleCutoff(today), faults, text, ok)
      && after.redis == p.redis.State() && after.pg == p.db.State()
  {
    ok := p.Flush(today, faults, text);
    steps := FlushIsRun(s, w, today, faults, text, ok);
  }

  lemma {:induction false} OneWriterIsGentle(s: State, steps: seq<Step>, w: nat, b: Bucket)
    requires forall i :: 0 <= i < |steps| ==> FlushStep(steps[i], w)
    ensures GentleRun(s, steps, b) && TotalsSafeRun(s, steps)
    decreases |steps|
  {
    if steps != [] { OneWriterIsGentle(s, steps[..|steps| - 1], w, b); }
  }

  /** So a flush by the only writer, failed or not and whatever fails in it, leaves every bucket's count as it was,
      keeps the running totals right and lets no count exceed the clicks applied. */
  lemma FlushConserves(s: State, w: nat, today: Day, faults: Faults, text: ScriptText, ok: bool, b: Bucket)
    requires Sound(s) && Settled(s, b) && s.writers.Keys <= {w}
    ensures var after := Flushed(s, w, StaleCutoff(today), faults, text, ok);
      && Sound(after) && Settled(after, b) && Logical(after, b) == Logical(s, b)
      && (Consistent(s.pg) ==> Consistent(after.pg))
  {
    var begin := Begin(w, StaleCutoff(today));
    var begun := Next(s, begin);
    var steps := FlushIsRun(s, w, today, faults, text, ok);
    StepConserves(s, begin, b);
    NextKeepsSound(s, begin);
    OneWriterIsGentle(begun, steps, w, b);
    RunConserves(begun, steps, b);
    var after := Flushed(s, w, StaleCutoff(today), faults, text, ok);
    assert Conservation.Applied(after, b) == Conservation.Applied(begun, b);
  }

  // ---- A rehydration ------------------------------------------------------------------------------------

  predicate RestoreOf(step: Step, w: nat) {
    (step.Load? && step.w == w) || (step.Restore? && step.w == w)
  }

  lemma {:induction false} LoadIsRun(s: State, w: nat, since: Day, todo: set<Bucket>) returns (steps: seq<Step>)
    requires todo <= Window(s.pg.daily, since).Keys
    ensures forall i :: 0 <= i < |steps| ==> RestoreOf(steps[i], w)
    ensures Run(With(s, w, Restoring(since, map[])), steps)
      == With(s, w, Restoring(since, Overlay(map[], s.pg.daily, todo)))
    decreases |todo|
  {
    if todo == {} {
      steps := [];
      OverlayNone(map[], s.pg.daily);
    } else {
      var b :| b in todo;
      var rest := LoadIsRun(s, w, since, todo - {b});
      var rows := Overlay(map[], s.pg.daily, todo - {b});
      Push(With(s, w, Restoring(since, map[])), rest, Load(w, b));
      LoadOne(s, w, since, rows, b);
      OverlayMore(map[], s.pg.daily, todo, b);
      steps := rest + [Load(w, b)];
    }
  }

  lemma LoadOne(s: State, w: nat, since: Day, rows: map<Bucket, int>, b: Bucket)
    requires b in s.pg.daily && b.day >= since
    ensures Next(With(s, w, Restoring(since, rows)), Load(w, b))
      == With(s, w, Restoring(since, rows[b := s.pg.daily[b]]))
  {
    OneMoreWriter(s, w, Restoring(since, rows), Restoring(since, rows[b := s.pg.daily[b]]));
  }

  lemma {:induction false} RestoreIsRun(s: State, w: nat, todo: set<Bucket>) returns (steps: seq<Step>)
    requires w in s.writers && s.writers[w].Restoring? && todo <= s.writers[w].rows.Keys
    ensures forall i :: 0 <= i < |steps| ==> RestoreOf(steps[i], w)
    ensures var rows := s.writers[w].rows;
      Run(s, steps) == WithCounts(s, Pushed(s.redis.counts, rows, rows.Keys - todo))
    decreases |todo|
  {
    var rows := s.writers[w].rows;
    if todo == {} {
      steps := [];
      PushNothing(s.redis.counts, rows, {});
      assert {} + rows.Keys == rows.Keys - todo;
    } else {
      var b :| b in todo;
      var rest := RestoreIsRun(s, w, todo - {b});
      Push(s, rest, Restore(w, b));
      OneMoreReconcile(s.redis.counts, rows, todo, b);
      steps := rest + [Restore(w, b)];
    }
  }

  // The state after a rehydration, as Persistence.Rehydrate states it.
  ghost function Rehydrated(s: State, w: nat, since: Day, failed: set<Bucket>): State {
    var rows := Window(s.pg.daily, since);
    With(WithCounts(s, Pushed(s.redis.counts, rows, failed)), w, Restoring(since, rows))
  }

  /** A rehydration, whichever of its commands fail, is a run of one writer's steps. */
  lemma RehydrateIsRun(s: State, w: nat, since: Day, failed: set<Bucket>) returns (steps: seq<Step>)
    ensures forall i :: 0 <= i < |steps| ==> RestoreOf(steps[i], w)
    ensures Run(Next(s, BeginRestore(w, since)), steps) == Rehydrated(s, w, since, failed)
  {
    var rows := Window(s.pg.daily, since);
    var begun := Next(s, BeginRestore(w, since));
    var loads := LoadIsRun(s, w, since, rows.Keys);
    assert Overlay(map[], s.pg.daily, rows.Keys) == rows;
    var loaded := With(s, w, Restoring(since, rows));
    var pushes := RestoreIsRun(loaded, w, rows.Keys - failed);
    SameFailures(s.redis.counts, rows, failed);
    Chain(begun, loads, pushes);
    steps := loads + pushes;
  }

  lemma {:induction false} RestoreIsGentle(s: State, steps: seq<Step>, w: nat, b: Bucket)
    requires forall i :: 0 <= i < |steps| ==> RestoreOf(steps[i], w)
    ensures GentleRun(s, steps, b)
    decreases |steps|
  {
    if steps != [] { RestoreIsGentle(s, steps[..|steps| - 1], w, b); }
  }

  /** A rehydration by the only writer, even one whose commands fail in part, changes no bucket's count. */
  lemma RehydrateConserves(s: State, w: nat, since: Day, failed: set<Bucket>, b: Bucket)
    requires Sound(s) && Settled(s, b) && s.writers.Keys <= {w}
    ensures var after := Rehydrated(s, w, since, failed);
      Sound(after) && Settled(after, b) && Logical(after, b) == Logical(s, b)
  {
    var begin := BeginRestore(w, since);
    var begun := Next(s, begin);
    var steps := RehydrateIsRun(s, w, since, failed);
    StepConserves(s, begin, b);
    NextKeepsSound(s, begin);
    RestoreIsGentle(begun, steps, w, b);
    RunConserves(begun, steps, b);
    var after := Rehydrated(s, w, since, failed);
    assert Conservation.Applied(after, b) == Conservation.Applied(begun, b);
  }

  /** Whenever the pipeline is where the objects are, a call of Rehydrate that gets through takes both to the same
      place; one that does not leaves Redis as it is. */
  method RehydrateRuns(p: Persistence, ghost s: State, ghost w: nat, today: Day, queryFails: bool,
                       connectionFails: bool, failed: set<Bucket>)
    returns (ok: bool, ghost steps: seq<Step>)
    requires s.redis == p.redis.State() && s.pg == p.db.State()
    modifies p.redis`counts
    ensures !ok ==> p.redis.State() == s.redis
    ensures ok ==> forall i :: 0 <= i < |steps| ==> RestoreOf(steps[i], w)
    ensures ok ==> var after := Run(Next(s, BeginRestore(w, RollingWindowStart(today))), steps);
      && after == Rehydrated(s, w, RollingWindowStart(today), failed)
      && after.redis == p.redis.State() && after.pg == p.db.State()
  {
    ok := p.Rehydrate(today, queryFails, connectionFails, failed);
    steps := RehydrateIsRun(s, w, RollingWindowStart(today), failed);
  }

  // ---- Segments that begin with a rehydration -----------------------------------------------------------

  lemma RehydratedIsSound(s: State, w: nat, since: Day, failed: set<Bucket>)
    requires Sound(s)
    ensures Sound(Rehydrated(s, w, since, failed))
  {
    var steps := RehydrateIsRun(s, w, since, failed);
    NextKeepsSound(s, BeginRestore(w, since));
    RunKeepsSound(Next(s, BeginRestore(w, since)), steps);
  }

  /** A complete rehydration by the only writer, whatever Redis held before, settles every bucket of its window, and
      every older one but those whose field is behind its row; the former start with the greater of field and row, and
      are fresh. */
  lemma RehydrateSettles(s: State, w: nat, since: Day, b: Bucket)
    requires Sound(s) && s.writers.Keys <= {w} && Lands(s.pg.links, b)
    requires b.day >= since || b !in s.redis.counts || s.redis.counts[b] >= Get(s.pg.daily, b)
    ensures var r := Rehydrated(s, w, since, {});
      && Settled(r, b)
      && (b.day >= since ==> Fresh(r, b) && Logical(r, b) == Kept(s, b))
      && Conservation.Applied(r, b) == Conservation.Applied(s, b)
  {
    var r := Rehydrated(s, w, since, {});
    assert r.writers.Keys == {w};
    assert b in s.pg.daily ==> s.pg.daily[b] >= 0;
    assert b in s.redis.counts ==> s.redis.counts[b] >= 0;
  }

  /** From then on the bucket's count is exact for as long as one writer at a time flushes and the day is not past a
      flush's cutoff: what was kept before, plus the distinct clicks applied since, whenever they come. */
  lemma CountedSinceRehydration(s: State, w: nat, since: Day, steps: seq<Step>, b: Bucket)
    requires Sound(s) && s.writers.Keys <= {w} && Lands(s.pg.links, b) && b.day >= since
    requires InWindowRun(Rehydrated(s, w, since, {}), steps, b)
    ensures var after := Run(Rehydrated(s, w, since, {}), steps);
      && Logical(after, b) == Kept(s, b) + Conservation.Applied(after, b) - Conservation.Applied(s, b)
      && Settled(after, b) && Fresh(after, b)
  {
    var r := Rehydrated(s, w, since, {});
    RehydrateSettles(s, w, since, b);
    RehydratedIsSound(s, w, since, {});
    InWindowRunIsGentle(r, steps, b);
    RunConserves(r, steps, b);
  }

  /** The same for the totals, over any gentle run after the rehydration, if no field older than the window is behind
      its row. */
  lemma TotalsSinceRehydration(s: State, w: nat, since: Day, steps: seq<Step>, g: Group)
    requires Sound(s) && s.writers.Keys <= {w} && (g.Of? ==> g.code in s.pg.links)
    requires forall day :: var b := BucketOf(g, day);
      day >= since || b !in s.redis.counts || s.redis.counts[b] >= Get(s.pg.daily, b)
    requires forall day :: GentleRun(Rehydrated(s, w, since, {}), steps, BucketOf(g, day))
    ensures var r := Rehydrated(s, w, since, {});
      var after := Run(r, steps);
      && (g.Of? ==> g.code in after.pg.links)
      && Balance(after, g) - Balance(r, g) == |Clicked(after, g)| - |Clicked(s, g)|
  {
    var r := Rehydrated(s, w, since, {});
    RehydratedIsSound(s, w, since, {});
    forall day
      ensures Settled(r, BucketOf(g, day))
    {
      RehydrateSettles(s, w, since, BucketOf(g, day));
    }
    EveryClickCounted(r, steps, g);
    assert Clicked(r, g) == Clicked(s, g);
  }

  /** With the script as written no flush ever removes a field, so stale days stay for good. */
  lemma {:induction false} AsWrittenForgetsNothing(s: State, w: nat, today: Day, faults: Faults, ok: bool,
                                                   steps: seq<Step>)
    requires forall step :: step in steps ==> !step.Clean? && !step.Wipe?
    ensures s.redis.counts.Keys
      <= Run(Flushed(s, w, StaleCutoff(today), faults, AsWritten, ok), steps).redis.counts.Keys
  {
    var flush := FlushIsRun(s, w, today, faults, AsWritten, ok);
    var begun := Next(s, Begin(w, StaleCutoff(today)));
    FieldsStay(begun, flush);
    FieldsStay(Run(begun, flush), steps);
  }

  // ---- What a capture hands over ------------------------------------------------------------------------

  ghost predicate PositiveTimes(last: map<Code, int>) {
    forall code :: code in last ==> last[code] > UNIX_EPOCH
  }

  ghost predicate WriterTimes(w: Writer) {
    match w
    case Capturing(_, snap) => PositiveTimes(snap.last) && snap.last.Keys <= LinkCodes(snap.daily.Keys)
    case Reconciling(snap, _, _) => PositiveTimes(snap.last) && snap.last.Keys <= LinkCodes(snap.daily.Keys)
    case Restoring(_, _) => true
  }

  /** Every stored and every captured click time is after the epoch, and a snapshot has times only for its links. */
  ghost predicate Timed(s: State) {
    PositiveTimes(s.redis.last) && forall w :: w in s.writers ==> WriterTimes(s.writers[w])
  }

  lemma CapturesKeepTimed(s: State, w: nat, b: Bucket, code: Code)
    requires Timed(s) && w in s.writers
    ensures Timed(CaptureStep(s, w, b)) && Timed(CaptureLastStep(s, w, code))
  {
    assert WriterTimes(s.writers[w]);
    if s.writers[w].Capturing? && b in s.redis.counts {
      var daily := s.writers[w].snap.daily;
      MoreCodes(daily.Keys, daily[b := s.redis.counts[b]].Keys);
    }
  }

  lemma MoreCodes(few: set<Bucket>, many: set<Bucket>)
    requires few <= many
    ensures LinkCodes(few) <= LinkCodes(many)
  {
    forall code | code in LinkCodes(few)
      ensures code in LinkCodes(many)
    {
      var b :| b in few && b.Link? && b.code == code;
      assert b in many;
    }
  }

  lemma NextKeepsTimed(s: State, step: Step)
    requires Timed(s)
    ensures Timed(Next(s, step))
  {
    match step
    case Capture(w, b) => if w in s.writers { CapturesKeepTimed(s, w, b, Code("")); }
    case CaptureLast(w, code) => if w in s.writers { CapturesKeepTimed(s, w, Global(0), code); }
    case Commit(w) => CommitsKeepTimed(s, w, map[], Code(""));
    case CommitTorn(w, read) => CommitsKeepTimed(s, w, read, Code(""));
    case CommitAroundCreate(w, code) => CommitsKeepTimed(s, w, map[], code);
    case _ => OthersKeepTimed(s, step);
  }

  lemma CommitsKeepTimed(s: State, w: nat, read: map<Bucket, int>, code: Code)
    requires Timed(s)
    ensures Timed(CommitStep(s, w)) && Timed(CommitTornStep(s, w, read)) && Timed(CommitAroundCreateStep(s, w, code))
  {
    assert w in s.writers ==> WriterTimes(s.writers[w]);
  }

  lemma OthersKeepTimed(s: State, step: Step)
    requires Timed(s) && !step.Capture? && !step.CaptureLast?
    requires !step.Commit? && !step.CommitTorn? && !step.CommitAroundCreate?
    ensures Timed(Next(s, step))
  {
    assert forall w :: w in s.writers ==> WriterTimes(s.writers[w]);
  }

  /** In every state of every run from the empty system, what a writer is about to merge, and what a capture of the
      whole store would give, is a snapshot of the kind MergeJoin is about. */
  lemma {:induction false} SnapshotsAreCaptured(steps: seq<Step>, cutoff: Day)
    ensures var s := Run(INIT, steps);
      && Sound(s) && Timed(s) && MergeJoin.Captured(SnapshotOf(s.redis.counts, s.redis.last, cutoff))
      && forall w :: w in s.writers && s.writers[w].Capturing? ==> MergeJoin.Captured(s.writers[w].snap)
    decreases |steps|
  {
    if steps == [] {
      InitIsSound();
    } else {
      SnapshotsAreCaptured(steps[..|steps| - 1], cutoff);
      NextKeepsSound(Run(INIT, steps[..|steps| - 1]), steps[|steps| - 1]);
      NextKeepsTimed(Run(INIT, steps[..|steps| - 1]), steps[|steps| - 1]);
    }
    CapturedNow(Run(INIT, steps), cutoff);
  }

  lemma CapturedNow(s: State, cutoff: Day)
    requires Sound(s) && Timed(s)
    ensures MergeJoin.Captured(SnapshotOf(s.redis.counts, s.redis.last, cutoff))
    ensures forall w :: w in s.writers && s.writers[w].Capturing? ==> MergeJoin.Captured(s.writers[w].snap)
  {
    forall w | w in s.writers && s.writers[w].Capturing?
      ensures MergeJoin.Captured(s.writers[w].snap)
    {
      assert WriterBounded(s.writers[w], s.log, s.applied) && WriterTimes(s.writers[w]);
    }
  }
}
