/** When the pipeline loses nothing: exact counts over runs of one writer, and what cleanup may remove. */
module Conservation {
  import opened Counts
  import opened Snapshot
  import opened PgSnapshotRepo
  import opened MergeLaws
  import opened RedisStats
  import opened Pipeline

  /** A bucket's count: its Redis field if there is one, otherwise its Postgres row. */
  function Logical(s: State, b: Bucket): int {
    if b in s.redis.counts then s.redis.counts[b] else Get(s.pg.daily, b)
  }

  function Applied(s: State, b: Bucket): int {
    |HitSet(s.log, s.applied, b)|
  }

  predicate Applies(s: State, step: Step, b: Bucket) {
    step.Record? && step.id in s.redis.pending && step.id < |s.log| && Hits(s.log[step.id], b)
  }

  // ---- One bucket ---------------------------------------------------------------------------------------

  ghost predicate WriterSettled(w: Writer, s: State, b: Bucket) {
    match w
    case Capturing(_, snap) => b in snap.daily ==> snap.daily[b] <= Logical(s, b)
    case Reconciling(_, outcome, _) => b in outcome.committed ==> outcome.committed[b] == Get(s.pg.daily, b)
    case Restoring(_, rows) => b in rows ==> rows[b] == Get(s.pg.daily, b)
  }

  /** At most one writer; the bucket's link, if it has one, exists; a field in Redis is not behind its row. */
  ghost predicate Settled(s: State, b: Bucket) {
    && Lands(s.pg.links, b)
    && (b in s.redis.counts ==> s.redis.counts[b] >= Get(s.pg.daily, b))
    && (forall v, w :: v in s.writers && w in s.writers ==> v == w)
    && (forall w :: w in s.writers ==> WriterSettled(s.writers[w], s, b))
  }

  /** What a step must not do to the bucket: a second writer, an overtaken merge, a wipe, the deletion of the link, or
      a late click: one on a field that is no longer in Redis while Postgres has counted clicks for it. */
  predicate Gentle(s: State, step: Step, b: Bucket) {
    match step
    case Begin(w, _) => s.writers.Keys <= {w}
    case BeginRestore(w, _) => s.writers.Keys <= {w}
    case Wipe => false
    case CommitTorn(_, _) => false
    case DeleteLink(code) => !(b.Link? && b.code == code)
    case Record(_) => Applies(s, step, b) ==> b in s.redis.counts || Get(s.pg.daily, b) == 0
    case _ => true
  }

  lemma HistoryStep(s: State, step: Step)
    ensures Next(s, step).log == if step.Append? then s.log + [step.event] else s.log
    ensures Next(s, step).applied == if step.Record? && step.id in s.redis.pending && step.id < |s.log|
      && s.log[step.id].Some? then s.applied + {step.id} else s.applied
  {
  }

  lemma HitsAppend(log: seq<Option<Click>>, applied: set<nat>, event: Option<Click>, b: Bucket)
    requires forall i :: i in applied ==> i < |log|
    ensures HitSet(log + [event], applied, b) == HitSet(log, applied, b)
  {
  }

  lemma HitsRecord(log: seq<Option<Click>>, applied: set<nat>, id: nat, b: Bucket)
    requires id < |log| && id !in applied
    ensures |HitSet(log, applied + {id}, b)| == |HitSet(log, applied, b)| + if Hits(log[id], b) then 1 else 0
  {
    var more := if Hits(log[id], b) then {id} else {};
    assert HitSet(log, applied + {id}, b) == HitSet(log, applied, b) + more;
  }

  lemma AppliedStep(s: State, step: Step, b: Bucket)
    requires OneFate(s)
    ensures Applied(Next(s, step), b) == Applied(s, b) + if Applies(s, step, b) then 1 else 0
  {
    HistoryStep(s, step);
    match step
    case Append(event) =>
      assert forall i :: i in s.applied ==> Fate(s, i);
      HitsAppend(s.log, s.applied, event, b);
    case Record(id) =>
      assert Fate(s, id);
      if id in s.redis.pending && id < |s.log| { HitsRecord(s.log, s.applied, id, b); }
    case _ =>
  }

  lemma CommitConserves(s: State, w: nat, b: Bucket)
    requires Settled(s, b) && NeverOver(s) && w in s.writers && s.writers[w].Capturing?
    ensures Settled(CommitStep(s, w), b) && Logical(CommitStep(s, w), b) == Logical(s, b)
  {
    assert WriterSettled(s.writers[w], s, b) && WriterBounded(s.writers[w], s.log, s.applied);
  }

  // The tables of a commit around the creation of a link differ from those of a commit in that link alone.
  lemma CommitAroundCreateConserves(s: State, w: nat, code: Code, b: Bucket)
    requires Settled(s, b) && NeverOver(s)
    ensures Settled(CommitAroundCreateStep(s, w, code), b)
    ensures Logical(CommitAroundCreateStep(s, w, code), b) == Logical(s, b)
  {
    if w in s.writers && s.writers[w].Capturing? && code !in s.pg.links {
      CommitConserves(s, w, b);
      var after, plain := CommitAroundCreateStep(s, w, code), CommitStep(s, w);
      assert after.pg.daily == plain.pg.daily && after.writers == plain.writers && after.redis == plain.redis;
      assert forall v :: v in plain.writers ==> WriterSettled(plain.writers[v], plain, b);
    }
  }

  lemma RecordConserves(s: State, id: nat, b: Bucket)
    requires Settled(s, b) && Gentle(s, Record(id), b)
    ensures Settled(RecordStep(s, id), b)
    ensures Logical(RecordStep(s, id), b) == Logical(s, b) + if Applies(s, Record(id), b) then 1 else 0
  {
    var next := RecordStep(s, id);
    assert Logical(next, b) == Logical(s, b) + if Applies(s, Record(id), b) then 1 else 0;
    assert forall w :: w in s.writers ==> WriterSettled(s.writers[w], s, b);
  }

  lemma CaptureConserves(s: State, w: nat, field: Bucket, code: Code, b: Bucket)
    requires Settled(s, b) && w in s.writers
    ensures Settled(CaptureStep(s, w, field), b) && Logical(CaptureStep(s, w, field), b) == Logical(s, b)
    ensures Settled(CaptureLastStep(s, w, code), b) && Logical(CaptureLastStep(s, w, code), b) == Logical(s, b)
    ensures Settled(LoadStep(s, w, field), b) && Logical(LoadStep(s, w, field), b) == Logical(s, b)
  {
    assert WriterSettled(s.writers[w], s, b);
  }

  lemma HmaxConserves(s: State, w: nat, field: Bucket, b: Bucket)
    requires Settled(s, b) && w in s.writers
    ensures Settled(ReconcileStep(s, w, field), b) && Logical(ReconcileStep(s, w, field), b) == Logical(s, b)
    ensures Settled(RestoreStep(s, w, field), b) && Logical(RestoreStep(s, w, field), b) == Logical(s, b)
  {
    assert WriterSettled(s.writers[w], s, b);
  }

  lemma CleanConserves(s: State, w: nat, field: Bucket, b: Bucket)
    requires Settled(s, b) && w in s.writers && StaleCommitted(s)
    ensures Settled(CleanStep(s, w, field), b) && Logical(CleanStep(s, w, field), b) == Logical(s, b)
  {
    assert WriterSettled(s.writers[w], s, b);
  }

  // Steps that touch neither the bucket nor the writer.
  lemma OtherConserves(s: State, step: Step, b: Bucket)
    requires Settled(s, b) && Gentle(s, step, b)
    requires step.Append? || step.Deliver? || step.Claim? || step.Drop? || step.Begin? || step.BeginRestore?
      || step.Crash? || step.CreateLink? || step.DeleteLink?
    ensures Settled(Next(s, step), b) && Logical(Next(s, step), b) == Logical(s, b)
  {
    assert forall w :: w in s.writers ==> WriterSettled(s.writers[w], s, b);
  }

  lemma StepConserves(s: State, step: Step, b: Bucket)
    requires Sound(s) && Settled(s, b) && Gentle(s, step, b)
    ensures Settled(Next(s, step), b)
    ensures Logical(Next(s, step), b) == Logical(s, b) + if Applies(s, step, b) then 1 else 0
  {
    match step
    case Commit(w) => if w in s.writers && s.writers[w].Capturing? { CommitConserves(s, w, b); }
    case Capture(w, field) => if w in s.writers { CaptureConserves(s, w, field, Code(""), b); }
    case CaptureLast(w, code) => if w in s.writers { CaptureConserves(s, w, b, code, b); }
    case Load(w, field) => if w in s.writers { CaptureConserves(s, w, field, Code(""), b); }
    case Reconcile(w, field) => if w in s.writers { HmaxConserves(s, w, field, b); }
    case Restore(w, field) => if w in s.writers { HmaxConserves(s, w, field, b); }
    case Clean(w, field) => if w in s.writers { CleanConserves(s, w, field, b); }
    case CommitAroundCreate(w, code) => CommitAroundCreateConserves(s, w, code, b);
    case Record(id) => RecordConserves(s, id, b);
    case _ => if !step.Wipe? && !step.CommitTorn? { OtherConserves(s, step, b); }
  }

  ghost predicate GentleRun(s: State, steps: seq<Step>, b: Bucket) {
    steps == [] ||
    (GentleRun(s, steps[..|steps| - 1], b) && Gentle(Run(s, steps[..|steps| - 1]), steps[|steps| - 1], b))
  }

  /** Exact conservation of one bucket, in every state of every gentle run: mid-capture, between commit,
      reconciliation and cleanup, and across any number of flushes and crashes. */
  lemma {:induction false} RunConserves(s: State, steps: seq<Step>, b: Bucket)
    requires Sound(s) && Settled(s, b) && GentleRun(s, steps, b)
    ensures Settled(Run(s, steps), b) && Sound(Run(s, steps))
    ensures Consistent(s.pg) && TotalsSafeRun(s, steps) ==> Consistent(Run(s, steps).pg)
    ensures Logical(Run(s, steps), b) - Logical(s, b) == Applied(Run(s, steps), b) - Applied(s, b)
    decreases |steps|
  {
    if steps != [] {
      var before := Run(s, steps[..|steps| - 1]);
      RunConserves(s, steps[..|steps| - 1], b);
      StepConserves(before, steps[|steps| - 1], b);
      AppliedStep(before, steps[|steps| - 1], b);
      NextKeepsSound(before, steps[|steps| - 1]);
    }
    if Consistent(s.pg) && TotalsSafeRun(s, steps) { RunKeepsTotals(s, steps); }
  }

  // ---- Clicks that are never late -----------------------------------------------------------------------

  /** Redis holds the bucket's field if Postgres has clicks for it, and every captured field is still in Redis. */
  ghost predicate Held(s: State, b: Bucket) {
    && (b in s.redis.counts || Get(s.pg.daily, b) == 0)
    && forall w :: w in s.writers && s.writers[w].Capturing? && b in s.writers[w].snap.daily ==> b in s.redis.counts
  }

  ghost predicate StillCurrent(w: Writer, b: Bucket) {
    match w
    case Capturing(cutoff, _) => cutoff <= b.day
    case Reconciling(snap, _, _) => b !in snap.stale
    case Restoring(_, _) => true
  }

  /** And no writer takes its day for stale. */
  ghost predicate Fresh(s: State, b: Bucket) {
    Held(s, b) && forall w :: w in s.writers ==> StillCurrent(s.writers[w], b)
  }

  lemma CommitKeepsHeld(s: State, w: nat, read: map<Bucket, int>, code: Code, b: Bucket)
    requires Held(s, b)
    ensures Held(CommitStep(s, w), b) && Held(CommitTornStep(s, w, read), b)
    ensures Held(CommitAroundCreateStep(s, w, code), b)
  {
  }

  lemma ReadsKeepHeld(s: State, w: nat, field: Bucket, code: Code, b: Bucket)
    requires Held(s, b)
    ensures Held(CaptureStep(s, w, field), b) && Held(CaptureLastStep(s, w, code), b) && Held(LoadStep(s, w, field), b)
  {
  }

  lemma OthersKeepHeld(s: State, step: Step, b: Bucket)
    requires Held(s, b) && (b in s.redis.counts ==> b in Next(s, step).redis.counts)
    requires !step.Commit? && !step.CommitTorn? && !step.CommitAroundCreate?
    requires !step.Capture? && !step.CaptureLast? && !step.Load?
    ensures Held(Next(s, step), b)
  {
  }

  // Whatever the step, with any number of writers: as long as the field stays in Redis.
  lemma NextKeepsHeld(s: State, step: Step, b: Bucket)
    requires Held(s, b) && (b in s.redis.counts ==> b in Next(s, step).redis.counts)
    ensures Held(Next(s, step), b)
  {
    match step
    case Commit(w) => CommitKeepsHeld(s, w, map[], Code(""), b);
    case CommitTorn(w, read) => CommitKeepsHeld(s, w, read, Code(""), b);
    case CommitAroundCreate(w, code) => CommitKeepsHeld(s, w, map[], code, b);
    case Capture(w, field) => ReadsKeepHeld(s, w, field, Code(""), b);
    case CaptureLast(w, code) => ReadsKeepHeld(s, w, b, code, b);
    case Load(w, field) => ReadsKeepHeld(s, w, field, Code(""), b);
    case _ => OthersKeepHeld(s, step, b);
  }

  /** One writer at a time, no wipe, the link stays, and flushes only while the bucket's day is not past their cutoff.
      Clicks may come at any time. */
  predicate InWindow(s: State, step: Step, b: Bucket) {
    match step
    case Begin(w, cutoff) => s.writers.Keys <= {w} && cutoff <= b.day
    case BeginRestore(w, _) => s.writers.Keys <= {w}
    case Wipe => false
    case CommitTorn(_, _) => false
    case DeleteLink(code) => !(b.Link? && b.code == code)
    case _ => true
  }

  lemma NextKeepsCurrent(s: State, step: Step, b: Bucket)
    requires (forall w :: w in s.writers ==> StillCurrent(s.writers[w], b)) && InWindow(s, step, b)
    ensures forall w :: w in Next(s, step).writers ==> StillCurrent(Next(s, step).writers[w], b)
  {
  }

  lemma NextKeepsFresh(s: State, step: Step, b: Bucket)
    requires Fresh(s, b) && InWindow(s, step, b)
    ensures Gentle(s, step, b) && Fresh(Next(s, step), b)
  {
    NextKeepsCurrent(s, step, b);
    if step.Clean? && step.w in s.writers { assert StillCurrent(s.writers[step.w], b); }
    NextKeepsHeld(s, step, b);
  }

  ghost predicate InWindowRun(s: State, steps: seq<Step>, b: Bucket) {
    steps == [] ||
    (InWindowRun(s, steps[..|steps| - 1], b) && InWindow(Run(s, steps[..|steps| - 1]), steps[|steps| - 1], b))
  }

  /** No click is late as long as its day is within the window of every flush: then the count is exact with no
      condition on the clicks. */
  lemma {:induction false} InWindowRunIsGentle(s: State, steps: seq<Step>, b: Bucket)
    requires Fresh(s, b) && InWindowRun(s, steps, b)
    ensures GentleRun(s, steps, b) && Fresh(Run(s, steps), b)
    decreases |steps|
  {
    if steps != [] {
      InWindowRunIsGentle(s, steps[..|steps| - 1], b);
      NextKeepsFresh(Run(s, steps[..|steps| - 1]), steps[|steps| - 1], b);
    }
  }

  /** The system with the compare-and-delete script as written, which deletes nothing: one writer at a time, and Redis
      keeps its contents. */
  predicate AsWrittenStep(s: State, step: Step) {
    match step
    case Begin(w, _) => s.writers.Keys <= {w}
    case BeginRestore(w, _) => s.writers.Keys <= {w}
    case CommitTorn(_, _) => false
    case Clean(_, _) => false
    case Wipe => false
    case _ => true
  }

  lemma AsWrittenKeepsHeld(s: State, step: Step, b: Bucket)
    requires Held(s, b) && AsWrittenStep(s, step) && Keeps(step, b)
    ensures Gentle(s, step, b) && Held(Next(s, step), b)
  {
    NextKeepsHeld(s, step, b);
  }

  ghost predicate AsWrittenRun(s: State, steps: seq<Step>) {
    steps == [] ||
    (AsWrittenRun(s, steps[..|steps| - 1]) && AsWrittenStep(Run(s, steps[..|steps| - 1]), steps[|steps| - 1]))
  }

  /** There no click is ever late, on whatever day. */
  lemma {:induction false} AsWrittenRunIsGentle(s: State, steps: seq<Step>, b: Bucket)
    requires Held(s, b) && AsWrittenRun(s, steps)
    requires forall i :: 0 <= i < |steps| ==> Keeps(steps[i], b)
    ensures GentleRun(s, steps, b) && Held(Run(s, steps), b)
    decreases |steps|
  {
    if steps != [] {
      AsWrittenRunIsGentle(s, steps[..|steps| - 1], b);
      AsWrittenKeepsHeld(Run(s, steps[..|steps| - 1]), steps[|steps| - 1], b);
    }
  }

  /** Under one writer, cleanup removes a field only when Postgres holds its whole count, so a click that arrived
      since the capture keeps its field. */
  lemma CleanRemovesOnlyFlushed(s: State, w: nat, b: Bucket)
    requires Sound(s) && Settled(s, b) && b in s.redis.counts && b !in Next(s, Clean(w, b)).redis.counts
    ensures s.redis.counts[b] == Get(s.pg.daily, b)
  {
    assert WriterSettled(s.writers[w], s, b);
  }

  // ---- Any number of writers: nothing counted is ever given back -----------------------------------------

  function Kept(s: State, b: Bucket): int {
    Max(Get(s.redis.counts, b), Get(s.pg.daily, b))
  }

  /** What any writer believes committed for the bucket is still in Postgres. */
  ghost predicate Anchored(s: State, b: Bucket) {
    && Lands(s.pg.links, b)
    && forall w :: w in s.writers && s.writers[w].Reconciling? && b in s.writers[w].outcome.committed ==>
         s.writers[w].outcome.committed[b] <= Get(s.pg.daily, b)
  }

  predicate Keeps(step: Step, b: Bucket) {
    !step.Wipe? && !(step.DeleteLink? && b == Link(step.code, b.day))
  }

  lemma CommitKeeps(s: State, w: nat, b: Bucket)
    requires NeverOver(s) && Anchored(s, b) && w in s.writers && s.writers[w].Capturing?
    ensures Anchored(CommitStep(s, w), b) && Kept(CommitStep(s, w), b) >= Kept(s, b)
  {
    assert WriterBounded(s.writers[w], s.log, s.applied);
  }

  // A merge, overtaken or not, raises the row to the captured count, and commits no more than that.
  lemma TornRow(read: map<Bucket, int>, t: Tables, snap: RedisSnapshot, b: Bucket)
    requires Locked(read, t.daily) && Lands(t.links, b) && NonNegative(t.daily) && NonNegative(snap.daily)
    ensures Get(MergedAgainst(read, t, snap).daily, b) == Max(Get(t.daily, b), Get(snap.daily, b))
    ensures b in snap.daily ==> Committed(read, snap.daily)[b] <= Get(MergedAgainst(read, t, snap).daily, b)
    ensures Lands(MergedAgainst(read, t, snap).links, b)
  {
  }

  lemma CommitTornKeeps(s: State, w: nat, read: map<Bucket, int>, b: Bucket)
    requires NeverOver(s) && Anchored(s, b) && w in s.writers && s.writers[w].Capturing?
    ensures Anchored(CommitTornStep(s, w, read), b) && Kept(CommitTornStep(s, w, read), b) >= Kept(s, b)
  {
    assert WriterBounded(s.writers[w], s.log, s.applied);
    if Locked(read, s.pg.daily) { TornRow(read, s.pg, s.writers[w].snap, b); }
  }

  lemma CommitAroundCreateKeeps(s: State, w: nat, code: Code, b: Bucket)
    requires NeverOver(s) && Anchored(s, b)
    ensures Anchored(CommitAroundCreateStep(s, w, code), b) && Kept(CommitAroundCreateStep(s, w, code), b) >= Kept(s, b)
  {
    if w in s.writers && s.writers[w].Capturing? && code !in s.pg.links {
      CommitKeeps(s, w, b);
      var after, plain := CommitAroundCreateStep(s, w, code), CommitStep(s, w);
      assert after.pg.daily == plain.pg.daily && after.writers == plain.writers && after.redis == plain.redis;
    }
  }

  lemma HmaxKeeps(s: State, w: nat, field: Bucket, b: Bucket)
    requires Anchored(s, b) && w in s.writers && NeverOver(s)
    ensures Anchored(ReconcileStep(s, w, field), b) && Kept(ReconcileStep(s, w, field), b) >= Kept(s, b)
    ensures Anchored(RestoreStep(s, w, field), b) && Kept(RestoreStep(s, w, field), b) >= Kept(s, b)
  {
    assert WriterBounded(s.writers[w], s.log, s.applied);
  }

  lemma CleanKeeps(s: State, w: nat, field: Bucket, b: Bucket)
    requires Anchored(s, b) && w in s.writers && StaleCommitted(s)
    ensures Anchored(CleanStep(s, w, field), b) && Kept(CleanStep(s, w, field), b) >= Kept(s, b)
  {
  }

  lemma CapturesKeep(s: State, w: nat, field: Bucket, code: Code, b: Bucket)
    requires Anchored(s, b) && w in s.writers
    ensures Anchored(CaptureStep(s, w, field), b) && Kept(CaptureStep(s, w, field), b) >= Kept(s, b)
    ensures Anchored(CaptureLastStep(s, w, code), b) && Kept(CaptureLastStep(s, w, code), b) >= Kept(s, b)
    ensures Anchored(LoadStep(s, w, field), b) && Kept(LoadStep(s, w, field), b) >= Kept(s, b)
  {
  }

  lemma RecordKeeps(s: State, id: nat, b: Bucket)
    requires NeverOver(s) && Anchored(s, b)
    ensures Anchored(RecordStep(s, id), b) && Kept(RecordStep(s, id), b) >= Kept(s, b)
  {
  }

  lemma OthersKeep(s: State, step: Step, b: Bucket)
    requires NeverOver(s) && Anchored(s, b) && Keeps(step, b)
    requires step.Append? || step.Deliver? || step.Claim? || step.Drop? || step.Begin? || step.BeginRestore?
      || step.Crash? || step.CreateLink? || step.DeleteLink?
    ensures Anchored(Next(s, step), b) && Kept(Next(s, step), b) >= Kept(s, b)
  {
  }

  /** Every step other than a wipe or the deletion of the link keeps max(Redis, Postgres) from decreasing, with
      any number of writers in any phase. */
  lemma KeptNeverDecreases(s: State, step: Step, b: Bucket)
    requires Sound(s) && Anchored(s, b) && Keeps(step, b)
    ensures Anchored(Next(s, step), b) && Kept(Next(s, step), b) >= Kept(s, b)
  {
    match step
    case Commit(w) => if w in s.writers && s.writers[w].Capturing? { CommitKeeps(s, w, b); }
    case CommitTorn(w, read) => if w in s.writers && s.writers[w].Capturing? { CommitTornKeeps(s, w, read, b); }
    case Restore(w, field) => if w in s.writers { HmaxKeeps(s, w, field, b); }
    case Reconcile(w, field) => if w in s.writers { HmaxKeeps(s, w, field, b); }
    case Clean(w, field) => if w in s.writers { CleanKeeps(s, w, field, b); }
    case Capture(w, field) => if w in s.writers { CapturesKeep(s, w, field, Code(""), b); }
    case CaptureLast(w, code) => if w in s.writers { CapturesKeep(s, w, b, code, b); }
    case Load(w, field) => if w in s.writers { CapturesKeep(s, w, field, Code(""), b); }
    case Record(id) => RecordKeeps(s, id, b);
    case CommitAroundCreate(w, code) => CommitAroundCreateKeeps(s, w, code, b);
    case _ => OthersKeep(s, step, b);
  }

  lemma {:induction false} RunKeepsCounts(s: State, steps: seq<Step>, b: Bucket)
    requires Sound(s) && Anchored(s, b) && forall step :: step in steps ==> Keeps(step, b)
    ensures Anchored(Run(s, steps), b) && Kept(Run(s, steps), b) >= Kept(s, b)
    decreases |steps|
  {
    if steps != [] {
      RunKeepsCounts(s, steps[..|steps| - 1], b);
      RunKeepsSound(s, steps[..|steps| - 1]);
      KeptNeverDecreases(Run(s, steps[..|steps| - 1]), steps[|steps| - 1], b);
    }
  }

  /** Without a deletion by the cleanup or a wipe no field ever leaves Redis. */
  lemma {:induction false} FieldsStay(s: State, steps: seq<Step>)
    requires forall step :: step in steps ==> !step.Clean? && !step.Wipe?
    ensures s.redis.counts.Keys <= Run(s, steps).redis.counts.Keys
    decreases |steps|
  {
    if steps != [] { FieldsStay(s, steps[..|steps| - 1]); }
  }

  // ---- Exactly which clicks count -----------------------------------------------------------------------

  /** The field, absent counting zero, is not behind its row. A click at any other time is late. */
  predicate Timely(s: State, b: Bucket) {
    Get(s.redis.counts, b) >= Get(s.pg.daily, b)
  }

  /** An applied click adds to what survives if and only if it is not late. */
  lemma ClickCountsIffNotLate(s: State, id: nat, b: Bucket)
    requires Applies(s, Record(id), b)
    ensures Kept(Next(s, Record(id)), b) == Kept(s, b) + (if Timely(s, b) then 1 else 0)
    ensures Kept(Next(s, Record(id)), b) == Kept(s, b) + 1 <==> Timely(s, b)
  {
  }

  /** A wipe loses nothing of the bucket if and only if its row has the field's count. */
  lemma WipeKeepsIffFlushed(s: State, b: Bucket)
    requires NonNegative(s.pg.daily)
    ensures Kept(Next(s, Wipe), b) == Kept(s, b) <==> Get(s.redis.counts, b) <= Get(s.pg.daily, b)
  {
  }

  // For a settled bucket that is the condition of gentle runs.
  lemma SettledTimelyIff(s: State, b: Bucket)
    requires Settled(s, b) && NeverOver(s)
    ensures Timely(s, b) <==> b in s.redis.counts || Get(s.pg.daily, b) == 0
    ensures Logical(s, b) == Kept(s, b)
  {
  }

  ghost predicate WriterTracked(w: Writer, s: State, b: Bucket) {
    match w
    case Capturing(_, snap) => b in snap.daily ==> snap.daily[b] <= Kept(s, b)
    case Reconciling(_, outcome, _) => b in outcome.committed ==> outcome.committed[b] <= Get(s.pg.daily, b)
    case Restoring(_, rows) => b in rows ==> rows[b] <= Get(s.pg.daily, b)
  }

  /** No writer, of however many, carries more for the bucket than is kept. */
  ghost predicate Tracked(s: State, b: Bucket) {
    Lands(s.pg.links, b) && forall w :: w in s.writers ==> WriterTracked(s.writers[w], s, b)
  }

  // The bucket's kept count is the same and every writer is tracked again.
  ghost predicate Same(s: State, next: State, b: Bucket) {
    Tracked(next, b) && Kept(next, b) == Kept(s, b)
  }

  lemma CommitTracked(s: State, w: nat, b: Bucket)
    requires NeverOver(s) && Tracked(s, b) && w in s.writers && s.writers[w].Capturing?
    ensures Same(s, CommitStep(s, w), b)
  {
    assert WriterBounded(s.writers[w], s.log, s.applied) && WriterTracked(s.writers[w], s, b);
  }

  lemma CommitTornTracked(s: State, w: nat, read: map<Bucket, int>, b: Bucket)
    requires NeverOver(s) && Tracked(s, b) && w in s.writers && s.writers[w].Capturing?
    ensures Same(s, CommitTornStep(s, w, read), b)
  {
    assert WriterBounded(s.writers[w], s.log, s.applied) && WriterTracked(s.writers[w], s, b);
    if Locked(read, s.pg.daily) {
      TornRow(read, s.pg, s.writers[w].snap, b);
      var next := CommitTornStep(s, w, read);
      assert next.pg.daily == MergedAgainst(read, s.pg, s.writers[w].snap).daily && next.redis == s.redis;
      assert Kept(next, b) == Kept(s, b);
      assert WriterTracked(next.writers[w], next, b);
    }
  }

  lemma TrackedAlike(s: State, t: State, b: Bucket)
    requires Tracked(s, b) && Lands(t.pg.links, b)
    requires t.redis == s.redis && t.pg.daily == s.pg.daily && t.writers == s.writers
    ensures Same(s, t, b)
  {
    assert forall w :: w in s.writers ==> WriterTracked(s.writers[w], s, b);
  }

  lemma CommitAroundCreateTracked(s: State, w: nat, code: Code, b: Bucket)
    requires NeverOver(s) && Tracked(s, b)
    ensures Same(s, CommitAroundCreateStep(s, w, code), b)
  {
    if w in s.writers && s.writers[w].Capturing? && code !in s.pg.links {
      CommitTracked(s, w, b);
      TrackedAlike(CommitStep(s, w), CommitAroundCreateStep(s, w, code), b);
    }
  }

  lemma ReconcileTracked(s: State, w: nat, field: Bucket, b: Bucket)
    requires NeverOver(s) && Tracked(s, b) && w in s.writers
    ensures Same(s, ReconcileStep(s, w, field), b)
  {
    assert WriterBounded(s.writers[w], s.log, s.applied) && WriterTracked(s.writers[w], s, b);
  }

  lemma RestoreTracked(s: State, w: nat, field: Bucket, b: Bucket)
    requires NeverOver(s) && Tracked(s, b) && w in s.writers
    ensures Same(s, RestoreStep(s, w, field), b)
  {
    assert WriterBounded(s.writers[w], s.log, s.applied) && WriterTracked(s.writers[w], s, b);
  }

  lemma CleanTracked(s: State, w: nat, field: Bucket, b: Bucket)
    requires NeverOver(s) && StaleCommitted(s) && Tracked(s, b) && w in s.writers
    ensures Same(s, CleanStep(s, w, field), b)
  {
    assert WriterBounded(s.writers[w], s.log, s.applied) && WriterTracked(s.writers[w], s, b);
  }

  lemma ReadsTracked(s: State, w: nat, field: Bucket, code: Code, b: Bucket)
    requires Tracked(s, b) && w in s.writers
    ensures Same(s, CaptureStep(s, w, field), b) && Same(s, CaptureLastStep(s, w, code), b)
    ensures Same(s, LoadStep(s, w, field), b)
  {
    assert WriterTracked(s.writers[w], s, b);
  }

  lemma RecordTracked(s: State, id: nat, b: Bucket)
    requires Tracked(s, b)
    ensures Tracked(RecordStep(s, id), b)
    ensures Kept(RecordStep(s, id), b) == Kept(s, b) + (if Applies(s, Record(id), b) && Timely(s, b) then 1 else 0)
  {
    assert forall w :: w in s.writers ==> WriterTracked(s.writers[w], s, b);
  }

  lemma OthersTracked(s: State, step: Step, b: Bucket)
    requires Tracked(s, b) && Keeps(step, b)
    requires step.Append? || step.Deliver? || step.Claim? || step.Drop? || step.Begin? || step.BeginRestore?
      || step.Crash? || step.CreateLink? || step.DeleteLink?
    ensures Same(s, Next(s, step), b)
  {
    assert forall w :: w in s.writers ==> WriterTracked(s.writers[w], s, b);
  }

  lemma StepCountsTimely(s: State, step: Step, b: Bucket)
    requires Sound(s) && Tracked(s, b) && Keeps(step, b)
    ensures Tracked(Next(s, step), b)
    ensures Kept(Next(s, step), b) == Kept(s, b) + if Applies(s, step, b) && Timely(s, b) then 1 else 0
  {
    match step
    case Commit(w) => if w in s.writers && s.writers[w].Capturing? { CommitTracked(s, w, b); }
    case CommitTorn(w, read) => if w in s.writers && s.writers[w].Capturing? { CommitTornTracked(s, w, read, b); }
    case CommitAroundCreate(w, code) => CommitAroundCreateTracked(s, w, code, b);
    case Restore(w, field) => if w in s.writers { RestoreTracked(s, w, field, b); }
    case Reconcile(w, field) => if w in s.writers { ReconcileTracked(s, w, field, b); }
    case Clean(w, field) => if w in s.writers { CleanTracked(s, w, field, b); }
    case Capture(w, field) => if w in s.writers { ReadsTracked(s, w, field, Code(""), b); }
    case CaptureLast(w, code) => if w in s.writers { ReadsTracked(s, w, b, code, b); }
    case Load(w, field) => if w in s.writers { ReadsTracked(s, w, field, Code(""), b); }
    case Record(id) => RecordTracked(s, id, b);
    case _ => OthersTracked(s, step, b);
  }

  // The clicks on the bucket that a run applies in time, and those it applies late.
  ghost function TimelyClicks(s: State, steps: seq<Step>, b: Bucket): nat {
    if steps == [] then 0
    else
      var before, last := Run(s, steps[..|steps| - 1]), steps[|steps| - 1];
      TimelyClicks(s, steps[..|steps| - 1], b) + if Applies(before, last, b) && Timely(before, b) then 1 else 0
  }

  ghost function LateClicks(s: State, steps: seq<Step>, b: Bucket): nat {
    if steps == [] then 0
    else
      var before, last := Run(s, steps[..|steps| - 1]), steps[|steps| - 1];
      LateClicks(s, steps[..|steps| - 1], b) + if Applies(before, last, b) && !Timely(before, b) then 1 else 0
  }

  /** With any number of writers, overtaken merges included, and any cleanups and crashes: what survives of a bucket
      grows by exactly the clicks applied in time, which are the applied clicks less the late ones. */
  lemma {:induction false} RunCountsTimely(s: State, steps: seq<Step>, b: Bucket)
    requires Sound(s) && Tracked(s, b) && forall step :: step in steps ==> Keeps(step, b)
    ensures Sound(Run(s, steps)) && Tracked(Run(s, steps), b)
    ensures Kept(Run(s, steps), b) == Kept(s, b) + TimelyClicks(s, steps, b)
    ensures Applied(Run(s, steps), b) == Applied(s, b) + TimelyClicks(s, steps, b) + LateClicks(s, steps, b)
    decreases |steps|
  {
    if steps != [] {
      var before, last := Run(s, steps[..|steps| - 1]), steps[|steps| - 1];
      RunCountsTimely(s, steps[..|steps| - 1], b);
      assert last in steps;
      StepCountsTimely(before, last, b);
      AppliedStep(before, last, b);
      NextKeepsSound(before, last);
    }
  }

  // ---- Click times --------------------------------------------------------------------------------------

  predicate ClickOf(s: State, i: nat, code: Code) {
    i in s.applied && i < |s.log| && s.log[i].Some? && s.log[i].value.code == code
  }

  /** The stored time is that of an applied click, and no applied click of the code after the epoch is later. */
  ghost predicate LatestClick(s: State, code: Code) {
    && (code in s.redis.last ==> s.redis.last[code] > UNIX_EPOCH)
    && (code in s.redis.last ==> exists i: nat :: ClickOf(s, i, code) && s.log[i].value.ts == s.redis.last[code])
    && forall i: nat :: ClickOf(s, i, code) && s.log[i].value.ts > UNIX_EPOCH ==>
         code in s.redis.last && s.redis.last[code] >= s.log[i].value.ts
  }

  lemma RecordKeepsLatest(s: State, id: nat, code: Code)
    requires OneFate(s) && LatestClick(s, code)
    ensures LatestClick(RecordStep(s, id), code)
  {
    var next := RecordStep(s, id);
    assert forall i: nat :: ClickOf(s, i, code) ==> ClickOf(next, i, code);
    if id in s.redis.pending && id < |s.log| && s.log[id].Some? && s.log[id].value.code == code {
      assert ClickOf(next, id, code);
    }
  }

  lemma NextKeepsLatest(s: State, step: Step, code: Code)
    requires OneFate(s) && LatestClick(s, code) && !step.Wipe?
    ensures LatestClick(Next(s, step), code)
  {
    if step.Record? {
      RecordKeepsLatest(s, step.id, code);
    } else {
      var next := Next(s, step);
      assert next.redis.last == s.redis.last;
      assert forall i :: i in s.applied ==> Fate(s, i);
      assert forall i: nat :: ClickOf(next, i, code) <==> ClickOf(s, i, code);
    }
  }

  /** In every run without a wipe, the click time Redis stores for a code is the greatest positive timestamp among the
      applied clicks of the code, and there is none exactly if there is no such click. */
  lemma {:induction false} StoredTimeIsGreatest(steps: seq<Step>, code: Code)
    requires forall i :: 0 <= i < |steps| ==> !steps[i].Wipe?
    ensures LatestClick(Run(INIT, steps), code)
    decreases |steps|
  {
    if steps != [] {
      StoredTimeIsGreatest(steps[..|steps| - 1], code);
      InitIsSound();
      RunKeepsOneFate(INIT, steps[..|steps| - 1]);
      NextKeepsLatest(Run(INIT, steps[..|steps| - 1]), steps[|steps| - 1], code);
    }
  }

  // ---- Totals -------------------------------------------------------------------------------------------

  /** The clicks a running total stands for: all of them, or those of one link. */
  datatype Group = All | Of(code: Code)

  predicate Member(g: Group, e: Option<Click>) {
    e.Some? && (g.Of? ==> e.value.code == g.code)
  }

  function BucketOf(g: Group, day: Day): Bucket {
    if g.All? then Global(day) else Link(g.code, day)
  }

  function Buckets(g: Group, keys: set<Bucket>): set<Bucket> {
    if g.All? then Globals(keys) else OfLink(keys, g.code)
  }

  function RunningTotal(t: Tables, g: Group): int
    requires g.Of? ==> g.code in t.links
  {
    if g.All? then t.total else t.links[g.code].clicks
  }

  function Clicked(s: State, g: Group): set<nat> {
    set i | i in s.applied && i < |s.log| && Member(g, s.log[i])
  }

  lemma OneMoreHit(log: seq<Option<Click>>, applied: set<nat>, g: Group, i: nat, k: Bucket)
    requires i in applied && i < |log| && Member(g, log[i]) && Buckets(g, {k}) == {k}
    ensures |HitSet(log, applied, k)|
      == |HitSet(log, applied - {i}, k)| + if k == BucketOf(g, log[i].value.day) then 1 else 0
  {
    assert k in Buckets(g, {k});
    if k == BucketOf(g, log[i].value.day) {
      assert HitSet(log, applied, k) == HitSet(log, applied - {i}, k) + {i};
    } else {
      assert HitSet(log, applied, k) == HitSet(log, applied - {i}, k);
    }
  }

  // Counted bucket by bucket or entry by entry, the clicks of a group are as many.
  lemma {:induction false} SumOfHits(log: seq<Option<Click>>, applied: set<nat>, g: Group, keys: set<Bucket>)
    requires forall i :: i in applied ==> i < |log| && Member(g, log[i]) && BucketOf(g, log[i].value.day) in keys
    requires Buckets(g, keys) == keys
    ensures Sum(map b | b in keys :: |HitSet(log, applied, b)|, keys) == |applied|
    decreases |applied|
  {
    var sizes := map b | b in keys :: |HitSet(log, applied, b)|;
    if applied == {} {
      assert forall b :: b in keys ==> HitSet(log, applied, b) == {};
      SumNonNegative(sizes, keys);
    } else {
      var i :| i in applied;
      var rest := applied - {i};
      var b := BucketOf(g, log[i].value.day);
      SumOfHits(log, rest, g, keys);
      var fewer := map k | k in keys :: |HitSet(log, rest, k)|;
      forall k | k in keys
        ensures Get(sizes, k) == Get(fewer, k) + if k == b then 1 else 0
      {
        assert k in Buckets(g, keys) && Buckets(g, {k}) == {k};
        OneMoreHit(log, applied, g, i, k);
      }
      SumPick(sizes, keys, b);
      SumPick(fewer, keys, b);
      SumSame(sizes, fewer, keys - {b});
    }
  }

  // The Redis fields of the group, each less its row: what has not reached the running total yet.
  function Unflushed(s: State): map<Bucket, int> {
    map b | b in s.redis.counts :: s.redis.counts[b] - Get(s.pg.daily, b)
  }

  /** The running total in Postgres plus what Redis has not flushed. */
  ghost function Balance(s: State, g: Group): int
    requires g.Of? ==> g.code in s.pg.links
  {
    RunningTotal(s.pg, g) + Sum(Unflushed(s), Buckets(g, s.redis.counts.Keys))
  }

  ghost function GroupDrift(t: Tables, g: Group): int
    requires g.Of? ==> g.code in t.links
  {
    if g.All? then GlobalDrift(t) else LinkDrift(t, g.code)
  }

  // The group's buckets that hold a count or were clicked.
  function KeysOf(s: State, g: Group): set<Bucket> {
    Buckets(g, s.pg.daily.Keys) + Buckets(g, s.redis.counts.Keys)
    + set i | i in Clicked(s, g) :: BucketOf(g, s.log[i].value.day)
  }

  function LogicalOn(s: State, keys: set<Bucket>): map<Bucket, int> {
    map b | b in keys :: Logical(s, b)
  }

  function AppliedOn(s: State, keys: set<Bucket>): map<Bucket, int> {
    map b | b in keys :: Applied(s, b)
  }

  // Added up, the counts of the buckets are the balance, but for the drift of the running total.
  lemma BalanceIsLogical(s: State, g: Group, keys: set<Bucket>)
    requires g.Of? ==> g.code in s.pg.links
    requires KeysOf(s, g) <= keys == Buckets(g, keys)
    ensures Balance(s, g) == GroupDrift(s.pg, g) + Sum(LogicalOn(s, keys), keys)
  {
    var rows, fields := Buckets(g, s.pg.daily.Keys), Buckets(g, s.redis.counts.Keys);
    SumWiden(s.pg.daily, rows, keys);
    SumWiden(Unflushed(s), fields, keys);
    SumAdds(s.pg.daily, Unflushed(s), LogicalOn(s, keys), keys);
  }

  // And so are the clicks applied to them.
  lemma ClickedIsApplied(s: State, g: Group, keys: set<Bucket>)
    requires KeysOf(s, g) <= keys == Buckets(g, keys)
    ensures |Clicked(s, g)| == Sum(AppliedOn(s, keys), keys)
  {
    var clicked := Clicked(s, g);
    forall i | i in clicked
      ensures BucketOf(g, s.log[i].value.day) in keys
    {
      assert BucketOf(g, s.log[i].value.day) in KeysOf(s, g);
    }
    SumOfHits(s.log, clicked, g, keys);
    var sizes := map b | b in keys :: |HitSet(s.log, clicked, b)|;
    forall b | b in keys
      ensures Get(sizes, b) == Get(AppliedOn(s, keys), b)
    {
      SameHits(s, g, b);
    }
    SumSame(sizes, AppliedOn(s, keys), keys);
  }

  lemma SameHits(s: State, g: Group, b: Bucket)
    requires b in Buckets(g, {b})
    ensures HitSet(s.log, Clicked(s, g), b) == HitSet(s.log, s.applied, b)
  {
  }

  lemma KeysAreOfGroup(s: State, g: Group)
    ensures Buckets(g, KeysOf(s, g)) == KeysOf(s, g)
  {
  }

  /** Where each bucket's count is exact, running total plus unflushed counts is the number of distinct clicks. */
  lemma TotalPlusUnflushed(s: State, g: Group)
    requires Consistent(s.pg) && (g.Of? ==> g.code in s.pg.links)
    requires forall day :: Logical(s, BucketOf(g, day)) == Applied(s, BucketOf(g, day))
    ensures Balance(s, g) == |Clicked(s, g)|
  {
    var keys := KeysOf(s, g);
    KeysAreOfGroup(s, g);
    BalanceIsLogical(s, g, keys);
    ClickedIsApplied(s, g, keys);
    forall b | b in keys
      ensures Logical(s, b) == Applied(s, b)
    {
      assert b == BucketOf(g, b.day);
    }
    SumSame(LogicalOn(s, keys), AppliedOn(s, keys), keys);
    if g.Of? { assert LinkDrift(s.pg, g.code) == 0; }
  }

  // Two states whose counts differ, bucket by bucket, by the clicks applied between them.
  lemma BalanceFollowsClicks(s: State, t: State, g: Group)
    requires g.Of? ==> g.code in s.pg.links && g.code in t.pg.links
    requires GroupDrift(t.pg, g) == GroupDrift(s.pg, g)
    requires forall day :: var b := BucketOf(g, day);
      Logical(t, b) - Logical(s, b) == Applied(t, b) - Applied(s, b)
    ensures Balance(t, g) - Balance(s, g) == |Clicked(t, g)| - |Clicked(s, g)|
  {
    var keys := KeysOf(s, g) + KeysOf(t, g);
    KeysAreOfGroup(s, g);
    KeysAreOfGroup(t, g);
    assert Buckets(g, keys) == keys;
    BalanceIsLogical(s, g, keys);
    BalanceIsLogical(t, g, keys);
    ClickedIsApplied(s, g, keys);
    ClickedIsApplied(t, g, keys);
    CrossSum(s, t, g, keys);
  }

  lemma CrossSum(s: State, t: State, g: Group, keys: set<Bucket>)
    requires keys == Buckets(g, keys)
    requires forall day :: var b := BucketOf(g, day);
      Logical(t, b) - Logical(s, b) == Applied(t, b) - Applied(s, b)
    ensures Sum(LogicalOn(t, keys), keys) + Sum(AppliedOn(s, keys), keys)
      == Sum(LogicalOn(s, keys), keys) + Sum(AppliedOn(t, keys), keys)
  {
    var both := map b | b in keys :: Logical(t, b) + Applied(s, b);
    forall b | b in keys
      ensures Logical(t, b) + Applied(s, b) == Logical(s, b) + Applied(t, b)
    {
      assert b == BucketOf(g, b.day);
    }
    SumAdds(LogicalOn(t, keys), AppliedOn(s, keys), both, keys);
    SumAdds(LogicalOn(s, keys), AppliedOn(t, keys), both, keys);
  }

  lemma NextKeepsGroupDrift(s: State, step: Step, g: Group)
    requires NeverOver(s) && !step.CommitTorn? && (g.Of? ==> g.code in s.pg.links && step != DeleteLink(g.code))
    ensures g.Of? ==> g.code in Next(s, step).pg.links
    ensures GroupDrift(Next(s, step).pg, g) == GroupDrift(s.pg, g)
  {
    match step
    case Commit(w) =>
      if w in s.writers && s.writers[w].Capturing? {
        assert WriterBounded(s.writers[w], s.log, s.applied);
        MergeKeepsDrift(s.pg, s.writers[w].snap);
      }
    case CommitAroundCreate(w, code) =>
      if w in s.writers && s.writers[w].Capturing? && code !in s.pg.links {
        assert WriterBounded(s.writers[w], s.log, s.applied);
        MergeAroundCreateKeepsOthers(s.pg, s.writers[w].snap, code);
      }
    case DeleteLink(code) => DeletedKeepsDrift(s.pg, code);
    case _ =>
  }

  lemma {:induction false} RunKeepsGroupDrift(s: State, steps: seq<Step>, g: Group)
    requires Sound(s) && (g.Of? ==> g.code in s.pg.links)
    requires GentleRun(s, steps, BucketOf(g, 0))
    ensures g.Of? ==> g.code in Run(s, steps).pg.links
    ensures GroupDrift(Run(s, steps).pg, g) == GroupDrift(s.pg, g)
    decreases |steps|
  {
    if steps != [] {
      RunKeepsGroupDrift(s, steps[..|steps| - 1], g);
      RunKeepsSound(s, steps[..|steps| - 1]);
      NextKeepsGroupDrift(Run(s, steps[..|steps| - 1]), steps[|steps| - 1], g);
    }
  }

  /** End to end: over any run that is gentle to every bucket of the group, whatever was lost before it and whatever
      its running total was worth, that total in Postgres plus what Redis has not flushed grows by exactly the distinct
      clicks applied. */
  lemma EveryClickCounted(s: State, steps: seq<Step>, g: Group)
    requires Sound(s) && forall day :: Settled(s, BucketOf(g, day)) && GentleRun(s, steps, BucketOf(g, day))
    ensures var after := Run(s, steps);
      && (g.Of? ==> g.code in s.pg.links && g.code in after.pg.links)
      && Balance(after, g) - Balance(s, g) == |Clicked(after, g)| - |Clicked(s, g)|
  {
    var after := Run(s, steps);
    forall day
      ensures var b := BucketOf(g, day); Logical(after, b) - Logical(s, b) == Applied(after, b) - Applied(s, b)
    {
      RunConserves(s, steps, BucketOf(g, day));
    }
    assert Lands(s.pg.links, BucketOf(g, 0));
    RunKeepsGroupDrift(s, steps, g);
    BalanceFollowsClicks(s, after, g);
  }

  /** The whole history of one deployment: from the empty system, all clicks are accounted for. */
  lemma EveryClickCountedFromInit(steps: seq<Step>)
    requires forall day :: GentleRun(INIT, steps, Global(day))
    ensures var after := Run(INIT, steps);
      after.pg.total + Sum(Unflushed(after), Globals(after.redis.counts.Keys)) == |after.applied|
  {
    InitIsSound();
    forall day
      ensures Settled(INIT, BucketOf(All, day)) && GentleRun(INIT, steps, BucketOf(All, day))
    {
      assert BucketOf(All, day) == Global(day);
    }
    EveryClickCounted(INIT, steps, All);
    assert Clicked(INIT, All) == {} && Globals({}) == {};
    RunKeepsSound(INIT, steps);
    AllAreClicked(Run(INIT, steps));
  }

  lemma {:induction false} AsWrittenHasNoWipe(s: State, steps: seq<Step>, day: Day)
    requires AsWrittenRun(s, steps)
    ensures forall i :: 0 <= i < |steps| ==> Keeps(steps[i], Global(day))
    decreases |steps|
  {
    if steps != [] {
      AsWrittenHasNoWipe(s, steps[..|steps| - 1], day);
      assert forall i :: 0 <= i < |steps| - 1 ==> steps[..|steps| - 1][i] == steps[i];
    }
  }

  /** With the script as written, as long as Redis keeps its contents, that holds with no condition on the clicks. */
  lemma EveryClickCountedAsWritten(steps: seq<Step>)
    requires AsWrittenRun(INIT, steps)
    ensures var after := Run(INIT, steps);
      after.pg.total + Sum(Unflushed(after), Globals(after.redis.counts.Keys)) == |after.applied|
  {
    forall day
      ensures GentleRun(INIT, steps, Global(day))
    {
      AsWrittenHasNoWipe(INIT, steps, day);
      AsWrittenRunIsGentle(INIT, steps, Global(day));
    }
    EveryClickCountedFromInit(steps);
  }

  lemma AllAreClicked(s: State)
    requires OneFate(s)
    ensures Clicked(s, All) == s.applied
  {
    assert forall i :: i in s.applied ==> Fate(s, i);
  }

  // ---- Global against links -----------------------------------------------------------------------------

  function OnDay(keys: set<Bucket>, day: Day): set<Bucket> {
    set b | b in keys && b.Link? && b.day == day
  }

  /** The day's global field equals the sum of the day's link fields. */
  ghost predicate DayBalanced(counts: map<Bucket, int>, day: Day) {
    Get(counts, Global(day)) == Sum(counts, OnDay(counts.Keys, day))
  }

  lemma ClickKeepsDayBalanced(counts: map<Bucket, int>, click: Click, day: Day)
    requires DayBalanced(counts, day)
    ensures DayBalanced(HIncr(HIncr(counts, Global(click.day)), Link(click.code, click.day)), day)
  {
    var link := Link(click.code, click.day);
    var after := HIncr(HIncr(counts, Global(click.day)), link);
    var keys := OnDay(counts.Keys, day);
    if click.day == day {
      assert OnDay(after.Keys, day) == keys + {link};
      SumPick(after, keys + {link}, link);
      SumSame(after, counts, keys + {link} - {link});
      SumWiden(counts, keys, keys + {link});
      SumPick(counts, keys + {link}, link);
    } else {
      assert OnDay(after.Keys, day) == keys;
      SumSame(after, counts, keys);
    }
  }

  /** Without hmax and cleanup, in any run from an empty store, each day's global count is the sum of its links'. */
  lemma {:induction false} GlobalCountsEqualLinkCounts(steps: seq<Step>, day: Day)
    requires forall step :: step in steps ==> !step.Reconcile? && !step.Restore? && !step.Clean?
    ensures DayBalanced(Run(INIT, steps).redis.counts, day)
    decreases |steps|
  {
    if steps == [] {
      assert OnDay({}, day) == {};
    } else {
      var before, step := Run(INIT, steps[..|steps| - 1]), steps[|steps| - 1];
      GlobalCountsEqualLinkCounts(steps[..|steps| - 1], day);
      if step.Record? && step.id < |before.log| && before.log[step.id].Some? {
        ClickKeepsDayBalanced(before.redis.counts, before.log[step.id].value, day);
      } else if step.Wipe? {
        assert OnDay({}, day) == {};
      }
    }
  }
}
