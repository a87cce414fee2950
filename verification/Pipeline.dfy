/** The click pipeline as interleaved atomic steps: stream, Redis, writers in the middle of a flush or a
    rehydration, and Postgres. Any number of writers may be at work at once. */
module Pipeline {
  import opened Counts
  import opened Snapshot
  import opened PgSnapshotRepo
  import opened MergeLaws
  import opened RedisStats

  datatype Writer =
    | Capturing(cutoff: Day, snap: RedisSnapshot)
    | Reconciling(snap: RedisSnapshot, outcome: MergeOutcome, reconciled: set<Bucket>)
    | Restoring(since: Day, rows: map<Bucket, int>)

  /** `log` remembers every entry ever appended; `applied`, `dropped` and `lost` (to a wipe) are history. */
  datatype State = State(log: seq<Option<Click>>, redis: Redis, pg: Tables, writers: map<nat, Writer>,
                         applied: set<nat>, dropped: set<nat>, lost: set<nat>)

  datatype Step =
    | Append(event: Option<Click>)
    | Deliver
    | Claim(id: nat)
    | Record(id: nat)
    | Drop(id: nat)
    | Begin(w: nat, cutoff: Day)
    | Capture(w: nat, b: Bucket)
    | CaptureLast(w: nat, code: Code)
    | Commit(w: nat)
    | CommitTorn(w: nat, read: map<Bucket, int>)
    | CommitAroundCreate(w: nat, code: Code)
    | Reconcile(w: nat, b: Bucket)
    | Clean(w: nat, b: Bucket)
    | BeginRestore(w: nat, since: Day)
    | Load(w: nat, b: Bucket)
    | Restore(w: nat, b: Bucket)
    | Crash(w: nat)
    | Wipe
    | CreateLink(code: Code)
    | DeleteLink(code: Code)

  const EMPTY_SNAPSHOT := RedisSnapshot(map[], map[], {})

  function WithCounts(s: State, counts: map<Bucket, int>): State {
    s.(redis := s.redis.(counts := counts))
  }

  // ---- Stream steps -------------------------------------------------------------------------------------

  function AppendStep(s: State, event: Option<Click>): State {
    s.(log := s.log + [event], redis := s.redis.(entries := s.redis.entries + {|s.log|}))
  }

  // XREADGROUP with ">": the next entry after the last delivered one.
  function DeliverStep(s: State): State {
    if s.redis.delivered >= |s.log| then s
    else
      s.(redis := s.redis.(delivered := s.redis.delivered + 1,
           pending := s.redis.pending + (if s.redis.delivered in s.redis.entries then {s.redis.delivered} else {})))
  }

  // XAUTOCLAIM: a pending id that is no longer in the stream is only removed from the pending list.
  function ClaimStep(s: State, id: nat): State {
    if id in s.redis.pending && id !in s.redis.entries then
      s.(redis := s.redis.(pending := s.redis.pending - {id}))
    else s
  }

  // Any copy of an entry, however old, may reach the script; the history notes the ones that took.
  function RecordStep(s: State, id: nat): State {
    if id >= |s.log| || s.log[id].None? then s
    else
      s.(redis := RecordClick(s.redis, id, s.log[id].value),
         applied := if id in s.redis.pending then s.applied + {id} else s.applied)
  }

  function DropStep(s: State, id: nat): State {
    if id >= |s.log| || s.log[id].Some? then s
    else
      s.(redis := AckAndDelete(s.redis, id),
         dropped := if id in s.redis.pending then s.dropped + {id} else s.dropped)
  }

  function WipeStep(s: State): State {
    s.(redis := Redis(map[], map[], {}, {}, |s.log|), lost := s.lost + s.redis.entries)
  }

  // ---- Writer steps -------------------------------------------------------------------------------------

  function CaptureStep(s: State, w: nat, b: Bucket): State {
    if w in s.writers && s.writers[w].Capturing? && b in s.redis.counts then
      var snap := s.writers[w].snap;
      s.(writers := s.writers[w := Capturing(s.writers[w].cutoff, snap.(daily := snap.daily[b := s.redis.counts[b]]))])
    else s
  }

  function CaptureLastStep(s: State, w: nat, code: Code): State {
    if w in s.writers && s.writers[w].Capturing? && code in s.redis.last
       && code in LinkCodes(s.writers[w].snap.daily.Keys) then
      var snap := s.writers[w].snap;
      var later := snap.(last := snap.last[code := s.redis.last[code]]);
      s.(writers := s.writers[w := Capturing(s.writers[w].cutoff, later)])
    else s
  }

  ghost function CommitStep(s: State, w: nat): State {
    if w in s.writers && s.writers[w].Capturing? then
      var snap := s.writers[w].snap;
      var whole := snap.(stale := StaleFields(snap.daily, s.writers[w].cutoff));
      s.(pg := Merged(s.pg, snap), writers := s.writers[w := Reconciling(whole, Outcome(s.pg, snap), {})])
    else s
  }

  // A merge that another writer's commit overtook: its select missed rows that have appeared since.
  ghost function CommitTornStep(s: State, w: nat, read: map<Bucket, int>): State {
    if w in s.writers && s.writers[w].Capturing? && Locked(read, s.pg.daily) then
      var snap := s.writers[w].snap;
      var whole := snap.(stale := StaleFields(snap.daily, s.writers[w].cutoff));
      var outcome := MergeOutcome(Committed(read, snap.daily), 0, map[]);
      s.(pg := MergedAgainst(read, s.pg, snap), writers := s.writers[w := Reconciling(whole, outcome, {})])
    else s
  }

  // A merge during which a link is created, after the upsert of the daily rows and before the update of `links`.
  ghost function CommitAroundCreateStep(s: State, w: nat, code: Code): State {
    if w in s.writers && s.writers[w].Capturing? && code !in s.pg.links then
      CommitStep(s, w).(pg := MergedAroundCreate(s.pg, s.writers[w].snap, code))
    else s
  }

  function ReconcileStep(s: State, w: nat, b: Bucket): State {
    if w in s.writers && s.writers[w].Reconciling? && b in s.writers[w].outcome.committed then
      WithCounts(s, HMax(s.redis.counts, b, s.writers[w].outcome.committed[b]))
        .(writers := s.writers[w := s.writers[w].(reconciled := s.writers[w].reconciled + {b})])
    else s
  }

  function CleanStep(s: State, w: nat, b: Bucket): State {
    if w in s.writers && s.writers[w].Reconciling? && b in s.writers[w].snap.stale && b in s.writers[w].reconciled then
      WithCounts(s, CompareAndDelete(s.redis.counts, b, Get(s.writers[w].outcome.committed, b)))
    else s
  }

  function LoadStep(s: State, w: nat, b: Bucket): State {
    if w in s.writers && s.writers[w].Restoring? && b in s.pg.daily && b.day >= s.writers[w].since then
      s.(writers := s.writers[w := s.writers[w].(rows := s.writers[w].rows[b := s.pg.daily[b]])])
    else s
  }

  function RestoreStep(s: State, w: nat, b: Bucket): State {
    if w in s.writers && s.writers[w].Restoring? && b in s.writers[w].rows then
      WithCounts(s, HMax(s.redis.counts, b, s.writers[w].rows[b]))
    else s
  }

  ghost function Next(s: State, step: Step): State {
    match step
    case Append(event) => AppendStep(s, event)
    case Deliver => DeliverStep(s)
    case Claim(id) => ClaimStep(s, id)
    case Record(id) => RecordStep(s, id)
    case Drop(id) => DropStep(s, id)
    case Begin(w, cutoff) => s.(writers := s.writers[w := Capturing(cutoff, EMPTY_SNAPSHOT)])
    case Capture(w, b) => CaptureStep(s, w, b)
    case CaptureLast(w, code) => CaptureLastStep(s, w, code)
    case Commit(w) => CommitStep(s, w)
    case CommitTorn(w, read) => CommitTornStep(s, w, read)
    case CommitAroundCreate(w, code) => CommitAroundCreateStep(s, w, code)
    case Reconcile(w, b) => ReconcileStep(s, w, b)
    case Clean(w, b) => CleanStep(s, w, b)
    case BeginRestore(w, since) => s.(writers := s.writers[w := Restoring(since, map[])])
    case Load(w, b) => LoadStep(s, w, b)
    case Restore(w, b) => RestoreStep(s, w, b)
    case Crash(w) => s.(writers := s.writers - {w})
    case Wipe => WipeStep(s)
    case CreateLink(code) => s.(pg := Created(s.pg, code))
    case DeleteLink(code) => s.(pg := Deleted(s.pg, code))
  }

  ghost function Run(s: State, steps: seq<Step>): State {
    if steps == [] then s else Next(Run(s, steps[..|steps| - 1]), steps[|steps| - 1])
  }

  const INIT := State([], Redis(map[], map[], {}, {}, 0), Tables(map[], 0, map[]), map[], {}, {}, {})

  // ---- Every entry has one fate -------------------------------------------------------------------------

  // The fate of the entry with this id, and whether the stream holds it.
  ghost predicate Fate(s: State, id: nat) {
    var undelivered := s.redis.delivered <= id < |s.log|;
    var pending, applied, dropped, lost := id in s.redis.pending, id in s.applied, id in s.dropped, id in s.lost;
    && (id < |s.log| <==> undelivered || pending || applied || dropped || lost)
    && !(undelivered && (pending || applied || dropped || lost))
    && !(pending && (applied || dropped || lost))
    && !(applied && (dropped || lost))
    && !(dropped && lost)
    && (id in s.redis.entries <==> undelivered || pending)
    && (applied ==> s.log[id].Some?)
  }

  /** Each appended entry is in exactly one of undelivered, pending, applied, dropped or lost, and the stream
      holds exactly those of the first two kinds. */
  ghost predicate OneFate(s: State) {
    s.redis.delivered <= |s.log| && forall id: nat :: Fate(s, id)
  }

  lemma NextKeepsOneFate(s: State, step: Step)
    requires OneFate(s)
    ensures OneFate(Next(s, step))
    ensures s.applied <= Next(s, step).applied
  {
    forall id: nat
      ensures Fate(Next(s, step), id)
    {
      assert Fate(s, id);
      if step.Record? || step.Drop? || step.Claim? { assert Fate(s, step.id); }
    }
  }

  /** An entry that was applied, or dropped, is never applied again, whoever still holds a copy of it. */
  lemma SecondRecordChangesNothing(s: State, id: nat)
    requires OneFate(s) && (id in s.applied || id in s.dropped || id in s.lost)
    ensures Next(s, Record(id)) == s && Next(s, Drop(id)) == s
  {
    assert Fate(s, id);
  }

  /** A claim only forgets a pending entry that the stream has lost; while every entry has its fate there is none. */
  lemma ClaimOnlyForgets(s: State, id: nat)
    ensures Next(s, Claim(id)).redis.pending
      == if id !in s.redis.entries then s.redis.pending - {id} else s.redis.pending
    ensures OneFate(s) ==> Next(s, Claim(id)) == s
  {
    assert OneFate(s) ==> Fate(s, id);
  }

  lemma {:induction false} RunKeepsOneFate(s: State, steps: seq<Step>)
    requires OneFate(s)
    ensures OneFate(Run(s, steps)) && s.applied <= Run(s, steps).applied
    decreases |steps|
  {
    if steps != [] {
      RunKeepsOneFate(s, steps[..|steps| - 1]);
      NextKeepsOneFate(Run(s, steps[..|steps| - 1]), steps[|steps| - 1]);
    }
  }

  // ---- Never overcount ----------------------------------------------------------------------------------

  predicate Hits(e: Option<Click>, b: Bucket) {
    e.Some? && (b == Global(e.value.day) || b == Link(e.value.code, e.value.day))
  }

  // The distinct applied entries that clicked bucket `b`.
  function HitSet(log: seq<Option<Click>>, applied: set<nat>, b: Bucket): set<nat> {
    set i | i in applied && i < |log| && Hits(log[i], b)
  }

  ghost predicate Bounded(counts: map<Bucket, int>, log: seq<Option<Click>>, applied: set<nat>) {
    forall b :: b in counts ==> 0 <= counts[b] <= |HitSet(log, applied, b)|
  }

  ghost predicate WriterBounded(w: Writer, log: seq<Option<Click>>, applied: set<nat>) {
    match w
    case Capturing(_, snap) => Bounded(snap.daily, log, applied)
    case Reconciling(snap, outcome, _) => Bounded(snap.daily, log, applied) && Bounded(outcome.committed, log, applied)
    case Restoring(_, rows) => Bounded(rows, log, applied)
  }

  /** No count anywhere, in Redis, in the hands of a writer or in Postgres, exceeds the number of distinct entries
      applied to its bucket. */
  ghost predicate NeverOver(s: State) {
    && Bounded(s.redis.counts, s.log, s.applied)
    && Bounded(s.pg.daily, s.log, s.applied)
    && forall w :: w in s.writers ==> WriterBounded(s.writers[w], s.log, s.applied)
  }

  lemma HitsGrow(log: seq<Option<Click>>, applied: set<nat>, log': seq<Option<Click>>, applied': set<nat>, b: Bucket)
    requires log <= log' && applied <= applied'
    ensures |HitSet(log, applied, b)| <= |HitSet(log', applied', b)|
    ensures log == log' && (exists i :: i < |log| && i !in applied && i in applied' && Hits(log[i], b)) ==>
      |HitSet(log, applied, b)| + 1 <= |HitSet(log', applied', b)|
  {
    var few, many := HitSet(log, applied, b), HitSet(log', applied', b);
    SubsetSize(few, many);
    if i :| log == log' && i < |log| && i !in applied && i in applied' && Hits(log[i], b) {
      SubsetSize(few + {i}, many);
    }
  }

  lemma {:induction false} SubsetSize(a: set<nat>, b: set<nat>)
    requires a <= b
    ensures |a| <= |b|
    decreases |a|
  {
    if a != {} {
      var x :| x in a;
      SubsetSize(a - {x}, b - {x});
    }
  }

  lemma BoundsGrow(counts: map<Bucket, int>, log: seq<Option<Click>>, applied: set<nat>,
                   log': seq<Option<Click>>, applied': set<nat>)
    requires Bounded(counts, log, applied) && log <= log' && applied <= applied'
    ensures Bounded(counts, log', applied')
  {
    forall b | b in counts
      ensures 0 <= counts[b] <= |HitSet(log', applied', b)|
    {
      HitsGrow(log, applied, log', applied', b);
    }
  }

  // A writer that did not step keeps its bounds while the history grows.
  lemma WritersGrow(s: State, log: seq<Option<Click>>, applied: set<nat>)
    requires NeverOver(s) && s.log <= log && s.applied <= applied
    ensures forall w :: w in s.writers ==> WriterBounded(s.writers[w], log, applied)
    ensures Bounded(s.redis.counts, log, applied) && Bounded(s.pg.daily, log, applied)
  {
    BoundsGrow(s.redis.counts, s.log, s.applied, log, applied);
    BoundsGrow(s.pg.daily, s.log, s.applied, log, applied);
    forall w | w in s.writers
      ensures WriterBounded(s.writers[w], log, applied)
    {
      assert WriterBounded(s.writers[w], s.log, s.applied);
      match s.writers[w]
      case Capturing(_, snap) => BoundsGrow(snap.daily, s.log, s.applied, log, applied);
      case Reconciling(snap, outcome, _) =>
        BoundsGrow(snap.daily, s.log, s.applied, log, applied);
        BoundsGrow(outcome.committed, s.log, s.applied, log, applied);
      case Restoring(_, rows) => BoundsGrow(rows, s.log, s.applied, log, applied);
    }
  }

  lemma RecordNeverOver(s: State, id: nat)
    requires NeverOver(s) && OneFate(s)
    ensures NeverOver(RecordStep(s, id))
  {
    var next := RecordStep(s, id);
    WritersGrow(s, next.log, next.applied);
    if id in s.redis.pending && next != s {
      assert Fate(s, id);
      forall b | b in next.redis.counts
        ensures 0 <= next.redis.counts[b] <= |HitSet(next.log, next.applied, b)|
      {
        if Hits(s.log[id], b) {
          HitsGrow(s.log, s.applied, next.log, next.applied, b);
        }
      }
    }
  }

  lemma MergeNeverOver(read: map<Bucket, int>, t: Tables, snap: RedisSnapshot, log: seq<Option<Click>>,
                       applied: set<nat>)
    requires Bounded(t.daily, log, applied) && Bounded(snap.daily, log, applied) && Locked(read, t.daily)
    ensures Bounded(MergedAgainst(read, t, snap).daily, log, applied)
    ensures Bounded(Committed(read, snap.daily), log, applied)
  {
  }

  lemma CommitNeverOver(s: State, w: nat, read: map<Bucket, int>)
    requires NeverOver(s)
    ensures NeverOver(CommitStep(s, w)) && NeverOver(CommitTornStep(s, w, read))
  {
    if w in s.writers && s.writers[w].Capturing? {
      assert WriterBounded(s.writers[w], s.log, s.applied);
      MergeNeverOver(s.pg.daily, s.pg, s.writers[w].snap, s.log, s.applied);
      if Locked(read, s.pg.daily) { MergeNeverOver(read, s.pg, s.writers[w].snap, s.log, s.applied); }
    }
  }

  lemma ReadsNeverOver(s: State, w: nat, b: Bucket, code: Code)
    requires NeverOver(s) && w in s.writers
    ensures NeverOver(CaptureStep(s, w, b)) && NeverOver(CaptureLastStep(s, w, code)) && NeverOver(LoadStep(s, w, b))
  {
    assert WriterBounded(s.writers[w], s.log, s.applied);
  }

  lemma WritesNeverOver(s: State, w: nat, b: Bucket)
    requires NeverOver(s) && w in s.writers
    ensures NeverOver(ReconcileStep(s, w, b)) && NeverOver(RestoreStep(s, w, b)) && NeverOver(CleanStep(s, w, b))
  {
    assert WriterBounded(s.writers[w], s.log, s.applied);
  }

  lemma NextNeverOver(s: State, step: Step)
    requires NeverOver(s) && OneFate(s)
    ensures NeverOver(Next(s, step))
  {
    match step
    case Record(id) => RecordNeverOver(s, id);
    case Commit(w) => CommitNeverOver(s, w, map[]);
    case CommitTorn(w, read) => CommitNeverOver(s, w, read);
    case CommitAroundCreate(w, code) => CommitNeverOver(s, w, map[]);
    case Append(_) => WritersGrow(s, Next(s, step).log, s.applied);
    case Capture(w, b) => if w in s.writers { ReadsNeverOver(s, w, b, Code("")); }
    case CaptureLast(w, code) => if w in s.writers { ReadsNeverOver(s, w, Global(0), code); }
    case Load(w, b) => if w in s.writers { ReadsNeverOver(s, w, b, Code("")); }
    case Reconcile(w, b) => if w in s.writers { WritesNeverOver(s, w, b); }
    case Clean(w, b) => if w in s.writers { WritesNeverOver(s, w, b); }
    case Restore(w, b) => if w in s.writers { WritesNeverOver(s, w, b); }
    case _ =>
  }

  // ---- What every run keeps -----------------------------------------------------------------------------

  /** Every stale field has a committed count, so the cleanup never falls back to its default of zero. */
  ghost predicate StaleCommitted(s: State) {
    forall w :: w in s.writers && s.writers[w].Reconciling? ==>
      s.writers[w].snap.stale + s.writers[w].reconciled <= s.writers[w].outcome.committed.Keys
  }

  ghost predicate Sound(s: State) {
    OneFate(s) && NeverOver(s) && StaleCommitted(s)
  }

  lemma NextKeepsStaleCommitted(s: State, step: Step)
    requires StaleCommitted(s)
    ensures StaleCommitted(Next(s, step))
  {
  }

  lemma NextKeepsSound(s: State, step: Step)
    requires Sound(s)
    ensures Sound(Next(s, step))
  {
    NextKeepsOneFate(s, step);
    NextNeverOver(s, step);
    NextKeepsStaleCommitted(s, step);
  }

  /** Over every run, with redelivery, crashes, failed merges, wipes, partial rehydrations and any number of
      writers, overtaken merges included: one fate per entry, and no count anywhere above the applied clicks. */
  lemma {:induction false} RunKeepsSound(s: State, steps: seq<Step>)
    requires Sound(s)
    ensures Sound(Run(s, steps))
    decreases |steps|
  {
    if steps != [] {
      RunKeepsSound(s, steps[..|steps| - 1]);
      NextKeepsSound(Run(s, steps[..|steps| - 1]), steps[|steps| - 1]);
    }
  }

  /** Merges do not overtake each other, and a link created in the middle of one has no clicks in its snapshot. */
  ghost predicate TotalsSafe(s: State, step: Step) {
    match step
    case CommitTorn(_, _) => false
    case CommitAroundCreate(w, code) =>
      w in s.writers && s.writers[w].Capturing? && code !in s.pg.links ==>
        forall b :: b in s.writers[w].snap.daily && b.Link? && b.code == code ==> s.writers[w].snap.daily[b] == 0
    case _ => true
  }

  /** Without an overtaken merge, a step keeps every running total equal to the sum of its rows if and only if it is
      no merge around the creation of a link with clicks. */
  lemma NextKeepsTotalsIff(s: State, step: Step)
    requires NeverOver(s) && Consistent(s.pg) && !step.CommitTorn?
    ensures Consistent(Next(s, step).pg) <==> TotalsSafe(s, step)
  {
    match step
    case Commit(w) =>
      if w in s.writers && s.writers[w].Capturing? {
        assert WriterBounded(s.writers[w], s.log, s.applied);
        MergeKeepsConsistent(s.pg, s.writers[w].snap);
      }
    case CommitAroundCreate(w, code) =>
      if w in s.writers && s.writers[w].Capturing? && code !in s.pg.links {
        assert WriterBounded(s.writers[w], s.log, s.applied);
        MergeAroundCreateKeepsOthers(s.pg, s.writers[w].snap, code);
        TotalsSurviveCreateInMergeIff(s.pg, s.writers[w].snap, code);
      }
    case CreateLink(code) => LinkChangesKeepConsistent(s.pg, code);
    case DeleteLink(code) => LinkChangesKeepConsistent(s.pg, code);
    case _ =>
  }

  ghost predicate TotalsSafeRun(s: State, steps: seq<Step>) {
    steps == [] ||
    (TotalsSafeRun(s, steps[..|steps| - 1]) && TotalsSafe(Run(s, steps[..|steps| - 1]), steps[|steps| - 1]))
  }

  /** While the writer lock serialises the merges and no clicked link is created within one, every running total
      equals the sum of its rows in every state. */
  lemma {:induction false} RunKeepsTotals(s: State, steps: seq<Step>)
    requires Sound(s) && Consistent(s.pg) && TotalsSafeRun(s, steps)
    ensures Consistent(Run(s, steps).pg)
    decreases |steps|
  {
    if steps != [] {
      RunKeepsTotals(s, steps[..|steps| - 1]);
      RunKeepsSound(s, steps[..|steps| - 1]);
      NextKeepsTotalsIff(Run(s, steps[..|steps| - 1]), steps[|steps| - 1]);
    }
  }

  lemma InitIsSound()
    ensures Sound(INIT) && Consistent(INIT.pg)
  {
    assert Globals({}) == {};
  }
}
