/** Runs from the empty system to the states in which a property fails whose exact condition is proved elsewhere. */
module Witnesses {
  import opened Counts
  import opened Snapshot
  import opened PgSnapshotRepo
  import opened MergeLaws
  import opened RedisStats
  import opened Pipeline
  import opened Persistence
  import opened Conservation
  import opened Refinement
  import EventConsumer

  const CODE := Code("c")
  const CLICK := Click(CODE, 0, 1)

  // One click on day 0, for a code that is in no row of `links`.
  ghost function OneClick(): seq<Step> {
    [Append(Some(CLICK))] + [Deliver] + [Record(0)]
  }

  lemma RecordFirst(s: State)
    requires s.log == [Some(CLICK)] && s.redis == Redis(map[], map[], {0}, {0}, 1)
    ensures var t := RecordStep(s, 0);
      && t.redis == Redis(map[Global(0) := 1, Link(CODE, 0) := 1], map[CODE := 1], {}, {}, 1)
      && t.log == s.log && t.pg == s.pg && t.writers == s.writers
  {
  }

  lemma DeliverFirst()
    ensures var s := Next(Next(INIT, Append(Some(CLICK))), Deliver);
      && s.log == [Some(CLICK)] && s.redis == Redis(map[], map[], {0}, {0}, 1)
      && s.pg == INIT.pg && s.writers == map[]
  {
  }

  lemma AfterOneClick()
    ensures var s := Run(INIT, OneClick());
      && s.log == [Some(CLICK)] && s.pg == INIT.pg && s.writers == map[]
      && s.redis == Redis(map[Global(0) := 1, Link(CODE, 0) := 1], map[CODE := 1], {}, {}, 1)
  {
    var first := [Append(Some(CLICK))];
    assert [] + first == first;
    Push(INIT, [], Append(Some(CLICK)));
    Push(INIT, first, Deliver);
    Push(INIT, first + [Deliver], Record(0));
    DeliverFirst();
    RecordFirst(Next(Next(INIT, Append(Some(CLICK))), Deliver));
  }

  // ---- A late click -------------------------------------------------------------------------------------

  ghost predicate LosesClick(steps: seq<Step>, id: nat, b: Bucket) {
    var s := Run(INIT, steps);
    Sound(s) && Applies(s, Record(id), b) && Kept(Next(s, Record(id)), b) == Kept(s, b)
  }

  const NO_FAULTS := Faults(false, NoFault, false, {}, {})

  ghost function FlushedLater(s: State, text: ScriptText): State {
    Flushed(s, 0, StaleCutoff(100), NO_FAULTS, text, true)
  }

  // Day 0 was clicked once and flushed, and Redis no longer holds it.
  ghost predicate GoneOnce(s: State) {
    && s.log == [Some(CLICK)] && s.redis.delivered == 1 && s.redis.entries == {} && s.redis.pending == {}
    && Global(0) !in s.redis.counts && Get(s.pg.daily, Global(0)) == 1
  }

  lemma RowAfterFlush(s: State, text: ScriptText, b: Bucket)
    requires b in s.redis.counts && s.redis.counts[b] >= 0 && NonNegative(s.pg.daily) && Lands(s.pg.links, b)
    ensures Get(FlushedLater(s, text).pg.daily, b) == Max(s.redis.counts[b], Get(s.pg.daily, b))
    ensures FlushedLater(s, text).log == s.log
  {
    FlushLeaves(s.pg, s.redis.counts, s.redis.last, 100, b);
  }

  lemma GoneByWipe(s: State)
    requires s.log == [Some(CLICK)] && Get(s.pg.daily, Global(0)) == 1
    ensures GoneOnce(Next(s, Wipe))
  {
  }

  lemma GoneByCleanup(s: State)
    requires s.log == [Some(CLICK)] && s.pg == INIT.pg
    requires s.redis == Redis(map[Global(0) := 1, Link(CODE, 0) := 1], map[CODE := 1], {}, {}, 1)
    ensures GoneOnce(FlushedLater(s, AsDocumented))
  {
    FlushLeaves(s.pg, s.redis.counts, s.redis.last, 100, Global(0));
  }

  predicate NoWipe(steps: seq<Step>) {
    forall step :: step in steps ==> !step.Wipe?
  }

  lemma FlushFrom(start: seq<Step>, s: State, text: ScriptText) returns (steps: seq<Step>)
    requires s == Run(INIT, start)
    ensures Run(INIT, steps) == FlushedLater(s, text)
    ensures NoWipe(start) ==> NoWipe(steps)
  {
    var flush := FlushSteps(s, text);
    Push(INIT, start, Begin(0, StaleCutoff(100)));
    Chain(INIT, start + [Begin(0, StaleCutoff(100))], flush);
    steps := start + [Begin(0, StaleCutoff(100))] + flush;
  }

  lemma FlushSteps(s: State, text: ScriptText) returns (steps: seq<Step>)
    ensures NoWipe(steps)
    ensures Run(Next(s, Begin(0, StaleCutoff(100))), steps) == FlushedLater(s, text)
  {
    steps := FlushIsRun(s, 0, 100, NO_FAULTS, text, true);
    forall step | step in steps
      ensures !step.Wipe?
    {
      var i :| 0 <= i < |steps| && steps[i] == step;
    }
  }

  lemma ReachWiped() returns (steps: seq<Step>)
    ensures GoneOnce(Run(INIT, steps))
  {
    AfterOneClick();
    var s := Run(INIT, OneClick());
    RowAfterFlush(s, AsWritten, Global(0));
    var flush := FlushFrom(OneClick(), s, AsWritten);
    GoneByWipe(Run(INIT, flush));
    Push(INIT, flush, Wipe);
    steps := flush + [Wipe];
  }

  lemma OneClickHasNoWipe()
    ensures NoWipe(OneClick())
  {
  }

  lemma ReachCleaned() returns (steps: seq<Step>)
    ensures GoneOnce(Run(INIT, steps)) && NoWipe(steps)
  {
    AfterOneClick();
    OneClickHasNoWipe();
    GoneByCleanup(Run(INIT, OneClick()));
    steps := FlushFrom(OneClick(), Run(INIT, OneClick()), AsDocumented);
  }

  lemma ClickAgain(steps: seq<Step>)
    requires GoneOnce(Run(INIT, steps))
    ensures LosesClick(steps + [Append(Some(CLICK))] + [Deliver], 1, Global(0))
  {
    Push(INIT, steps, Append(Some(CLICK)));
    Push(INIT, steps + [Append(Some(CLICK))], Deliver);
    LateWhenGone(Run(INIT, steps));
    InitIsSound();
    RunKeepsSound(INIT, steps + [Append(Some(CLICK))] + [Deliver]);
  }

  lemma LateWhenGone(s: State)
    requires GoneOnce(s)
    ensures var t := Next(Next(s, Append(Some(CLICK))), Deliver);
      Applies(t, Record(1), Global(0)) && Kept(Next(t, Record(1)), Global(0)) == Kept(t, Global(0))
  {
    var t := Next(Next(s, Append(Some(CLICK))), Deliver);
    assert t.log == [Some(CLICK), Some(CLICK)] && t.redis.pending == {1} && t.redis.counts == s.redis.counts;
    ClickCountsIffNotLate(t, 1, Global(0));
  }

  /** With the code as written: click, flush, Redis loses its contents, click the same day again before Redis is
      rehydrated, which happens only when the writer lock is acquired. The second click is lost. */
  lemma LateClickHappens()
    ensures exists steps, id, b :: LosesClick(steps, id, b)
  {
    var steps := ReachWiped();
    ClickAgain(steps);
  }

  /** With the deletion as documented no loss of Redis is needed: click, flush with cleanup, click again. */
  lemma LateClickAfterCleanup()
    ensures exists steps, id, b :: LosesClick(steps, id, b) && NoWipe(steps)
  {
    var steps := ReachCleaned();
    ClickAgain(steps);
    assert NoWipe(steps + [Append(Some(CLICK))] + [Deliver]);
  }

  // ---- A wipe -------------------------------------------------------------------------------------------

  /** A click that was not flushed yet is lost with Redis. */
  lemma WipeLosesClicks()
    ensures exists steps, b :: Kept(Next(Run(INIT, steps), Wipe), b) < Kept(Run(INIT, steps), b)
  {
    AfterOneClick();
    var s := Run(INIT, OneClick());
    assert Kept(Next(s, Wipe), Global(0)) < Kept(s, Global(0));
  }

  // ---- Two writers --------------------------------------------------------------------------------------

  ghost predicate BreaksTotal(steps: seq<Step>, w: nat, read: map<Bucket, int>) {
    var s := Run(INIT, steps);
    && Consistent(s.pg) && w in s.writers && s.writers[w].Capturing? && Locked(read, s.pg.daily)
    && GlobalDrift(Next(s, CommitTorn(w, read)).pg) != 0
  }

  // Two writers have captured the same click and the first has committed.
  ghost function Overlap(): seq<Step> {
    OneClick() + [Begin(0, 0)] + [Begin(1, 0)] + [Capture(0, Global(0))] + [Capture(1, Global(0))] + [Commit(0)]
  }

  lemma OverlapSteps()
    ensures var two := Next(Next(Run(INIT, OneClick()), Begin(0, 0)), Begin(1, 0));
      Run(INIT, Overlap()) == Next(Next(Next(two, Capture(0, Global(0))), Capture(1, Global(0))), Commit(0))
  {
    var one := OneClick() + [Begin(0, 0)];
    var two := one + [Begin(1, 0)];
    Push(INIT, OneClick(), Begin(0, 0));
    Push(INIT, one, Begin(1, 0));
    Push(INIT, two, Capture(0, Global(0)));
    Push(INIT, two + [Capture(0, Global(0))], Capture(1, Global(0)));
    Push(INIT, two + [Capture(0, Global(0))] + [Capture(1, Global(0))], Commit(0));
  }

  lemma AfterOverlap()
    ensures var s := Run(INIT, Overlap());
      && 1 in s.writers && s.writers[1] == Capturing(0, RedisSnapshot(map[Global(0) := 1], map[], {}))
      && Global(0) in s.pg.daily && s.pg.daily[Global(0)] == 1
  {
    AfterOneClick();
    OverlapSteps();
    assert INIT.pg.daily == map[];
    BothCapture(Next(Next(Run(INIT, OneClick()), Begin(0, 0)), Begin(1, 0)));
  }

  lemma BothCapture(s: State)
    requires s.redis.counts == map[Global(0) := 1, Link(CODE, 0) := 1] && s.pg.daily == map[]
    requires 0 in s.writers && s.writers[0] == Capturing(0, EMPTY_SNAPSHOT)
    requires 1 in s.writers && s.writers[1] == Capturing(0, EMPTY_SNAPSHOT)
    ensures var t := Next(Next(Next(s, Capture(0, Global(0))), Capture(1, Global(0))), Commit(0));
      && 1 in t.writers && t.writers[1] == Capturing(0, RedisSnapshot(map[Global(0) := 1], map[], {}))
      && Global(0) in t.pg.daily && t.pg.daily[Global(0)] == 1
  {
    var snap := RedisSnapshot(map[Global(0) := 1], map[], {});
    var t := Next(Next(s, Capture(0, Global(0))), Capture(1, Global(0)));
    assert t.writers[0] == Capturing(0, snap) && t.writers[1] == Capturing(0, snap) && t.pg == s.pg;
    assert Next(t, Commit(0)).pg == Merged(s.pg, snap);
  }

  lemma TornDrifts(read: map<Bucket, int>, t: Tables, snap: RedisSnapshot, b: Bucket)
    requires GlobalDrift(t) == 0 && NonNegative(t.daily) && NonNegative(snap.daily) && Locked(read, t.daily)
    requires b.Global? && b in snap.daily && snap.daily[b] != 0 && b !in read && b in t.daily && t.daily[b] != 0
    ensures GlobalDrift(MergedAgainst(read, t, snap)) != 0
  {
    TotalsSurviveTornMergeIff(read, t, snap);
  }

  lemma CommitTornTables(s: State, w: nat, read: map<Bucket, int>)
    requires w in s.writers && s.writers[w].Capturing? && Locked(read, s.pg.daily)
    ensures Next(s, CommitTorn(w, read)).pg == MergedAgainst(read, s.pg, s.writers[w].snap)
  {
  }

  lemma {:induction false} PlainStepsAreSafe(s: State, steps: seq<Step>)
    requires forall step :: step in steps ==> !step.CommitTorn? && !step.CommitAroundCreate?
    ensures TotalsSafeRun(s, steps)
    decreases |steps|
  {
    if steps != [] {
      assert steps[|steps| - 1] in steps;
      PlainStepsAreSafe(s, steps[..|steps| - 1]);
    }
  }

  lemma OverlapIsSafe()
    ensures TotalsSafeRun(INIT, Overlap())
  {
    PlainStepsAreSafe(INIT, Overlap());
  }

  /** The second writer's select found no row for the day; its merge counts the click again. */
  lemma OverlapBreaksTotal()
    ensures exists steps, w, read :: BreaksTotal(steps, w, read)
  {
    InitIsSound();
    RunKeepsSound(INIT, Overlap());
    OverlapIsSafe();
    RunKeepsTotals(INIT, Overlap());
    AfterOverlap();
    var s := Run(INIT, Overlap());
    TornDrifts(map[], s.pg, s.writers[1].snap, Global(0));
    CommitTornTables(s, 1, map[]);
    assert BreaksTotal(Overlap(), 1, map[]);
  }

  // ---- A link created during a merge --------------------------------------------------------------------

  ghost predicate BreaksLinkTotal(steps: seq<Step>, w: nat, code: Code) {
    var s := Run(INIT, steps);
    Consistent(s.pg) && !Consistent(Next(s, CommitAroundCreate(w, code)).pg)
  }

  lemma CaptureLink(s: State)
    requires s.redis.counts == map[Global(0) := 1, Link(CODE, 0) := 1] && s.pg == INIT.pg
    ensures var t := Next(Next(s, Begin(0, 0)), Capture(0, Link(CODE, 0)));
      && t.pg == INIT.pg && 0 in t.writers
      && t.writers[0] == Capturing(0, RedisSnapshot(map[Link(CODE, 0) := 1], map[], {}))
  {
  }

  /** A link is clicked before it is created, and created while its snapshot is merged: its total is off. */
  lemma CreateInMergeBreaksLinkTotal()
    ensures exists steps, w, code :: BreaksLinkTotal(steps, w, code)
  {
    AfterOneClick();
    var steps := OneClick() + [Begin(0, 0)] + [Capture(0, Link(CODE, 0))];
    Push(INIT, OneClick(), Begin(0, 0));
    Push(INIT, OneClick() + [Begin(0, 0)], Capture(0, Link(CODE, 0)));
    CaptureLink(Run(INIT, OneClick()));
    InitIsSound();
    RunKeepsSound(INIT, steps);
    UnsafeBreaks(Run(INIT, steps), 0, CODE, Link(CODE, 0));
    assert BreaksLinkTotal(steps, 0, CODE);
  }

  lemma UnsafeBreaks(s: State, w: nat, code: Code, b: Bucket)
    requires Sound(s) && Consistent(s.pg) && w in s.writers && s.writers[w].Capturing? && code !in s.pg.links
    requires b in s.writers[w].snap.daily && b.Link? && b.code == code && s.writers[w].snap.daily[b] != 0
    ensures !Consistent(Next(s, CommitAroundCreate(w, code)).pg)
  {
    NextKeepsTotalsIff(s, CommitAroundCreate(w, code));
  }

  // ---- A drain that does not end ------------------------------------------------------------------------

  ghost predicate DrainsOn(steps: seq<Step>, rs: seq<Redis>, count: nat, n: nat) {
    && |rs| == n + 1 && rs[0] == Run(INIT, steps).redis
    && EventConsumer.DrainRun(rs, Run(INIT, steps).log, count, {0})
    && forall i :: 0 <= i < |rs| ==> !EventConsumer.Claims([], rs[i].pending, count)
  }

  /** One delivered entry whose command is refused every time: after any number of batches the next one still claims
      it. */
  lemma DrainGoesOn(count: nat, n: nat)
    requires count > 0
    ensures exists steps, rs :: DrainsOn(steps, rs, count, n)
  {
    var steps := [Append(Some(CLICK))] + [Deliver];
    assert [] + [Append(Some(CLICK))] == [Append(Some(CLICK))];
    Push(INIT, [], Append(Some(CLICK)));
    Push(INIT, [Append(Some(CLICK))], Deliver);
    var s := Run(INIT, steps);
    assert s.redis.pending == {0} && s.redis.entries == {0} && s.log == [Some(CLICK)];
    var rs := seq(n + 1, _ => s.redis);
    RefusedBatch(s.redis, s.log, count);
    assert DrainsOn(steps, rs, count, n);
  }

  lemma RefusedBatch(r: Redis, log: seq<Option<Click>>, count: nat)
    requires r.pending == {0} && count > 0
    ensures EventConsumer.BatchStep(r, r, log, count, {0}) && !EventConsumer.Claims([], r.pending, count)
  {
    var claimed: seq<nat> := [0];
    assert EventConsumer.Ids(claimed) == {0};
    assert claimed[..0] == [];
    assert EventConsumer.ProcessAll(r, log, claimed, {0}) == r;
    assert EventConsumer.Claims(claimed, r.pending, count);
  }
}
