/** Merging is a join: the result depends only on which snapshots were merged, not on order or repeats. */
module MergeJoin {
  import opened Counts
  import opened Snapshot
  import opened PgSnapshotRepo
  import opened MergeLaws

  // What capture_snapshot hands over: counts that are not negative, click times after the epoch, and click
  // times only for codes that have a count.
  ghost predicate Captured(s: RedisSnapshot) {
    && NonNegative(s.daily)
    && (forall code :: code in s.last ==> s.last[code] > UNIX_EPOCH)
    && s.last.Keys <= LinkCodes(s.daily.Keys)
  }

  ghost predicate AllCaptured(snaps: seq<RedisSnapshot>) {
    forall s :: s in snaps ==> Captured(s)
  }

  ghost function MergeAll(t: Tables, snaps: seq<RedisSnapshot>): Tables {
    if snaps == [] then t else Merged(MergeAll(t, snaps[..|snaps| - 1]), snaps[|snaps| - 1])
  }

  function Elements(snaps: seq<RedisSnapshot>): set<RedisSnapshot> {
    set s | s in snaps
  }

  // Row `b` is the maximum of the table's row and the landing counts of the snapshots.
  ghost predicate JoinsAt(t: Tables, snaps: set<RedisSnapshot>, daily: map<Bucket, int>, b: Bucket) {
    && (b in daily <==> b in t.daily || (Lands(t.links, b) && exists s :: s in snaps && b in s.daily))
    && (b in t.daily ==> daily[b] >= t.daily[b])
    && (forall s :: s in snaps && b in s.daily && Lands(t.links, b) ==> daily[b] >= s.daily[b])
    && (b in daily ==>
         (b in t.daily && daily[b] == t.daily[b]) || exists s :: s in snaps && b in s.daily && daily[b] == s.daily[b])
  }

  ghost predicate JoinsRows(t: Tables, snaps: set<RedisSnapshot>, daily: map<Bucket, int>) {
    forall b :: JoinsAt(t, snaps, daily, b)
  }

  ghost predicate Raised(before: map<Bucket, int>, daily: map<Bucket, int>, code: Code) {
    exists b :: b in daily && b.Link? && b.code == code && daily[b] > Get(before, b)
  }

  ghost predicate Carried(snaps: set<RedisSnapshot>, code: Code) {
    exists s :: s in snaps && code in s.last
  }

  // The latest click time; without any, the epoch once clicks were gained.
  ghost predicate JoinsLast(was: Option<int>, snaps: set<RedisSnapshot>, code: Code, raised: bool, last: Option<int>) {
    if Carried(snaps, code) then
      && last.Some?
      && (was.Some? ==> last.value >= was.value)
      && (forall s :: s in snaps && code in s.last ==> last.value >= s.last[code])
      && (last == was || exists s :: s in snaps && code in s.last && last.value == s.last[code])
    else
      last == if raised then Greatest(was, UNIX_EPOCH) else was
  }

  ghost predicate IsJoin(t: Tables, snaps: set<RedisSnapshot>, r: Tables) {
    && r.links.Keys == t.links.Keys
    && JoinsRows(t, snaps, r.daily)
    && (forall code :: code in t.links ==>
         JoinsLast(t.links[code].last, snaps, code, Raised(t.daily, r.daily, code), r.links[code].last))
    && GlobalDrift(r) == GlobalDrift(t)
    && (forall code :: code in t.links ==> LinkDrift(r, code) == LinkDrift(t, code))
  }

  // With counts that are not negative the committed value is the maximum of row and count.
  lemma RowsOfMerge(t: Tables, s: RedisSnapshot)
    requires NonNegative(t.daily) && NonNegative(s.daily)
    ensures Merged(t, s).daily == UpsertGreatest(t.daily, Landing(t.links, s.daily))
  {
  }

  lemma MoreRows(t: Tables, before: set<RedisSnapshot>, daily: map<Bucket, int>, s: RedisSnapshot, b: Bucket)
    requires JoinsAt(t, before, daily, b)
    ensures JoinsAt(t, before + {s}, UpsertGreatest(daily, Landing(t.links, s.daily)), b)
  {
    assert s in before + {s};
    assert forall x :: x in before ==> x in before + {s};
  }

  // A merge gains clicks for a link exactly when one of its rows grows.
  lemma GainIsRaise(t: Tables, s: RedisSnapshot, code: Code)
    requires NonNegative(t.daily) && NonNegative(s.daily) && code in t.links
    ensures LinkDelta(Deltas(t.daily, s.daily), code) > 0 <==> Raised(t.daily, Merged(t, s).daily, code)
  {
    var deltas := Deltas(t.daily, s.daily);
    var part := OfLink(deltas.Keys, code);
    SumNonNegative(deltas, part);
    RowsOfMerge(t, s);
    var after := Merged(t, s).daily;
    if Raised(t.daily, after, code) {
      var b :| b in after && b.Link? && b.code == code && after[b] > Get(t.daily, b);
      assert b in part && Get(deltas, b) > 0;
    } else {
      forall b | b in part
        ensures Get(deltas, b) == 0
      {
        assert b in after;
      }
    }
  }

  lemma MoreLast(was: Option<int>, before: set<RedisSnapshot>, code: Code, raised: bool, last: Option<int>,
                 s: RedisSnapshot, gains: bool)
    requires (forall x :: x in before ==> Captured(x)) && Captured(s) && JoinsLast(was, before, code, raised, last)
    ensures JoinsLast(was, before + {s}, code, raised || gains,
              if gains || code in s.last then Greatest(last, if code in s.last then s.last[code] else UNIX_EPOCH)
              else last)
  {
    var snaps := before + {s};
    assert s in snaps && forall x :: x in before ==> x in snaps;
    if Carried(before, code) {
      var x :| x in before && code in x.last;
      assert x in snaps && last.value > UNIX_EPOCH;
    }
  }

  lemma OneMoreMergeRows(t: Tables, before: set<RedisSnapshot>, r: Tables, s: RedisSnapshot)
    requires JoinsRows(t, before, r.daily) && r.links.Keys == t.links.Keys
    requires NonNegative(r.daily) && NonNegative(s.daily)
    ensures JoinsRows(t, before + {s}, Merged(r, s).daily)
  {
    RowsOfMerge(r, s);
    assert Landing(r.links, s.daily) == Landing(t.links, s.daily);
    forall b
      ensures JoinsAt(t, before + {s}, Merged(r, s).daily, b)
    {
      assert JoinsAt(t, before, r.daily, b);
      MoreRows(t, before, r.daily, s, b);
    }
  }

  lemma OneMoreMergeLast(t: Tables, before: set<RedisSnapshot>, r: Tables, s: RedisSnapshot, code: Code)
    requires r.links.Keys == t.links.Keys && code in t.links && JoinsRows(t, before, r.daily)
    requires JoinsLast(t.links[code].last, before, code, Raised(t.daily, r.daily, code), r.links[code].last)
    requires (forall x :: x in before ==> Captured(x)) && Captured(s)
    requires NonNegative(t.daily) && NonNegative(r.daily)
    ensures JoinsLast(t.links[code].last, before + {s}, code, Raised(t.daily, Merged(r, s).daily, code),
              Merged(r, s).links[code].last)
  {
    GainIsRaise(r, s, code);
    RowsOfMerge(r, s);
    assert forall b :: b in t.daily ==> JoinsAt(t, before, r.daily, b);
    RaisedTwice(t.daily, r.daily, Merged(r, s).daily, code);
    MoreLast(t.links[code].last, before, code, Raised(t.daily, r.daily, code), r.links[code].last, s,
             LinkDelta(Deltas(r.daily, s.daily), code) > 0);
    TouchedIff(r, s, code);
  }

  lemma OneMoreMerge(t: Tables, before: set<RedisSnapshot>, r: Tables, s: RedisSnapshot)
    requires IsJoin(t, before, r) && (forall x :: x in before ==> Captured(x)) && Captured(s)
    requires NonNegative(t.daily) && NonNegative(r.daily)
    ensures IsJoin(t, before + {s}, Merged(r, s)) && NonNegative(Merged(r, s).daily)
  {
    OneMoreMergeRows(t, before, r, s);
    MergeKeepsDrift(r, s);
    forall code | code in t.links
      ensures JoinsLast(t.links[code].last, before + {s}, code, Raised(t.daily, Merged(r, s).daily, code),
                Merged(r, s).links[code].last)
    {
      OneMoreMergeLast(t, before, r, s, code);
    }
  }

  lemma TouchedIff(r: Tables, s: RedisSnapshot, code: Code)
    requires Captured(s)
    ensures var deltas := Deltas(r.daily, s.daily);
      Touched(s, deltas, code) <==> LinkDelta(deltas, code) > 0 || code in s.last
  {
    var deltas := Deltas(r.daily, s.daily);
    var part := OfLink(deltas.Keys, code);
    if part != {} {
      var b :| b in part;
      assert b.code in LinkCodes(s.daily.Keys);
    }
  }

  lemma RaisedTwice(first: map<Bucket, int>, second: map<Bucket, int>, third: map<Bucket, int>, code: Code)
    requires forall b :: b in first ==> b in second && first[b] <= second[b]
    requires forall b :: b in second ==> b in third && third[b] >= second[b]
    requires NonNegative(first) && NonNegative(second)
    ensures Raised(first, third, code) <==> Raised(first, second, code) || Raised(second, third, code)
  {
    if Raised(first, second, code) {
      var b :| b in second && b.Link? && b.code == code && second[b] > Get(first, b);
      assert third[b] > Get(first, b);
    }
    if Raised(second, third, code) {
      var b :| b in third && b.Link? && b.code == code && third[b] > Get(second, b);
      assert third[b] > Get(first, b);
    }
    if Raised(first, third, code) && !Raised(second, third, code) {
      var b :| b in third && b.Link? && b.code == code && third[b] > Get(first, b);
      assert b in second && second[b] > Get(first, b);
    }
  }

  lemma {:induction false} MergeAllIsJoin(t: Tables, snaps: seq<RedisSnapshot>)
    requires NonNegative(t.daily) && AllCaptured(snaps)
    ensures IsJoin(t, Elements(snaps), MergeAll(t, snaps)) && NonNegative(MergeAll(t, snaps).daily)
    decreases |snaps|
  {
    if snaps != [] {
      var n := |snaps| - 1;
      MergeAllIsJoin(t, snaps[..n]);
      OneMoreMerge(t, Elements(snaps[..n]), MergeAll(t, snaps[..n]), snaps[n]);
      assert snaps == snaps[..n] + [snaps[n]];
      assert Elements(snaps) == Elements(snaps[..n]) + {snaps[n]};
    }
  }

  lemma JoinIsUnique(t: Tables, snaps: set<RedisSnapshot>, p: Tables, q: Tables)
    requires ForeignKey(t)
    requires IsJoin(t, snaps, p) && IsJoin(t, snaps, q)
    ensures p == q
  {
    forall b
      ensures b in p.daily <==> b in q.daily
      ensures b in p.daily ==> p.daily[b] == q.daily[b]
    {
      assert JoinsAt(t, snaps, p.daily, b) && JoinsAt(t, snaps, q.daily, b);
      if b in p.daily { assert Lands(t.links, b); }
    }
    assert p.daily == q.daily;
    forall code | code in t.links
      ensures p.links[code] == q.links[code]
    {
      assert LinkDrift(p, code) == LinkDrift(q, code);
    }
    assert p.links == q.links;
  }

  /** Any two lists with the same snapshots in them, in whatever order and however often, leave the same rows, the
      same totals and the same click times. */
  lemma MergeOrderIrrelevant(t: Tables, xs: seq<RedisSnapshot>, ys: seq<RedisSnapshot>)
    requires ForeignKey(t) && NonNegative(t.daily) && AllCaptured(xs) && AllCaptured(ys)
    requires forall s :: s in xs <==> s in ys
    ensures MergeAll(t, xs) == MergeAll(t, ys)
  {
    MergeAllIsJoin(t, xs);
    MergeAllIsJoin(t, ys);
    assert Elements(xs) == Elements(ys);
    JoinIsUnique(t, Elements(xs), MergeAll(t, xs), MergeAll(t, ys));
  }

  /** Merging a snapshot again changes nothing, also after others were merged in between. */
  lemma RemergeChangesNothing(t: Tables, snaps: seq<RedisSnapshot>, s: RedisSnapshot)
    requires ForeignKey(t) && NonNegative(t.daily) && AllCaptured(snaps) && s in snaps
    ensures Merged(MergeAll(t, snaps), s) == MergeAll(t, snaps)
  {
    assert (snaps + [s])[..|snaps|] == snaps;
    MergeOrderIrrelevant(t, snaps, snaps + [s]);
  }

  /** A snapshot that is below the rows, as after a rehydration, is a merge without effect. */
  lemma MergeBelow(t: Tables, s: RedisSnapshot)
    requires s.daily.Keys <= t.daily.Keys && forall b :: b in s.daily ==> 0 <= s.daily[b] <= t.daily[b]
    requires ForeignKey(t) && s.last == map[]
    ensures Merged(t, s) == t
  {
    var deltas := Deltas(t.daily, s.daily);
    SumNonNegative(deltas, Globals(deltas.Keys));
    assert forall b :: b in deltas ==> Get(deltas, b) == 0;
    forall code | code in t.links
      ensures UpdatedRow(t.links[code], s, deltas, code) == t.links[code]
    {
      SumNonNegative(deltas, OfLink(deltas.Keys, code));
    }
    assert UpdatedLinks(t.links, s, deltas) == t.links;
  }
}
