/** core/src/grpc.rs, core/src/cache.rs and gateway/src/api/redirect.rs: the write-behind link cache. */
module LinkCache {
  import opened Counts

  // Time in nanoseconds.
  const SECOND := 1_000_000_000
  const NINETY_DAYS := 90 * 86400 * SECOND

  /** Every row ever inserted into `links`; `db` maps a code to the row it has now. */
  datatype Row = Row(key: string, target: string, expiration: Option<int>)

  /** The worker's operations. `row` and `made` are history: the row read and when the TTL was computed. */
  datatype Op = Set(key: string, value: string, ttl: int, row: nat, made: int) | Del(key: string)

  /** A cached value, gone at its deadline; `applied`, `row` and `made` are history. */
  datatype Entry = Entry(value: string, deadline: int, applied: int, row: nat, made: int)

  /** A request handler between its database step and its send to the worker. */
  datatype Handler = Loaded(key: string, row: nat) | Erased(key: string) | Ready(op: Op)

  datatype State = State(rows: seq<Row>, db: map<string, nat>, queue: seq<Op>, cache: map<string, Entry>,
                         handlers: map<nat, Handler>, now: int, cacheTtl: int)

  datatype Step =
    | Create(h: nat, key: string, target: string, expiration: Option<int>)
    | Read(h: nat, key: string)
    | Delete(h: nat, key: string)
    | Compute(h: nat)
    | Send(h: nat)
    | Abort(h: nat)
    | Work(ok: bool)
    | Tick(d: nat)
    | Purge(key: string)
    | Evict(key: string)

  function Init(cacheTtl: int, now: int): State {
    State([], map[], [], map[], map[], now, cacheTtl)
  }

  /** calculate_cache_ttl: all that is left of the link's life, or `cacheTtl` if that is less, or nothing if it is under
      a second. */
  function CalculateCacheTtl(cacheTtl: int, expiration: Option<int>, now: int): (r: Option<int>)
    ensures r.Some? ==> 1_000_000_000 <= r.value <= cacheTtl && (expiration.Some? ==> now + r.value <= expiration.value)
    ensures r.Some? ==> r.value == cacheTtl || (expiration.Some? && r.value == expiration.value - now)
    ensures r.None? <==> cacheTtl < 1_000_000_000 || (expiration.Some? && expiration.value - now < 1_000_000_000)
  {
    var ttl :=
      if expiration.None? then Some(cacheTtl)
      else
        var remaining := expiration.value - now;
        if remaining < 0 then None else Some(if remaining < cacheTtl then remaining else cacheTtl);
    if ttl.Some? && ttl.value / SECOND > 0 then ttl else None
  }

  // process_op on a connection that works: SET with EX in whole seconds, or DEL.
  function Apply(cache: map<string, Entry>, op: Op, now: int): map<string, Entry> {
    match op
    case Set(key, value, ttl, row, made) =>
      if ttl / SECOND > 0 then cache[key := Entry(value, now + ttl / SECOND * SECOND, now, row, made)] else cache
    case Del(key) => cache - {key}
  }

  // What a handler has to send after its database step, if anything.
  function Computed(s: State, handler: Handler): Option<Op> {
    match handler
    case Erased(key) => Some(Del(key))
    case Ready(op) => Some(op)
    case Loaded(key, row) =>
      if row >= |s.rows| then None
      else
        var ttl := CalculateCacheTtl(s.cacheTtl, s.rows[row].expiration, s.now);
        if ttl.None? then None else Some(Set(key, s.rows[row].target, ttl.value, row, s.now))
  }

  function Next(s: State, step: Step): State {
    match step
    case Create(h, key, target, expiration) =>
      if h in s.handlers || key in s.db || (expiration.Some? && expiration.value <= s.now) then s
      else
        s.(rows := s.rows + [Row(key, target, expiration)], db := s.db[key := |s.rows|],
           handlers := s.handlers[h := Loaded(key, |s.rows|)])
    case Read(h, key) =>
      if h in s.handlers || key !in s.db then s else s.(handlers := s.handlers[h := Loaded(key, s.db[key])])
    case Delete(h, key) =>
      if h in s.handlers || key !in s.db then s
      else s.(db := s.db - {key}, handlers := s.handlers[h := Erased(key)])
    case Compute(h) =>
      if h !in s.handlers then s
      else
        var ready := Computed(s, s.handlers[h]);
        s.(handlers := if ready.None? then s.handlers - {h} else s.handlers[h := Ready(ready.value)])
    case Send(h) =>
      if h in s.handlers && s.handlers[h].Ready? then
        s.(queue := s.queue + [s.handlers[h].op], handlers := s.handlers - {h})
      else s
    case Abort(h) => s.(handlers := s.handlers - {h})
    case Work(ok) =>
      if s.queue == [] then s
      else s.(queue := s.queue[1..], cache := if ok then Apply(s.cache, s.queue[0], s.now) else s.cache)
    case Tick(d) => s.(now := s.now + d)
    case Purge(key) =>
      if key in s.db && s.db[key] < |s.rows| && s.rows[s.db[key]].expiration.Some?
         && s.rows[s.db[key]].expiration.value < s.now - NINETY_DAYS then s.(db := s.db - {key})
      else s
    case Evict(key) => s.(cache := s.cache - {key})
  }

  function Run(s: State, steps: seq<Step>): State {
    if steps == [] then s else Next(Run(s, steps[..|steps| - 1]), steps[|steps| - 1])
  }

  predicate Hit(s: State, key: string) {
    key in s.cache && s.now < s.cache[key].deadline
  }

  datatype Answer = Found(target: string) | NotFound | Expired | Failed

  // get_link
  function GetLink(s: State, key: string): Answer {
    if key !in s.db || s.db[key] >= |s.rows| then NotFound
    else
      var row := s.rows[s.db[key]];
      if row.expiration.Some? && row.expiration.value <= s.now then Expired else Found(row.target)
  }

  // redirect: the cache first, then the service.
  function Redirect(s: State, key: string): Answer {
    if Hit(s, key) then Found(s.cache[key].value) else GetLink(s, key)
  }

  // ---- Every interleaving -------------------------------------------------------------------------------

  ghost predicate RowOk(s: State, key: string, row: nat) {
    row < |s.rows| && s.rows[row].key == key
  }

  ghost predicate OpOk(s: State, op: Op) {
    op.Set? ==>
      && RowOk(s, op.key, op.row) && s.rows[op.row].target == op.value
      && op.made <= s.now && SECOND <= op.ttl <= s.cacheTtl
      && (s.rows[op.row].expiration.Some? ==> op.made + op.ttl <= s.rows[op.row].expiration.value)
      && (op.ttl == s.cacheTtl
          || (s.rows[op.row].expiration.Some? && op.made + op.ttl == s.rows[op.row].expiration.value))
  }

  ghost predicate EntryOk(s: State, key: string)
    requires key in s.cache
  {
    var entry := s.cache[key];
    && RowOk(s, key, entry.row) && s.rows[entry.row].target == entry.value
    && entry.made <= entry.applied <= s.now
    && entry.deadline <= entry.applied + s.cacheTtl
    && (s.rows[entry.row].expiration.Some? ==>
         entry.deadline <= s.rows[entry.row].expiration.value + (entry.applied - entry.made))
    && (entry.applied + s.cacheTtl - entry.deadline < SECOND
        || (s.rows[entry.row].expiration.Some?
            && s.rows[entry.row].expiration.value + (entry.applied - entry.made) - entry.deadline < SECOND))
  }

  ghost predicate HandlerOk(s: State, handler: Handler) {
    match handler
    case Loaded(key, row) => RowOk(s, key, row)
    case Erased(_) => true
    case Ready(op) => OpOk(s, op)
  }

  /** A cached value was once the database target of its key; it outlives neither its application by more than the
      cache TTL nor its row's expiration by more than the delay between TTL computation and application, and goes less
      than a second before one of the two. */
  ghost predicate Bounded(s: State) {
    && (forall key :: key in s.db ==> RowOk(s, key, s.db[key]))
    && (forall i :: 0 <= i < |s.queue| ==> OpOk(s, s.queue[i]))
    && (forall h :: h in s.handlers ==> HandlerOk(s, s.handlers[h]))
    && (forall key :: key in s.cache ==> EntryOk(s, key))
  }

  // Rows are never rewritten and time never runs back, so what was recorded stays right.
  ghost predicate Later(s: State, t: State) {
    && |s.rows| <= |t.rows| && (forall i :: 0 <= i < |s.rows| ==> t.rows[i] == s.rows[i])
    && s.now <= t.now && t.cacheTtl == s.cacheTtl
  }

  lemma NextIsLater(s: State, step: Step)
    ensures Later(s, Next(s, step))
  {
  }

  lemma OpStays(s: State, t: State, op: Op)
    requires Later(s, t) && OpOk(s, op)
    ensures OpOk(t, op)
  {
  }

  lemma EntryStays(s: State, t: State, key: string)
    requires Later(s, t) && key in s.cache && EntryOk(s, key)
    requires key in t.cache && t.cache[key] == s.cache[key]
    ensures EntryOk(t, key)
  {
  }

  lemma ComputedOk(s: State, handler: Handler)
    requires HandlerOk(s, handler)
    ensures Computed(s, handler).Some? ==> OpOk(s, Computed(s, handler).value)
  {
  }

  lemma NextHandlersBounded(s: State, step: Step, h: nat)
    requires Bounded(s) && h in Next(s, step).handlers
    ensures HandlerOk(Next(s, step), Next(s, step).handlers[h])
  {
    var next := Next(s, step);
    NextIsLater(s, step);
    if h in s.handlers && next.handlers[h] == s.handlers[h] {
      var handler := s.handlers[h];
      assert HandlerOk(s, handler);
      if handler.Ready? { OpStays(s, next, handler.op); }
    } else if step.Compute? {
      assert HandlerOk(s, s.handlers[h]);
      ComputedOk(s, s.handlers[h]);
      OpStays(s, next, next.handlers[h].op);
    }
  }

  lemma NextQueueBounded(s: State, step: Step, i: nat)
    requires Bounded(s) && i < |Next(s, step).queue|
    ensures OpOk(Next(s, step), Next(s, step).queue[i])
  {
    var next := Next(s, step);
    NextIsLater(s, step);
    var op := next.queue[i];
    if step.Send? && i == |s.queue| {
      assert HandlerOk(s, s.handlers[step.h]);
    } else {
      var k := if step.Work? && s.queue != [] then i + 1 else i;
      assert op == s.queue[k] && OpOk(s, s.queue[k]);
    }
    OpStays(s, next, op);
  }

  lemma NextCacheBounded(s: State, step: Step, key: string)
    requires Bounded(s) && key in Next(s, step).cache
    ensures EntryOk(Next(s, step), key)
  {
    var next := Next(s, step);
    NextIsLater(s, step);
    if key in s.cache && next.cache[key] == s.cache[key] {
      EntryStays(s, next, key);
    } else {
      assert step.Work? && OpOk(s, s.queue[0]);
    }
  }

  lemma NextBounded(s: State, step: Step)
    requires Bounded(s)
    ensures Bounded(Next(s, step))
  {
    var next := Next(s, step);
    NextIsLater(s, step);
    forall key | key in next.db ensures RowOk(next, key, next.db[key]) {
      if key in s.db { assert RowOk(s, key, s.db[key]); }
    }
    forall i | 0 <= i < |next.queue| ensures OpOk(next, next.queue[i]) { NextQueueBounded(s, step, i); }
    forall h | h in next.handlers ensures HandlerOk(next, next.handlers[h]) { NextHandlersBounded(s, step, h); }
    forall key | key in next.cache ensures EntryOk(next, key) { NextCacheBounded(s, step, key); }
  }

  /** Bounded staleness, whatever the interleaving. */
  lemma {:induction false} StalenessIsBounded(cacheTtl: int, start: int, steps: seq<Step>)
    ensures Bounded(Run(Init(cacheTtl, start), steps))
    decreases |steps|
  {
    if steps != [] {
      StalenessIsBounded(cacheTtl, start, steps[..|steps| - 1]);
      NextBounded(Run(Init(cacheTtl, start), steps[..|steps| - 1]), steps[|steps| - 1]);
    }
  }

  // ---- What the service answers -------------------------------------------------------------------------

  // The key's row is the one a creation stored.
  ghost predicate Stored(s: State, key: string, target: string, expiration: Option<int>) {
    key in s.db && s.db[key] < |s.rows| && s.rows[s.db[key]] == Row(key, target, expiration)
  }

  predicate Leaves(step: Step, key: string) {
    !(step.Delete? && step.key == key) && step != Purge(key)
  }

  lemma {:induction false} RowStays(s: State, steps: seq<Step>, key: string, target: string, expiration: Option<int>)
    requires Stored(s, key, target, expiration) && forall i :: 0 <= i < |steps| ==> Leaves(steps[i], key)
    ensures Stored(Run(s, steps), key, target, expiration) && s.now <= Run(s, steps).now
    decreases |steps|
  {
    if steps != [] {
      RowStays(s, steps[..|steps| - 1], key, target, expiration);
      NextIsLater(Run(s, steps[..|steps| - 1]), steps[|steps| - 1]);
    }
  }

  /** A link that was created answers with its target until it expires and is expired from then on, whatever else
      happens, as long as it is neither deleted nor purged; redirect does the same unless the cache has it. */
  lemma LinkAnswersUntilExpiration(s: State, h: nat, key: string, target: string, expiration: Option<int>,
                                   steps: seq<Step>)
    requires h !in s.handlers && key !in s.db && (expiration.Some? ==> s.now < expiration.value)
    requires forall i :: 0 <= i < |steps| ==> Leaves(steps[i], key)
    ensures var t := Run(Next(s, Create(h, key, target, expiration)), steps);
      && GetLink(t, key) == (if expiration.None? || t.now < expiration.value then Found(target) else Expired)
      && (!Hit(t, key) ==> Redirect(t, key) == GetLink(t, key))
  {
    RowStays(Next(s, Create(h, key, target, expiration)), steps, key, target, expiration);
  }

  /** The clock decides: a link created now with d to live is found before d has passed and expired when it has. */
  lemma LinkExpiresInTime(s: State, h: nat, key: string, target: string, life: nat, d: nat)
    requires h !in s.handlers && key !in s.db && life > 0
    ensures var t := Next(Next(s, Create(h, key, target, Some(s.now + life))), Tick(d));
      GetLink(t, key) == if d < life then Found(target) else Expired
  {
  }

  /** And a cached target lives for the whole seconds of its TTL. */
  lemma EntryLivesItsTtl(s: State, d: nat)
    requires s.queue != [] && s.queue[0].Set? && s.queue[0].ttl >= 1_000_000_000
    ensures var op := s.queue[0];
      var t := Next(Next(s, Work(true)), Tick(d));
      && (Hit(t, op.key) <==> d < op.ttl - op.ttl % 1_000_000_000)
      && (Hit(t, op.key) ==> t.cache[op.key].value == op.value)
  {
    assert s.queue[0].ttl / SECOND * SECOND == s.queue[0].ttl - s.queue[0].ttl % SECOND;
  }

  /** The purge removes a link exactly from 90 days after its expiration on. */
  lemma PurgeRemovesIff(s: State, key: string, target: string, expiration: Option<int>)
    requires Stored(s, key, target, expiration)
    ensures key !in Next(s, Purge(key)).db <==> expiration.Some? && expiration.value + 7_776_000_000_000_000 < s.now
    ensures forall k :: k != key && k in s.db ==> k in Next(s, Purge(key)).db && Next(s, Purge(key)).db[k] == s.db[k]
  {
  }

  lemma {:induction false} StaysGone(s: State, steps: seq<Step>, key: string)
    requires key !in s.db && forall i :: 0 <= i < |steps| ==> !(steps[i].Create? && steps[i].key == key)
    ensures key !in Run(s, steps).db
    decreases |steps|
  {
    if steps != [] { StaysGone(s, steps[..|steps| - 1], key); }
  }

  /** A deleted link is not found until its code is created again. */
  lemma DeletedIsNotFound(s: State, h: nat, key: string, steps: seq<Step>)
    requires h !in s.handlers && forall i :: 0 <= i < |steps| ==> !(steps[i].Create? && steps[i].key == key)
    ensures GetLink(Run(Next(s, Delete(h, key)), steps), key) == NotFound
  {
    StaysGone(Next(s, Delete(h, key)), steps, key);
  }

  // ---- When the cache agrees with the database ----------------------------------------------------------

  predicate Stale(s: State, key: string, row: nat) {
    key !in s.db || s.db[key] != row
  }

  predicate Deletes(handler: Handler, key: string) {
    handler == Erased(key) || handler == Ready(Del(key))
  }

  /** A deletion of the key is still to be sent. */
  predicate DelPending(s: State, key: string) {
    exists h :: h in s.handlers && Deletes(s.handlers[h], key)
  }

  predicate DelFrom(s: State, key: string, i: nat) {
    DelPending(s, key) || exists j :: i <= j < |s.queue| && s.queue[j] == Del(key)
  }

  /** Whatever is cached or queued for a row that is not current has a deletion behind it. */
  ghost predicate Agrees(s: State, key: string) {
    && (Hit(s, key) && Stale(s, key, s.cache[key].row) ==> DelFrom(s, key, 0))
    && forall i: nat :: i < |s.queue| && s.queue[i].Set? && s.queue[i].key == key && Stale(s, key, s.queue[i].row) ==>
         DelFrom(s, key, i + 1)
  }

  /** What a step must not do to the key, whatever else is going on at the same time: send a Set of a row that is no
      longer current with no deletion still to be sent, lose a deletion, or purge the row while something of it that
      is queued, or was over 90 days on its way into the cache, has no deletion behind it. */
  predicate Guarded(s: State, step: Step, key: string) {
    match step
    case Send(h) =>
      h in s.handlers && s.handlers[h].Ready? && s.handlers[h].op.Set? && s.handlers[h].op.key == key ==>
        !Stale(s, key, s.handlers[h].op.row) || DelPending(s, key)
    case Abort(h) => h in s.handlers ==> !Deletes(s.handlers[h], key)
    case Work(ok) => ok || s.queue == [] || s.queue[0] != Del(key)
    case Purge(k) => k == key ==>
        && (forall i :: 0 <= i < |s.queue| && s.queue[i].Set? && s.queue[i].key == key ==> DelFrom(s, key, i + 1))
        && (key in s.cache ==> s.cache[key].applied - s.cache[key].made <= NINETY_DAYS || DelFrom(s, key, 0))
    case _ => true
  }

  /** The purge leaves no live entry of the row it removes, if that entry was at most 90 days on its way. */
  lemma PurgeFindsNoLiveEntry(s: State, key: string)
    requires Bounded(s) && key in s.db && Next(s, Purge(key)).db == s.db - {key} && Hit(s, key)
    requires s.cache[key].row == s.db[key]
    ensures s.cache[key].applied - s.cache[key].made > NINETY_DAYS
  {
    assert EntryOk(s, key) && RowOk(s, key, s.db[key]);
  }

  lemma WorkAgrees(s: State, ok: bool, key: string)
    requires Bounded(s) && Agrees(s, key) && Guarded(s, Work(ok), key) && s.queue != []
    ensures Agrees(Next(s, Work(ok)), key)
  {
    var next := Next(s, Work(ok));
    assert DelPending(next, key) == DelPending(s, key);
    assert forall i :: 0 <= i < |next.queue| ==> next.queue[i] == s.queue[i + 1];
    forall i: nat | DelFrom(s, key, i + 1)
      ensures DelFrom(next, key, i)
    {
      if !DelPending(s, key) {
        var j :| i + 1 <= j < |s.queue| && s.queue[j] == Del(key);
        assert next.queue[j - 1] == Del(key);
      }
    }
    var op := s.queue[0];
    assert OpOk(s, op);
    if Hit(next, key) && Stale(next, key, next.cache[key].row) {
      if ok && op.Set? && op.key == key {
        assert DelFrom(s, key, 0 + 1);
      } else {
        assert Hit(s, key) && next.cache[key] == s.cache[key] && DelFrom(s, key, 0) && op != Del(key);
        assert DelFrom(s, key, 0 + 1);
      }
    }
  }

  lemma SendAgrees(s: State, h: nat, key: string)
    requires Agrees(s, key) && Guarded(s, Send(h), key) && h in s.handlers && s.handlers[h].Ready?
    ensures Agrees(Next(s, Send(h)), key)
  {
    var next := Next(s, Send(h));
    var op := s.handlers[h].op;
    assert next.queue[|s.queue|] == op;
    if op.Set? && DelPending(s, key) {
      var g :| g in s.handlers && Deletes(s.handlers[g], key);
      assert g != h && next.handlers[g] == s.handlers[g];
      assert DelPending(next, key);
    }
    forall i: nat | i <= |s.queue| && DelFrom(s, key, i)
      ensures DelFrom(next, key, i)
    {
      if DelPending(s, key) {
        var g :| g in s.handlers && Deletes(s.handlers[g], key);
        if g != h { assert next.handlers[g] == s.handlers[g]; }
      } else {
        var j :| i <= j < |s.queue| && s.queue[j] == Del(key);
        assert next.queue[j] == Del(key);
      }
    }
  }

  lemma ComputeAgrees(s: State, h: nat, key: string)
    requires Agrees(s, key) && h in s.handlers
    ensures Agrees(Next(s, Compute(h)), key)
  {
    var next := Next(s, Compute(h));
    if DelPending(s, key) {
      var g :| g in s.handlers && Deletes(s.handlers[g], key);
      assert g in next.handlers && Deletes(next.handlers[g], key);
    }
    assert forall i: nat :: DelFrom(s, key, i) ==> DelFrom(next, key, i);
  }

  // The database step of a handler.
  lemma HandlerAgrees(s: State, step: Step, key: string)
    requires Bounded(s) && Agrees(s, key) && (step.Create? || step.Read? || step.Delete?)
    ensures Agrees(Next(s, step), key)
  {
    var next := Next(s, step);
    if next != s {
      StartKeepsDeletions(s, step, key);
      if step == Delete(step.h, key) {
        assert forall i: nat :: DelFrom(next, key, i);
      } else if step.Create? && step.key == key {
        assert key in s.cache ==> EntryOk(s, key);
        assert forall i :: 0 <= i < |s.queue| ==> OpOk(s, s.queue[i]);
      }
    }
  }

  lemma StartKeepsDeletions(s: State, step: Step, key: string)
    requires (step.Create? || step.Read? || step.Delete?) && Next(s, step) != s
    ensures forall i: nat :: DelFrom(s, key, i) ==> DelFrom(Next(s, step), key, i)
    ensures step == Delete(step.h, key) ==> DelPending(Next(s, step), key)
  {
    var next := Next(s, step);
    assert next.queue == s.queue && step.h !in s.handlers;
    if DelPending(s, key) {
      var g :| g in s.handlers && Deletes(s.handlers[g], key);
      assert next.handlers[g] == s.handlers[g];
    }
    if step == Delete(step.h, key) { assert next.handlers[step.h] == Erased(key); }
  }

  lemma PurgeAgrees(s: State, k: string, key: string)
    requires Bounded(s) && Agrees(s, key) && Guarded(s, Purge(k), key)
    ensures Agrees(Next(s, Purge(k)), key)
  {
    var next := Next(s, Purge(k));
    assert next.queue == s.queue && next.handlers == s.handlers && next.cache == s.cache;
    assert forall i: nat :: DelFrom(s, key, i) ==> DelFrom(next, key, i);
    if k == key && next != s && Hit(s, key) && s.cache[key].row == s.db[key] {
      PurgeFindsNoLiveEntry(s, key);
    }
  }

  lemma OtherAgrees(s: State, step: Step, key: string)
    requires Agrees(s, key) && Guarded(s, step, key) && (step.Abort? || step.Tick? || step.Evict?)
    ensures Agrees(Next(s, step), key)
  {
    var next := Next(s, step);
    if DelPending(s, key) {
      var g :| g in s.handlers && Deletes(s.handlers[g], key);
      assert g in next.handlers && next.handlers[g] == s.handlers[g];
    }
    assert forall i: nat :: DelFrom(s, key, i) ==> DelFrom(next, key, i);
  }

  lemma NextAgrees(s: State, step: Step, key: string)
    requires Bounded(s) && Agrees(s, key) && Guarded(s, step, key)
    ensures Agrees(Next(s, step), key)
  {
    match step
    case Work(ok) => if s.queue != [] { WorkAgrees(s, ok, key); }
    case Send(h) => if h in s.handlers && s.handlers[h].Ready? { SendAgrees(s, h, key); }
    case Compute(h) => if h in s.handlers { ComputeAgrees(s, h, key); }
    case Create(_, _, _, _) => HandlerAgrees(s, step, key);
    case Read(_, _) => HandlerAgrees(s, step, key);
    case Delete(_, _) => HandlerAgrees(s, step, key);
    case Purge(k) => PurgeAgrees(s, k, key);
    case _ => OtherAgrees(s, step, key);
  }

  ghost predicate GuardedRun(s: State, steps: seq<Step>, key: string) {
    steps == [] ||
    (GuardedRun(s, steps[..|steps| - 1], key) && Guarded(Run(s, steps[..|steps| - 1]), steps[|steps| - 1], key))
  }

  lemma {:induction false} RunAgrees(s: State, steps: seq<Step>, key: string)
    requires Bounded(s) && Agrees(s, key) && GuardedRun(s, steps, key)
    ensures Bounded(Run(s, steps)) && Agrees(Run(s, steps), key)
    decreases |steps|
  {
    if steps != [] {
      RunAgrees(s, steps[..|steps| - 1], key);
      NextAgrees(Run(s, steps[..|steps| - 1]), steps[|steps| - 1], key);
      NextBounded(Run(s, steps[..|steps| - 1]), steps[|steps| - 1]);
    }
  }

  /** A handler that is not interrupted between its database step and its send keeps the guard. */
  lemma UninterruptedIsGuarded(s: State, step: Step, key: string)
    requires Bounded(s) && (step.Create? || step.Read? || step.Delete?) && Next(s, step) != s
    ensures Guarded(Next(Next(s, step), Compute(step.h)), Send(step.h), key)
  {
    var started := Next(s, step);
    var computed := Next(started, Compute(step.h));
    assert computed.db == started.db && computed.rows == started.rows;
    if step.Read? { assert RowOk(s, step.key, s.db[step.key]); }
  }

  /** Replaying what is pending onto the cache. */
  function Replay(cache: map<string, Entry>, queue: seq<Op>, now: int): map<string, Entry>
    decreases |queue|
  {
    if queue == [] then cache else Replay(Apply(cache, queue[0], now), queue[1..], now)
  }

  // The database would not answer with this target.
  predicate Outdated(s: State, key: string, target: string) {
    key !in s.db || s.db[key] >= |s.rows| || s.rows[s.db[key]].target != target
  }

  function Drained(s: State): State {
    s.(queue := [], cache := Replay(s.cache, s.queue, s.now))
  }

  lemma {:induction false} WorkIsReplay(s: State)
    ensures var after := Run(s, seq(|s.queue|, _ => Work(true)));
      after == s.(queue := [], cache := Replay(s.cache, s.queue, s.now))
    decreases |s.queue|
  {
    var steps := seq(|s.queue|, _ => Work(true));
    if s.queue != [] {
      var first := Next(s, Work(true));
      WorkIsReplay(first);
      var rest := seq(|first.queue|, _ => Work(true));
      assert steps == [Work(true)] + rest;
      RunFrom(s, Work(true), rest);
    }
  }

  lemma {:induction false} RunFrom(s: State, step: Step, steps: seq<Step>)
    ensures Run(s, [step] + steps) == Run(Next(s, step), steps)
    decreases |steps|
  {
    var all := [step] + steps;
    if steps == [] {
      assert all[..0] == [] && all == [step];
      assert Run(s, all[..0]) == s;
    } else {
      assert all[..|all| - 1] == [step] + steps[..|steps| - 1];
      RunFrom(s, step, steps[..|steps| - 1]);
    }
  }

  /** Under every interleaving that keeps the guard, replaying the queue, in any reachable state with no deletion of
      the key still to be sent, leaves only an entry whose value is the database's target, and none for a deleted
      code. */
  lemma ReplayAgreesWithDatabase(cacheTtl: int, start: int, steps: seq<Step>, key: string)
    requires GuardedRun(Init(cacheTtl, start), steps, key) && !DelPending(Run(Init(cacheTtl, start), steps), key)
    ensures var s := Run(Init(cacheTtl, start), steps);
      Hit(Drained(s), key) ==>
        && !Outdated(s, key, Drained(s).cache[key].value)
        && (GetLink(s, key) == Expired || GetLink(s, key) == Redirect(Drained(s), key))
  {
    var s := Run(Init(cacheTtl, start), steps);
    RunAgrees(Init(cacheTtl, start), steps, key);
    var drain := seq(|s.queue|, _ => Work(true));
    WorkIsReplay(s);
    WorkIsGuarded(s, drain, key);
    RunAgrees(s, drain, key);
    if Hit(Run(s, drain), key) { QuietHitIsCurrent(Run(s, drain), key); }
  }

  lemma QuietHitIsCurrent(s: State, key: string)
    requires Bounded(s) && Agrees(s, key) && !DelPending(s, key) && s.queue == [] && Hit(s, key)
    ensures !Outdated(s, key, s.cache[key].value)
  {
    assert !DelFrom(s, key, 0);
    assert EntryOk(s, key);
  }

  lemma {:induction false} WorkIsGuarded(s: State, steps: seq<Step>, key: string)
    requires forall i :: 0 <= i < |steps| ==> steps[i] == Work(true)
    ensures GuardedRun(s, steps, key)
    decreases |steps|
  {
    if steps != [] { WorkIsGuarded(s, steps[..|steps| - 1], key); }
  }

  /** So when nothing is pending, a hit in redirect is the target get_link would read for an unexpired link. */
  lemma HitIsCurrent(cacheTtl: int, start: int, steps: seq<Step>, key: string)
    requires GuardedRun(Init(cacheTtl, start), steps, key)
    requires var s := Run(Init(cacheTtl, start), steps); !DelPending(s, key) && s.queue == []
    ensures var s := Run(Init(cacheTtl, start), steps);
      Hit(s, key) ==> GetLink(s, key) == Expired || GetLink(s, key) == Found(s.cache[key].value)
  {
    ReplayAgreesWithDatabase(cacheTtl, start, steps, key);
  }

  // ---- What replaying the queue leaves at a key ----------------------------------------------------------

  /** The last pending operation on the key. */
  function LastOp(queue: seq<Op>, key: string): Option<Op> {
    if queue == [] then None
    else if queue[|queue| - 1].key == key then Some(queue[|queue| - 1])
    else LastOp(queue[..|queue| - 1], key)
  }

  lemma {:induction false} LastOpFrom(op: Op, rest: seq<Op>, key: string)
    ensures LastOp([op] + rest, key)
      == if LastOp(rest, key).Some? then LastOp(rest, key) else if op.key == key then Some(op) else None
    decreases |rest|
  {
    var queue := [op] + rest;
    if rest == [] {
      assert queue == [op] && queue[..0] == [];
      assert LastOp(queue[..0], key) == None;
    } else {
      assert queue[..|queue| - 1] == [op] + rest[..|rest| - 1];
      LastOpFrom(op, rest[..|rest| - 1], key);
    }
  }

  lemma {:induction false} LastOpInQueue(queue: seq<Op>, key: string)
    ensures LastOp(queue, key).Some? ==> LastOp(queue, key).value in queue && LastOp(queue, key).value.key == key
    decreases |queue|
  {
    if queue != [] { LastOpInQueue(queue[..|queue| - 1], key); }
  }

  // The entry an operation leaves at its key.
  function Applied(op: Op, now: int): Option<Entry> {
    if op.Set? then Some(Entry(op.value, now + op.ttl / SECOND * SECOND, now, op.row, op.made)) else None
  }

  function At(cache: map<string, Entry>, key: string): Option<Entry> {
    if key in cache then Some(cache[key]) else None
  }

  /** At a key, replaying leaves what the last pending operation on it leaves, or what was cached if there is none. */
  lemma {:induction false} ReplayIsLastOp(cache: map<string, Entry>, queue: seq<Op>, now: int, key: string)
    requires forall i :: 0 <= i < |queue| && queue[i].Set? ==> queue[i].ttl >= SECOND
    ensures At(Replay(cache, queue, now), key)
      == if LastOp(queue, key).Some? then Applied(LastOp(queue, key).value, now) else At(cache, key)
    decreases |queue|
  {
    if queue != [] {
      ReplayIsLastOp(Apply(cache, queue[0], now), queue[1..], now, key);
      assert queue == [queue[0]] + queue[1..];
      LastOpFrom(queue[0], queue[1..], key);
    }
  }

  /** In every reachable state, handlers midway or not: the drained cache serves a target the database does not have
      exactly when the last pending operation on the key sets one, or none is pending and a live entry holds one. */
  lemma DrainedCacheOutdatedIff(cacheTtl: int, start: int, steps: seq<Step>, key: string)
    ensures var s := Run(Init(cacheTtl, start), steps);
      var last := LastOp(s.queue, key);
      (Hit(Drained(s), key) && Outdated(s, key, Drained(s).cache[key].value)) <==>
        (if last.Some? then last.value.Set? && Outdated(s, key, last.value.value)
         else Hit(s, key) && Outdated(s, key, s.cache[key].value))
  {
    var s := Run(Init(cacheTtl, start), steps);
    StalenessIsBounded(cacheTtl, start, steps);
    assert forall i :: 0 <= i < |s.queue| ==> OpOk(s, s.queue[i]);
    ReplayIsLastOp(s.cache, s.queue, s.now, key);
    LastOpInQueue(s.queue, key);
    var last := LastOp(s.queue, key);
    assert At(Drained(s).cache, key) == if last.Some? then Applied(last.value, s.now) else At(s.cache, key);
  }

  /** The step that breaks agreement: in every reachable state, sending a Set leaves a drained cache that is outdated
      exactly when the database has moved on from the target it sets. */
  lemma SendBreaksAgreementIff(cacheTtl: int, start: int, steps: seq<Step>, h: nat)
    requires var s := Run(Init(cacheTtl, start), steps);
      h in s.handlers && s.handlers[h].Ready? && s.handlers[h].op.Set?
    ensures var s := Run(Init(cacheTtl, start), steps);
      var op, sent := s.handlers[h].op, Drained(Next(s, Send(h)));
      Hit(sent, op.key) && (Outdated(sent, op.key, sent.cache[op.key].value) <==> Outdated(s, op.key, op.value))
  {
    var s := Run(Init(cacheTtl, start), steps);
    StalenessIsBounded(cacheTtl, start, steps);
    NextBounded(s, Send(h));
    var next, op := Next(s, Send(h)), s.handlers[h].op;
    assert forall i :: 0 <= i < |next.queue| ==> OpOk(next, next.queue[i]);
    ReplayIsLastOp(next.cache, next.queue, next.now, op.key);
    assert LastOp(next.queue, op.key) == Some(op);
    assert At(Drained(next).cache, op.key) == Applied(op, s.now);
    assert OpOk(next, next.queue[|s.queue|]);
  }

  function Finish(s: State, h: nat): State {
    Next(Next(Next(s, Compute(h)), Send(h)), Work(true))
  }

  /** Without the order: a get that finishes leaves redirect and the service in agreement exactly when the service
      would still answer with the target the get has read. */
  lemma FinishedGetAgreesIff(s: State, h: nat, key: string, row: nat)
    requires Bounded(s) && s.queue == [] && h in s.handlers && s.handlers[h] == Loaded(key, row)
    requires row < |s.rows| && CalculateCacheTtl(s.cacheTtl, s.rows[row].expiration, s.now).Some?
    ensures Redirect(Finish(s, h), key) == Found(s.rows[row].target)
    ensures GetLink(Finish(s, h), key) == GetLink(s, key)
    ensures Redirect(Finish(s, h), key) == GetLink(Finish(s, h), key) <==> GetLink(s, key) == Found(s.rows[row].target)
  {
    var ttl := CalculateCacheTtl(s.cacheTtl, s.rows[row].expiration, s.now).value;
    var op := Set(key, s.rows[row].target, ttl, row, s.now);
    var computed := Next(s, Compute(h));
    assert computed == s.(handlers := s.handlers[h := Ready(op)]);
    var sent := Next(computed, Send(h));
    assert sent.queue == [op] && sent.rows == s.rows && sent.db == s.db && sent.cache == s.cache && sent.now == s.now;
    var done := Next(sent, Work(true));
    assert done.cache == Apply(s.cache, op, s.now);
  }

  lemma Extend(s: State, steps: seq<Step>, step: Step)
    ensures Run(s, steps + [step]) == Next(Run(s, steps), step)
  {
    assert (steps + [step])[..|steps|] == steps;
  }

  lemma ExtendFinish(s: State, steps: seq<Step>, h: nat)
    ensures Run(s, steps + [Compute(h)] + [Send(h)] + [Work(true)]) == Finish(Run(s, steps), h)
  {
    Extend(s, steps, Compute(h));
    Extend(s, steps + [Compute(h)], Send(h));
    Extend(s, steps + [Compute(h)] + [Send(h)], Work(true));
  }

  /** A get that read the row before a delete and finishes after it, with a cache TTL of a minute: the deleted code is
      then served from the cache. */
  lemma GetRacingDeleteServesDeletedLink()
    ensures exists steps: seq<Step>, h: nat, key: string, target: string ::
      var s := Finish(Run(Init(60 * SECOND, 0), steps), h);
      Redirect(s, key) == Found(target) && GetLink(s, key) == NotFound
  {
    var init := Init(60 * SECOND, 0);
    var start := [Create(0, "k", "t", None)] + [Read(1, "k")] + [Delete(2, "k")];
    RaceStarts(start);
    StalenessIsBounded(60 * SECOND, 0, start);
    RaceAfterDelete(Run(init, start));
    var steps := start + [Compute(2)] + [Send(2)] + [Work(true)];
    ExtendFinish(init, start, 2);
    assert Redirect(Finish(Run(init, steps), 1), "k") == Found("t");
  }

  lemma RaceStarts(steps: seq<Step>)
    requires steps == [Create(0, "k", "t", None)] + [Read(1, "k")] + [Delete(2, "k")]
    ensures var s := Run(Init(60 * SECOND, 0), steps);
      && s.rows == [Row("k", "t", None)] && s.db == map[] && s.queue == [] && s.cacheTtl == 60 * SECOND
      && 1 in s.handlers && s.handlers[1] == Loaded("k", 0) && 2 in s.handlers && s.handlers[2] == Erased("k")
  {
    var init := Init(60 * SECOND, 0);
    var create := Create(0, "k", "t", None);
    Extend(init, [], create);
    assert [] + [create] == [create];
    Extend(init, [create], Read(1, "k"));
    Extend(init, [create] + [Read(1, "k")], Delete(2, "k"));
    var created := Next(init, create);
    assert created.rows == [Row("k", "t", None)] && created.db == map["k" := 0];
  }

  lemma RaceAfterDelete(s: State)
    requires Bounded(s) && s.rows == [Row("k", "t", None)] && s.db == map[] && s.queue == []
    requires s.cacheTtl == 60 * SECOND
    requires 1 in s.handlers && s.handlers[1] == Loaded("k", 0) && 2 in s.handlers && s.handlers[2] == Erased("k")
    ensures var d := Finish(s, 2);
      Redirect(Finish(d, 1), "k") == Found("t") && GetLink(Finish(d, 1), "k") == NotFound
  {
    var computed := Next(s, Compute(2));
    NextBounded(s, Compute(2));
    assert computed == s.(handlers := s.handlers[2 := Ready(Del("k"))]);
    var sent := Next(computed, Send(2));
    NextBounded(computed, Send(2));
    assert sent.queue == [Del("k")];
    NextBounded(sent, Work(true));
    FinishedGetAgreesIff(Finish(s, 2), 1, "k", 0);
  }

  // ---- The code -----------------------------------------------------------------------------------------

  // The operation sent for a row, if its life is long enough.
  function SetFor(cacheTtl: int, key: string, target: string, expiration: Option<int>, row: nat, now: int): seq<Op> {
    var ttl := CalculateCacheTtl(cacheTtl, expiration, now);
    if ttl.None? then [] else [Set(key, target, ttl.value, row, now)]
  }

  class Core {
    var rows: seq<Row>
    var db: map<string, nat>
    var queue: seq<Op>
    var cache: map<string, Entry>
    var handlers: map<nat, Handler>
    var now: int
    const cacheTtl: int

    ghost function Now(): State reads this {
      State(rows, db, queue, cache, handlers, now, cacheTtl)
    }

    constructor (cacheTtl: int, now: int)
      ensures Now() == Init(cacheTtl, now)
    {
      this.cacheTtl := cacheTtl;
      rows, db, queue, cache, handlers, this.now := [], map[], [], map[], map[], now;
    }

    // Set for a row just inserted or read, unless its TTL is too short.
    method SendSet(h: nat, key: string, row: nat)
      requires h !in handlers && row < |rows|
      modifies this`queue
      ensures Now() == Next(Next(old(Now()).(handlers := old(handlers)[h := Loaded(key, row)]), Compute(h)), Send(h))
      ensures queue == old(queue) + SetFor(cacheTtl, key, rows[row].target, rows[row].expiration, row, now)
    {
      var ttl := CalculateCacheTtl(cacheTtl, rows[row].expiration, now);
      if ttl.Some? {
        queue := queue + [Set(key, rows[row].target, ttl.value, row, now)];
      }
      assert handlers[h := Loaded(key, row)] - {h} == handlers;
      if ttl.Some? {
        var op := queue[|queue| - 1];
        assert handlers[h := Loaded(key, row)][h := Ready(op)] - {h} == handlers;
      }
    }

    /** create_link run without interruption. */
    method CreateLink(h: nat, key: string, target: string, expiration: Option<int>) returns (created: bool)
      requires h !in handlers
      modifies this`rows, this`db, this`queue
      ensures created <==> key !in old(db) && !(expiration.Some? && expiration.value <= now)
      ensures created ==> Stored(Now(), key, target, expiration)
      ensures created ==> queue == old(queue) + SetFor(cacheTtl, key, target, expiration, |old(rows)|, now)
      ensures !created ==> Now() == old(Now())
      ensures Now() == Next(Next(Next(old(Now()), Create(h, key, target, expiration)), Compute(h)), Send(h))
    {
      if expiration.Some? && expiration.value <= now { return false; }
      if key in db { return false; }
      var row := |rows|;
      rows := rows + [Row(key, target, expiration)];
      db := db[key := row];
      SendSet(h, key, row);
      created := true;
    }

    /** get_link run without interruption. */
    method GetLinkRequest(h: nat, key: string) returns (answer: Answer)
      requires h !in handlers && Bounded(Now())
      modifies this`queue
      ensures answer == GetLink(old(Now()), key) && (answer.NotFound? <==> key !in db)
      ensures key in db ==> var row := rows[db[key]];
        && answer == (if row.expiration.None? || now < row.expiration.value then Found(row.target) else Expired)
        && queue == old(queue) + SetFor(cacheTtl, key, row.target, row.expiration, db[key], now)
      ensures Now() == Next(Next(Next(old(Now()), Read(h, key)), Compute(h)), Send(h))
    {
      if key !in db { return NotFound; }
      var row := db[key];
      assert RowOk(Now(), key, row);
      SendSet(h, key, row);
      var expired := rows[row].expiration.Some? && rows[row].expiration.value <= now;
      answer := if expired then Expired else Found(rows[row].target);
    }

    /** delete_link run without interruption. */
    method DeleteLink(h: nat, key: string) returns (deleted: bool)
      requires h !in handlers
      modifies this`db, this`queue
      ensures deleted <==> key in old(db)
      ensures key !in db && queue == old(queue) + if deleted then [Del(key)] else []
      ensures forall k :: k != key && k in old(db) ==> k in db && db[k] == old(db)[k]
      ensures Now() == Next(Next(Next(old(Now()), Delete(h, key)), Compute(h)), Send(h))
    {
      if key !in db { return false; }
      db := db - {key};
      queue := queue + [Del(key)];
      assert handlers[h := Erased(key)][h := Ready(Del(key))] - {h} == handlers;
      deleted := true;
    }

    method ProcessOp(op: Op, connected: bool)
      modifies this`cache
      ensures cache == if connected then Apply(old(cache), op, now) else old(cache)
    {
      if !connected { return; }
      match op
      case Set(key, value, ttl, row, made) =>
        if ttl / SECOND > 0 {
          cache := cache[key := Entry(value, now + ttl / SECOND * SECOND, now, row, made)];
        }
      case Del(key) => cache := cache - {key};
    }

    /** The worker's loop until the queue is empty, as at shutdown. */
    method Drain()
      modifies this`queue, this`cache
      ensures queue == [] && cache == Replay(old(cache), old(queue), now)
    {
      while queue != []
        invariant Replay(cache, queue, now) == Replay(old(cache), old(queue), now)
        decreases |queue|
      {
        var op := queue[0];
        queue := queue[1..];
        ProcessOp(op, true);
      }
    }
  }

  class Gateway {
    const core: Core
    var events: seq<string>

    constructor (core: Core)
      ensures this.core == core && events == []
    {
      this.core, events := core, [];
    }

    /** redirect: what the cache holds, if it can be read, answers without a look at the service; a link that was found
        sends a click event, by a task of its own that may fail. */
    method Serve(h: nat, key: string, cacheDown: bool, rpcFails: bool, eventFails: bool) returns (answer: Answer)
      requires h !in core.handlers && Bounded(core.Now())
      modifies this`events, core`queue
      ensures var s := old(core.Now());
        && (!cacheDown && Hit(s, key) ==> answer == Found(s.cache[key].value) && core.Now() == s)
        && (!cacheDown && !rpcFails ==> answer == Redirect(s, key))
        && (cacheDown && !rpcFails ==> answer == GetLink(s, key))
        && ((cacheDown || !Hit(s, key)) && rpcFails ==> answer == Failed && core.Now() == s)
        && ((cacheDown || !Hit(s, key)) && !rpcFails ==>
             core.Now() == Next(Next(Next(s, Read(h, key)), Compute(h)), Send(h)))
      ensures events == old(events) + if answer.Found? && !eventFails then [key] else []
    {
      if !cacheDown && key in core.cache && core.now < core.cache[key].deadline {
        SendClickEvent(key, eventFails);
        return Found(core.cache[key].value);
      }
      if rpcFails { return Failed; }
      answer := core.GetLinkRequest(h, key);
      if answer.Found? { SendClickEvent(key, eventFails); }
    }

    method SendClickEvent(key: string, fails: bool)
      modifies this`events
      ensures events == old(events) + if fails then [] else [key]
    {
      if !fails { events := events + [key]; }
    }
  }
}
