/** analytics/src/redis_stats.rs: the Redis server as the scripts see it. Each script is one atomic step. */
module RedisStats {
  import opened Counts
  import opened Snapshot

  datatype Click = Click(code: Code, day: Day, ts: int)

  /** `counts` holds the fields of `stats:global` and of every `stats:link:*`; `last` the strings
      `stats:last_clicked_at:*`. Stream entries are named by their position in the order of XADD: `entries` are in
      the stream, `pending` in the group's pending list, and ids below `delivered` were handed out by XREADGROUP. */
  datatype Redis = Redis(counts: map<Bucket, int>, last: map<Code, int>,
                         entries: set<nat>, pending: set<nat>, delivered: nat)

  function HMax(counts: map<Bucket, int>, b: Bucket, value: int): map<Bucket, int> {
    if b !in counts || value > counts[b] then counts[b := value] else counts
  }

  function HIncr(counts: map<Bucket, int>, b: Bucket): map<Bucket, int> {
    counts[b := Get(counts, b) + 1]
  }

  /** The documented effect: the field goes when it equals the expected value. */
  function CompareAndDelete(counts: map<Bucket, int>, b: Bucket, expected: int): map<Bucket, int> {
    if b in counts && counts[b] == expected then counts - {b} else counts
  }

  function LaterClick(last: map<Code, int>, code: Code, ts: int): map<Code, int> {
    if ts > Get(last, code) then last[code := ts] else last
  }

  // XACK, two HINCRBY, the newer timestamp, XDEL; nothing at all unless the acknowledgement took.
  function RecordClick(r: Redis, id: nat, click: Click): Redis {
    if id !in r.pending then r
    else
      r.(counts := HIncr(HIncr(r.counts, Global(click.day)), Link(click.code, click.day)),
         last := LaterClick(r.last, click.code, click.ts),
         entries := r.entries - {id},
         pending := r.pending - {id})
  }

  // XACKDEL ... ACKED
  function AckAndDelete(r: Redis, id: nat): Redis {
    if id !in r.pending then r else r.(entries := r.entries - {id}, pending := r.pending - {id})
  }

  datatype EventOutcome = Applied | AlreadyHandled
  datatype Reply<+T> = Ok(value: T) | Failed

  /** The compare-and-delete script reads its arguments from `argv`, a global that does not exist, so as written
      every call is an error; its comment, its name and its callers say what it is for. */
  datatype ScriptText = AsWritten | AsDocumented

  class RedisServer {
    var counts: map<Bucket, int>
    var last: map<Code, int>
    var entries: set<nat>
    var pending: set<nat>
    var delivered: nat

    ghost function State(): Redis reads this {
      Redis(counts, last, entries, pending, delivered)
    }

    constructor (r: Redis)
      ensures State() == r
    {
      counts, last, entries, pending, delivered := r.counts, r.last, r.entries, r.pending, r.delivered;
    }

    method Hmax(b: Bucket, value: int) returns (updated: bool)
      modifies this`counts
      ensures counts == HMax(old(counts), b, value)
      ensures updated <==> counts != old(counts)
      ensures b in counts && counts[b] >= value
    {
      updated := false;
      if b !in counts || value > counts[b] {
        counts := counts[b := value];
        updated := true;
      }
    }

    method CompareAndDeleteField(text: ScriptText, b: Bucket, expected: int) returns (r: Reply<bool>)
      modifies this`counts
      ensures r.Failed? <==> text.AsWritten?
      ensures r.Failed? ==> counts == old(counts)
      ensures r.Ok? ==> counts == CompareAndDelete(old(counts), b, expected)
      ensures r.Ok? ==> (r.value <==> b in old(counts) && old(counts)[b] == expected)
    {
      if text.AsWritten? { return Failed; }
      if b in counts && counts[b] == expected {
        counts := counts - {b};
        return Ok(true);
      }
      r := Ok(false);
    }

    /** The label is swapped: the script returns 1 for an applied event, and 1 is mapped to `AlreadyHandled`. */
    method RecordClickEvent(id: nat, click: Click) returns (outcome: EventOutcome)
      modifies this
      ensures State() == RecordClick(old(State()), id, click)
      ensures outcome == Applied <==> id !in old(pending)
      ensures outcome == Applied <==> State() == old(State())
    {
      var result;
      if id !in pending {
        result := 0;
      } else {
        pending := pending - {id};
        var global, link := Global(click.day), Link(click.code, click.day);
        counts := counts[global := Get(counts, global) + 1];
        counts := counts[link := Get(counts, link) + 1];
        if click.ts > Get(last, click.code) {
          last := last[click.code := click.ts];
        }
        entries := entries - {id};
        result := 1;
      }
      outcome := if result == 0 then Applied else AlreadyHandled;
    }

    method DropClickEvent(id: nat)
      modifies this`entries, this`pending
      ensures State() == AckAndDelete(old(State()), id)
    {
      if id in pending {
        pending := pending - {id};
        entries := entries - {id};
      }
    }
  }
}
