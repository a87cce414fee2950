/** analytics/src/snapshot.rs: what one flush carries between Redis and Postgres. */
module Snapshot {
  import opened Counts

  datatype Code = Code(text: string)
  // Days are numbered; RedisText ties the numbers to the dates printed in Redis.
  type Day = int

  /** One counter. `Global(d)` is field d of the hash `stats:global` and a row of `global_daily_clicks`;
      `Link(c, d)` is field d of the hash `stats:link:c` and a row of `link_daily_clicks`. */
  datatype Bucket = Global(day: Day) | Link(code: Code, day: Day)

  /** Both maps `global_daily` and `link_daily`, keyed by bucket, and both stale sets. */
  datatype RedisSnapshot = RedisSnapshot(daily: map<Bucket, int>, last: map<Code, int>, stale: set<Bucket>)

  datatype MergeOutcome = MergeOutcome(committed: map<Bucket, int>, globalDelta: int, linkDeltas: map<Code, int>)

  const EMPTY_OUTCOME := MergeOutcome(map[], 0, map[])

  function CalculateMergeDelta(existing: int, incoming: int): (r: (int, int))
    ensures r.0 >= existing && r.0 >= incoming && r.0 in {existing, incoming}
    ensures existing + r.1 == r.0 && r.1 >= 0
  {
    var committed := Max(existing, incoming);
    (committed, committed - existing)
  }

  function StaleFields(daily: map<Bucket, int>, cutoff: Day): set<Bucket> {
    set b | b in daily && b.day < cutoff
  }

  function Globals(keys: set<Bucket>): set<Bucket> {
    set b | b in keys && b.Global?
  }

  function OfLink(keys: set<Bucket>, code: Code): set<Bucket> {
    set b | b in keys && b.Link? && b.code == code
  }

  function LinkCodes(keys: set<Bucket>): set<Code> {
    set b | b in keys && b.Link? :: b.code
  }
}
