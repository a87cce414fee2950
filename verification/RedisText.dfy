/** The hashes of Redis as text: what the scripts and the capture do with keys, fields and values, and that they do
    to the text what RedisStats says they do to the counts. */
module RedisText {
  import opened Counts
  import opened Snapshot
  import opened Calendar
  import opened RedisKeys
  import RedisStats
  import Persistence

  type Hash = map<string, string>
  type Raw = map<string, Hash>

  predicate Printable(b: Bucket) {
    b.day >= 0 && DateOf(b.day).year <= 9999
  }

  function KeyOf(b: Bucket): string {
    if b.Global? then GlobalStatsKey() else LinkStatsKey(b.code.text)
  }

  function FieldOf(b: Bucket): string
    requires Printable(b)
  {
    PrintDate(DateOf(b.day))
  }

  predicate Has(raw: Raw, key: string, field: string) {
    key in raw && field in raw[key]
  }

  ghost predicate Named(counts: map<Bucket, int>, key: string, field: string) {
    exists b :: b in counts && Printable(b) && KeyOf(b) == key && FieldOf(b) == field
  }

  ghost predicate Shown(raw: Raw, counts: map<Bucket, int>, b: Bucket)
    requires b in counts
  {
    && Printable(b) && 0 <= counts[b] <= I64_MAX && Has(raw, KeyOf(b), FieldOf(b))
    && raw[KeyOf(b)][FieldOf(b)] == PrintNat(counts[b])
  }

  /** The text holds exactly these counts: no other field, each value in decimal. */
  ghost predicate Encodes(raw: Raw, counts: map<Bucket, int>) {
    && (forall b :: b in counts ==> Shown(raw, counts, b))
    && (forall key, field :: Has(raw, key, field) ==> Named(counts, key, field))
  }

  // ---- Commands on the text -----------------------------------------------------------------------------

  function HSet(raw: Raw, key: string, field: string, value: string): Raw {
    raw[key := (if key in raw then raw[key] else map[])[field := value]]
  }

  function HDel(raw: Raw, key: string, field: string): Raw {
    if key in raw then raw[key := raw[key] - {field}] else raw
  }

  /** Lua's tonumber on the text of a number. Lua's numbers are doubles. */
  type Tonumber = string -> Option<real>

  const EXACT := 0x20_0000_0000_0000 // 2^53

  predicate I64(n: int) {
    -I64_MAX - 1 <= n <= I64_MAX
  }

  /** What is used of doubles: every 64-bit integer is read, exactly up to 2^53, and rounding keeps the order. */
  ghost predicate Doubles(tonumber: Tonumber) {
    && (forall n: int :: I64(n) ==> tonumber(PrintInt(n)).Some?)
    && (forall n: int :: -EXACT <= n <= EXACT ==> tonumber(PrintInt(n)) == Some(n as real))
    && (forall m: int, n: int :: I64(m) && I64(n) && m <= n ==> NoGreater(tonumber, m, n))
  }

  predicate NoGreater(tonumber: Tonumber, m: int, n: int) {
    var a, b := tonumber(PrintInt(m)), tonumber(PrintInt(n));
    a.Some? && b.Some? ==> a.value <= b.value
  }

  // The comparison of a number with text that is none is an error, here before anything was written.
  function RawHmax(tonumber: Tonumber, raw: Raw, key: string, field: string, value: string): Raw {
    if !Has(raw, key, field) then HSet(raw, key, field, value)
    else
      var current, incoming := tonumber(raw[key][field]), tonumber(value);
      if current.Some? && incoming.Some? && incoming.value > current.value then HSet(raw, key, field, value) else raw
  }

  // The integers HINCRBY takes: printed the one way a 64-bit integer is printed.
  function RedisInt(s: string): Option<int> {
    var n := ParseI64(s);
    if n.Some? && PrintInt(n.value) == s then n else None
  }

  lemma RedisIntIff(s: string, n: int)
    ensures RedisInt(s) == Some(n) <==> I64(n) && s == PrintInt(n)
  {
    if I64(n) { ParsePrintInt(n); }
  }

  predicate Countable(raw: Raw, key: string, field: string) {
    Has(raw, key, field) ==> RedisInt(raw[key][field]).Some? && RedisInt(raw[key][field]).value < I64_MAX
  }

  // HINCRBY by one; None is its error.
  function RawIncr(raw: Raw, key: string, field: string): Option<Raw> {
    if !Countable(raw, key, field) then None
    else Some(HSet(raw, key, field, PrintInt(1 + if Has(raw, key, field) then RedisInt(raw[key][field]).value else 0)))
  }

  function RawCompareAndDelete(raw: Raw, key: string, field: string, expected: string): Raw {
    if Has(raw, key, field) && raw[key][field] == expected then HDel(raw, key, field) else raw
  }

  /** A bucket is named by its key and field. */
  lemma NamesBucket(a: Bucket, b: Bucket)
    requires Printable(a) && Printable(b) && KeyOf(a) == KeyOf(b) && FieldOf(a) == FieldOf(b)
    ensures a == b
  {
    ParsePrintDate(DateOf(a.day));
    ParsePrintDate(DateOf(b.day));
    DayNumberOfDate(a.day);
    DayNumberOfDate(b.day);
    if a.Link? { KeyFamilies(a.code.text, if b.Link? then b.code.text else ""); }
    if b.Link? { KeyFamilies(b.code.text, ""); }
  }

  // A field other than the one written is as it was.
  lemma HSetElsewhere(raw: Raw, key: string, field: string, value: string, k: string, f: string)
    ensures var after := HSet(raw, key, field, value);
      && (Has(after, k, f) <==> (k == key && f == field) || Has(raw, k, f))
      && (Has(after, k, f) ==> after[k][f] == if k == key && f == field then value else raw[k][f])
  {
  }

  lemma HDelElsewhere(raw: Raw, key: string, field: string, k: string, f: string)
    ensures var after := HDel(raw, key, field);
      && (Has(after, k, f) <==> Has(raw, k, f) && !(k == key && f == field))
      && (Has(after, k, f) ==> after[k][f] == raw[k][f])
  {
  }

  lemma SetShows(raw: Raw, counts: map<Bucket, int>, b: Bucket, value: int, c: Bucket)
    requires Printable(b) && 0 <= value <= I64_MAX && (c == b || (c in counts && Shown(raw, counts, c)))
    ensures Shown(HSet(raw, KeyOf(b), FieldOf(b), PrintNat(value)), counts[b := value], c)
  {
    HSetElsewhere(raw, KeyOf(b), FieldOf(b), PrintNat(value), KeyOf(c), FieldOf(c));
    if KeyOf(c) == KeyOf(b) && FieldOf(c) == FieldOf(b) { NamesBucket(c, b); }
  }

  lemma SetRefines(raw: Raw, counts: map<Bucket, int>, b: Bucket, value: int)
    requires Encodes(raw, counts) && Printable(b) && 0 <= value <= I64_MAX
    ensures Encodes(HSet(raw, KeyOf(b), FieldOf(b), PrintNat(value)), counts[b := value])
  {
    var after := HSet(raw, KeyOf(b), FieldOf(b), PrintNat(value));
    var more := counts[b := value];
    forall c | c in more
      ensures Shown(after, more, c)
    {
      SetShows(raw, counts, b, value, c);
    }
    forall key, field | Has(after, key, field)
      ensures Named(counts[b := value], key, field)
    {
      HSetElsewhere(raw, KeyOf(b), FieldOf(b), PrintNat(value), key, field);
      NamedMore(counts, b, value, key, field);
    }
  }

  lemma NamedMore(counts: map<Bucket, int>, b: Bucket, value: int, key: string, field: string)
    requires Printable(b) && (Named(counts, key, field) || (key == KeyOf(b) && field == FieldOf(b)))
    ensures Named(counts[b := value], key, field)
  {
    var c :| (c in counts || c == b) && Printable(c) && KeyOf(c) == key && FieldOf(c) == field;
    assert c in counts[b := value];
  }

  lemma NamedLess(counts: map<Bucket, int>, b: Bucket, key: string, field: string)
    requires Printable(b) && Named(counts, key, field) && !(key == KeyOf(b) && field == FieldOf(b))
    ensures Named(counts - {b}, key, field)
  {
    var c :| c in counts && Printable(c) && KeyOf(c) == key && FieldOf(c) == field;
    assert c in counts - {b};
  }

  lemma DelShows(raw: Raw, counts: map<Bucket, int>, b: Bucket, c: Bucket)
    requires Printable(b) && c != b && c in counts && Shown(raw, counts, c)
    ensures Shown(HDel(raw, KeyOf(b), FieldOf(b)), counts - {b}, c)
  {
    HDelElsewhere(raw, KeyOf(b), FieldOf(b), KeyOf(c), FieldOf(c));
    if KeyOf(c) == KeyOf(b) && FieldOf(c) == FieldOf(b) { NamesBucket(c, b); }
  }

  lemma DelRefines(raw: Raw, counts: map<Bucket, int>, b: Bucket)
    requires Encodes(raw, counts) && Printable(b)
    ensures Encodes(HDel(raw, KeyOf(b), FieldOf(b)), counts - {b})
  {
    var after := HDel(raw, KeyOf(b), FieldOf(b));
    var less := counts - {b};
    forall c | c in less
      ensures Shown(after, less, c)
    {
      DelShows(raw, counts, b, c);
    }
    forall key, field | Has(after, key, field)
      ensures Named(counts - {b}, key, field)
    {
      HDelElsewhere(raw, KeyOf(b), FieldOf(b), key, field);
      NamedLess(counts, b, key, field);
    }
  }

  lemma HasIff(raw: Raw, counts: map<Bucket, int>, b: Bucket)
    requires Encodes(raw, counts) && Printable(b)
    ensures Has(raw, KeyOf(b), FieldOf(b)) <==> b in counts
    ensures b in counts ==> ParseI64(raw[KeyOf(b)][FieldOf(b)]) == Some(counts[b])
  {
    if Has(raw, KeyOf(b), FieldOf(b)) {
      var c :| c in counts && Printable(c) && KeyOf(c) == KeyOf(b) && FieldOf(c) == FieldOf(b);
      NamesBucket(c, b);
    }
    if b in counts { ParsePrint(counts[b]); }
  }

  /** The hmax script on the text is hmax on the counts exactly if it can tell a greater value from the current one. */
  lemma HmaxRefinesIff(tonumber: Tonumber, raw: Raw, counts: map<Bucket, int>, b: Bucket, value: int)
    requires Doubles(tonumber) && Encodes(raw, counts) && Printable(b) && 0 <= value <= I64_MAX
    ensures Encodes(RawHmax(tonumber, raw, KeyOf(b), FieldOf(b), PrintNat(value)), RedisStats.HMax(counts, b, value))
      <==> (b in counts && value > counts[b] ==> !NoGreater(tonumber, value, counts[b]))
  {
    HasIff(raw, counts, b);
    SetRefines(raw, counts, b, value);
    if b in counts {
      assert Shown(raw, counts, b);
      assert PrintInt(value) == PrintNat(value) && PrintInt(counts[b]) == PrintNat(counts[b]);
      assert value <= counts[b] ==> NoGreater(tonumber, value, counts[b]);
      if value > counts[b] { NotShown(raw, counts, b, value); }
    }
  }

  lemma NotShown(raw: Raw, counts: map<Bucket, int>, b: Bucket, value: int)
    requires Encodes(raw, counts) && b in counts && 0 <= value != counts[b]
    ensures !Encodes(raw, counts[b := value])
  {
    assert Shown(raw, counts, b);
    PrintInjective(value, counts[b]);
    assert !Shown(raw, counts[b := value], b);
  }

  /** It can, up to 2^53. */
  lemma HmaxRefines(tonumber: Tonumber, raw: Raw, counts: map<Bucket, int>, b: Bucket, value: int)
    requires Doubles(tonumber) && Encodes(raw, counts) && Printable(b)
    requires 0 <= value <= EXACT && Get(counts, b) <= EXACT
    ensures Encodes(RawHmax(tonumber, raw, KeyOf(b), FieldOf(b), PrintNat(value)), RedisStats.HMax(counts, b, value))
  {
    HmaxRefinesIff(tonumber, raw, counts, b, value);
    if b in counts {
      assert Shown(raw, counts, b);
      assert tonumber(PrintInt(value)) == Some(value as real);
      assert tonumber(PrintInt(counts[b])) == Some(counts[b] as real);
    }
  }

  /** The integers as doubles hold them up to 2^53 + 1, the first that is rounded: it lies halfway between two doubles
      and goes to the even one. */
  function Rounded(s: string): Option<real> {
    var n := ParseI64(s);
    if n.None? then None else Some(if n.value == EXACT + 1 then EXACT as real else n.value as real)
  }

  lemma RoundedIsDouble()
    ensures Doubles(Rounded)
  {
    forall n: int | I64(n)
      ensures Rounded(PrintInt(n)) == Some(if n == EXACT + 1 then EXACT as real else n as real)
    {
      ParsePrintInt(n);
    }
  }

  ghost predicate HmaxMisses(raw: Raw, counts: map<Bucket, int>, b: Bucket, value: int) {
    && Printable(b) && Encodes(raw, counts) && 0 <= value <= I64_MAX
    && !Encodes(RawHmax(Rounded, raw, KeyOf(b), FieldOf(b), PrintNat(value)), RedisStats.HMax(counts, b, value))
  }

  /** At 2^53 it can not: the script leaves the field when 2^53 + 1 is pushed. */
  lemma HmaxMissesGreaterCount()
    ensures exists raw, counts, b, value :: HmaxMisses(raw, counts, b, value)
  {
    var b := Global(0);
    assert DateOf(0) == Date(0, 1, 1);
    var raw := HSet(map[], KeyOf(b), FieldOf(b), PrintNat(EXACT));
    SetRefines(map[], map[], b, EXACT);
    var counts := map[][b := EXACT];
    RoundedIsDouble();
    ParsePrintInt(EXACT);
    ParsePrintInt(EXACT + 1);
    HmaxRefinesIff(Rounded, raw, counts, b, EXACT + 1);
    assert HmaxMisses(raw, counts, b, EXACT + 1);
  }

  lemma CountableIff(raw: Raw, counts: map<Bucket, int>, b: Bucket)
    requires Encodes(raw, counts) && Printable(b)
    ensures Countable(raw, KeyOf(b), FieldOf(b)) <==> Get(counts, b) < I64_MAX
    ensures b in counts ==> RedisInt(raw[KeyOf(b)][FieldOf(b)]) == Some(counts[b]) && counts[b] >= 0
  {
    HasIff(raw, counts, b);
    if b in counts {
      assert Shown(raw, counts, b);
      ParsePrint(counts[b]);
    }
  }

  /** HINCRBY on the text adds one to the count, unless it is the greatest integer. */
  lemma IncrRefines(raw: Raw, counts: map<Bucket, int>, b: Bucket)
    requires Encodes(raw, counts) && Printable(b)
    ensures RawIncr(raw, KeyOf(b), FieldOf(b)).Some? <==> Get(counts, b) < I64_MAX
    ensures RawIncr(raw, KeyOf(b), FieldOf(b)).Some? ==>
      Encodes(RawIncr(raw, KeyOf(b), FieldOf(b)).value, RedisStats.HIncr(counts, b))
  {
    CountableIff(raw, counts, b);
    HasIff(raw, counts, b);
    if Get(counts, b) < I64_MAX {
      assert PrintInt(Get(counts, b) + 1) == PrintNat(Get(counts, b) + 1);
      SetRefines(raw, counts, b, Get(counts, b) + 1);
    }
  }

  /** Comparing the text with the printed count is comparing the counts. */
  lemma CompareAndDeleteRefines(raw: Raw, counts: map<Bucket, int>, b: Bucket, expected: int)
    requires Encodes(raw, counts) && Printable(b) && 0 <= expected <= I64_MAX
    ensures Encodes(RawCompareAndDelete(raw, KeyOf(b), FieldOf(b), PrintNat(expected)),
                    RedisStats.CompareAndDelete(counts, b, expected))
  {
    HasIff(raw, counts, b);
    if b in counts { PrintInjective(counts[b], expected); }
    DelRefines(raw, counts, b);
  }

  // ---- The click script ---------------------------------------------------------------------------------

  /** `times` holds the strings `stats:last_clicked_at:*`. */
  datatype RawRedis = RawRedis(raw: Raw, times: map<string, string>, entries: set<nat>, pending: set<nat>)

  datatype ScriptResult = AlreadyAcked | Processed | ScriptError

  // The two HINCRBY, and whether both took.
  function RawCount(raw: Raw, code: string, field: string): (Raw, bool) {
    var global := RawIncr(raw, GlobalStatsKey(), field);
    if global.None? then (raw, false)
    else
      var link := RawIncr(global.value, LinkStatsKey(code), field);
      if link.None? then (global.value, false) else (link.value, true)
  }

  // The newer click time, unless the stored one is no number.
  function RawTime(tonumber: Tonumber, times: map<string, string>, code: string, ts: int): Option<map<string, string>> {
    var key := LinkLastClickedAtKey(code);
    var incoming, current := tonumber(PrintInt(ts)), tonumber(if key in times then times[key] else "0");
    if incoming.None? || current.None? then None
    else Some(if incoming.value > current.value then times[key := PrintInt(ts)] else times)
  }

  /** The script command by command. Redis does not roll back: an error leaves what was done before it, and the
      acknowledgement comes first. */
  function RawRecord(tonumber: Tonumber, r: RawRedis, id: nat, code: string, field: string, ts: int)
    : (RawRedis, ScriptResult)
  {
    if id !in r.pending then (r, AlreadyAcked)
    else
      var (raw, counted) := RawCount(r.raw, code, field);
      var acked := r.(raw := raw, pending := r.pending - {id});
      if !counted then (acked, ScriptError)
      else
        var times := RawTime(tonumber, r.times, code, ts);
        if times.None? then (acked, ScriptError)
        else (acked.(times := times.value, entries := r.entries - {id}), Processed)
  }

  predicate TimeReadable(tonumber: Tonumber, times: map<string, string>, code: string) {
    LinkLastClickedAtKey(code) in times ==> tonumber(times[LinkLastClickedAtKey(code)]).Some?
  }

  lemma IncrElsewhere(raw: Raw, key: string, field: string, other: string)
    requires other != key && RawIncr(raw, key, field).Some?
    ensures Countable(RawIncr(raw, key, field).value, other, field) <==> Countable(raw, other, field)
  {
  }

  /** A pending click is applied whole if and only if both its fields are absent or integers below the greatest, and
      the last click time is absent or a number. Otherwise it is acknowledged all the same, so never read again,
      stays in the stream, and counts not at all, only globally, or without its time. */
  lemma RecordWholeIff(tonumber: Tonumber, r: RawRedis, id: nat, code: string, field: string, ts: int)
    requires Doubles(tonumber) && I64(ts) && id in r.pending && id in r.entries
    ensures var (after, result) := RawRecord(tonumber, r, id, code, field, ts);
      var global, link := Countable(r.raw, GlobalStatsKey(), field), Countable(r.raw, LinkStatsKey(code), field);
      && (result.Processed? <==> global && link && TimeReadable(tonumber, r.times, code))
      && after.pending == r.pending - {id}
      && after.entries == (if result.Processed? then r.entries - {id} else r.entries)
      && (!global ==> after.raw == r.raw)
      && (global && !link ==> Some(after.raw) == RawIncr(r.raw, GlobalStatsKey(), field))
      && (!result.Processed? ==> after.times == r.times)
  {
    KeyFamilies(code, code);
    if Countable(r.raw, GlobalStatsKey(), field) { IncrElsewhere(r.raw, GlobalStatsKey(), field, LinkStatsKey(code)); }
    assert PrintInt(0) == "0";
  }

  /** The condition fails where a foreign client has put text into the day's field: the click is acknowledged, stays in
      the stream and counts nowhere. */
  lemma ForeignTextLosesClick(tonumber: Tonumber, r: RawRedis, id: nat, code: string, field: string, ts: int)
    requires id in r.pending && r.raw == map[GlobalStatsKey() := map[field := "x"]]
    ensures RawRecord(tonumber, r, id, code, field, ts) == (r.(pending := r.pending - {id}), ScriptError)
  {
    assert ParseI64("x") == None;
  }

  /** The strings hold exactly these click times. */
  ghost predicate TimesShown(times: map<string, string>, last: map<Code, int>) {
    && (forall code :: code in last ==> I64(last[code]) && LinkLastClickedAtKey(code.text) in times)
    && (forall code :: code in last ==> times[LinkLastClickedAtKey(code.text)] == PrintInt(last[code]))
    && (forall key :: key in times ==> exists code :: code in last && LinkLastClickedAtKey(code.text) == key)
  }

  lemma TimeShownIff(times: map<string, string>, last: map<Code, int>, code: Code)
    requires TimesShown(times, last)
    ensures LinkLastClickedAtKey(code.text) in times <==> code in last
  {
    if LinkLastClickedAtKey(code.text) in times {
      var c :| c in last && LinkLastClickedAtKey(c.text) == LinkLastClickedAtKey(code.text);
      KeyFamilies(c.text, code.text);
    }
  }

  lemma SetTimeShown(times: map<string, string>, last: map<Code, int>, code: Code, ts: int)
    requires TimesShown(times, last) && I64(ts)
    ensures TimesShown(times[LinkLastClickedAtKey(code.text) := PrintInt(ts)], last[code := ts])
  {
    var after := times[LinkLastClickedAtKey(code.text) := PrintInt(ts)];
    forall c | c in last[code := ts]
      ensures LinkLastClickedAtKey(c.text) in after
      ensures after[LinkLastClickedAtKey(c.text)] == PrintInt(last[code := ts][c])
    {
      KeyFamilies(c.text, code.text);
    }
    forall key | key in after
      ensures exists c :: c in last[code := ts] && LinkLastClickedAtKey(c.text) == key
    {
      if key == LinkLastClickedAtKey(code.text) {
        assert code in last[code := ts];
      } else {
        var c :| c in last && LinkLastClickedAtKey(c.text) == key;
        assert c in last[code := ts];
      }
    }
  }

  ghost predicate Holds(r: RawRedis, c: RedisStats.Redis) {
    Encodes(r.raw, c.counts) && TimesShown(r.times, c.last) && r.entries == c.entries && r.pending == c.pending
  }

  /** On text the writers wrote, below the greatest count and with times up to 2^53, the script never errs and is
      RedisStats.RecordClick. */
  lemma RecordRefines(tonumber: Tonumber, r: RawRedis, c: RedisStats.Redis, id: nat, click: RedisStats.Click)
    requires Doubles(tonumber) && Holds(r, c) && Printable(Global(click.day))
    requires Get(c.counts, Global(click.day)) < I64_MAX && Get(c.counts, Link(click.code, click.day)) < I64_MAX
    requires -EXACT <= click.ts <= EXACT && -EXACT <= Get(c.last, click.code) <= EXACT
    ensures var (after, result) := RawRecord(tonumber, r, id, click.code.text, FieldOf(Global(click.day)), click.ts);
      && Holds(after, RedisStats.RecordClick(c, id, click))
      && (result.Processed? <==> id in c.pending) && !result.ScriptError?
  {
    if id in r.pending {
      ClickRefines(r.raw, c.counts, click);
      TimeRefines(tonumber, r.times, c.last, click);
    }
  }

  lemma ClickRefines(raw: Raw, counts: map<Bucket, int>, click: RedisStats.Click)
    requires Encodes(raw, counts) && Printable(Global(click.day))
    requires Get(counts, Global(click.day)) < I64_MAX && Get(counts, Link(click.code, click.day)) < I64_MAX
    ensures var (after, counted) := RawCount(raw, click.code.text, FieldOf(Global(click.day)));
      var once := RedisStats.HIncr(counts, Global(click.day));
      counted && Encodes(after, RedisStats.HIncr(once, Link(click.code, click.day)))
  {
    var global, link := Global(click.day), Link(click.code, click.day);
    IncrRefines(raw, counts, global);
    IncrRefines(RawIncr(raw, KeyOf(global), FieldOf(global)).value, RedisStats.HIncr(counts, global), link);
  }

  lemma TimeRefines(tonumber: Tonumber, times: map<string, string>, last: map<Code, int>, click: RedisStats.Click)
    requires Doubles(tonumber) && TimesShown(times, last)
    requires -EXACT <= click.ts <= EXACT && -EXACT <= Get(last, click.code) <= EXACT
    ensures RawTime(tonumber, times, click.code.text, click.ts).Some?
    ensures TimesShown(RawTime(tonumber, times, click.code.text, click.ts).value,
                       RedisStats.LaterClick(last, click.code, click.ts))
  {
    CurrentTime(tonumber, times, last, click.code);
    assert tonumber(PrintInt(click.ts)) == Some(click.ts as real);
    ReadTimeRefines(tonumber, times, last, click);
  }

  lemma ReadTimeRefines(tonumber: Tonumber, times: map<string, string>, last: map<Code, int>, click: RedisStats.Click)
    requires TimesShown(times, last) && I64(click.ts) && tonumber(PrintInt(click.ts)) == Some(click.ts as real)
    requires var key := LinkLastClickedAtKey(click.code.text);
      tonumber(if key in times then times[key] else "0") == Some(Get(last, click.code) as real)
    ensures RawTime(tonumber, times, click.code.text, click.ts).Some?
    ensures TimesShown(RawTime(tonumber, times, click.code.text, click.ts).value,
                       RedisStats.LaterClick(last, click.code, click.ts))
  {
    if click.ts > Get(last, click.code) { SetTimeShown(times, last, click.code, click.ts); }
  }

  lemma CurrentTime(tonumber: Tonumber, times: map<string, string>, last: map<Code, int>, code: Code)
    requires Doubles(tonumber) && TimesShown(times, last) && -EXACT <= Get(last, code) <= EXACT
    ensures var key := LinkLastClickedAtKey(code.text);
      tonumber(if key in times then times[key] else "0") == Some(Get(last, code) as real)
  {
    TimeShownIff(times, last, code);
    assert PrintInt(0) == "0";
    assert tonumber(PrintInt(Get(last, code))) == Some(Get(last, code) as real);
  }

  // ---- Reading the text back ----------------------------------------------------------------------------

  datatype Reason = InvalidDate | NegativeCount | InvalidCount
  datatype MalformedField = MalformedField(key: string, value: string, reason: Reason)

  // What parse_daily_counts makes of one field: a day and a count, or why not.
  datatype Reading = Valid(day: Day, count: int) | Malformed(reason: Reason)

  function Read(field: string, value: string): Reading {
    var date := ParseDate(field);
    if date.None? then Malformed(InvalidDate)
    else
      var count := ParseI64(value);
      if count.None? then Malformed(InvalidCount)
      else if count.value < 0 then Malformed(NegativeCount)
      else Valid(DayNumber(date.value), count.value)
  }

  /** A field is a day and a count exactly if its name is a date and its value a 64-bit integer that is not negative;
      otherwise the first of these that fails is the reason. */
  lemma ReadIff(field: string, value: string)
    ensures var date, count := ParseDate(field), ParseI64(value);
      && (Read(field, value).Valid? <==> date.Some? && count.Some? && count.value >= 0)
      && (Read(field, value).Valid? ==>
           Read(field, value).day == DayNumber(date.value) && Read(field, value).count == count.value)
      && (Read(field, value) == Malformed(InvalidDate) <==> date.None?)
      && (Read(field, value) == Malformed(InvalidCount) <==> date.Some? && count.None?)
      && (Read(field, value) == Malformed(NegativeCount) <==> date.Some? && count.Some? && count.value < 0)
  {
  }

  // The fields of a hash from which `valid` and `malformed` were read.
  ghost predicate ReadFrom(fields: Hash, done: set<string>, valid: map<Day, int>, malformed: seq<MalformedField>) {
    && (forall field :: field in done && field in fields ==> Placed(field, fields[field], valid, malformed))
    && (forall day :: day in valid ==>
         exists field :: field in done && field in fields && ReadsAs(fields, field, day, valid[day]))
    && (forall m :: m in malformed ==>
         m.key in done && m.key in fields && m.value == fields[m.key] && Read(m.key, m.value) == Malformed(m.reason))
  }

  // The field has its day in the result, or was reported.
  predicate Placed(field: string, value: string, valid: map<Day, int>, malformed: seq<MalformedField>) {
    var reading := Read(field, value);
    if reading.Valid? then reading.day in valid else MalformedField(field, value, reading.reason) in malformed
  }

  predicate ReadsAs(fields: Hash, field: string, day: Day, count: int)
    requires field in fields
  {
    Read(field, fields[field]) == Valid(day, count)
  }

  method ParseDailyCounts(fields: Hash) returns (valid: map<Day, int>, malformed: seq<MalformedField>)
    ensures ReadFrom(fields, fields.Keys, valid, malformed)
  {
    valid, malformed := map[], [];
    var todo := fields.Keys;
    ghost var done: set<string> := {};
    while todo != {}
      invariant todo !! done && todo + done == fields.Keys
      invariant ReadFrom(fields, done, valid, malformed)
      decreases todo
    {
      var field :| field in todo;
      var value := fields[field];
      ReadOneMore(fields, done, valid, malformed, field);
      todo, done := todo - {field}, done + {field};
      var date := ParseDate(field);
      if date.None? {
        malformed := malformed + [MalformedField(field, value, InvalidDate)];
        continue;
      }
      var count := ParseI64(value);
      if count.None? {
        malformed := malformed + [MalformedField(field, value, InvalidCount)];
        continue;
      }
      if count.value < 0 {
        malformed := malformed + [MalformedField(field, value, NegativeCount)];
        continue;
      }
      valid := valid[DayNumber(date.value) := count.value];
    }
  }

  lemma ReadOneMore(fields: Hash, done: set<string>, valid: map<Day, int>, malformed: seq<MalformedField>,
                    field: string)
    requires ReadFrom(fields, done, valid, malformed) && field in fields && field !in done
    ensures var reading := Read(field, fields[field]);
      if reading.Valid? then ReadFrom(fields, done + {field}, valid[reading.day := reading.count], malformed)
      else ReadFrom(fields, done + {field}, valid, malformed + [MalformedField(field, fields[field], reading.reason)])
  {
    var reading := Read(field, fields[field]);
    if reading.Valid? {
      var more := valid[reading.day := reading.count];
      assert ReadsAs(fields, field, reading.day, more[reading.day]);
      forall f | f in done && f in fields
        ensures Placed(f, fields[f], more, malformed)
      {
        assert Placed(f, fields[f], valid, malformed);
      }
    } else {
      var more := malformed + [MalformedField(field, fields[field], reading.reason)];
      forall f | f in done && f in fields
        ensures Placed(f, fields[f], valid, more)
      {
        assert Placed(f, fields[f], valid, malformed);
      }
    }
  }

  // ---- The capture --------------------------------------------------------------------------------------

  // Bucket `b` was read from its hash: with a count exactly if one of the fields reads as its day.
  ghost predicate ReadAt(raw: Raw, daily: map<Bucket, int>, b: Bucket) {
    && (b in daily ==>
         exists field :: Has(raw, KeyOf(b), field) && Read(field, raw[KeyOf(b)][field]) == Valid(b.day, daily[b]))
    && (forall field :: Has(raw, KeyOf(b), field) ==>
         Read(field, raw[KeyOf(b)][field]).Valid? ==> Read(field, raw[KeyOf(b)][field]).day == b.day ==> b in daily)
  }

  ghost predicate MalformedSomewhere(raw: Raw, m: MalformedField) {
    Read(m.key, m.value) == Malformed(m.reason) && exists key :: Has(raw, key, m.key) && raw[key][m.key] == m.value
  }

  // The keys the capture reads: `stats:link:*` and the global hash.
  predicate StatsKey(key: string) {
    LinkStatsKey("") <= key || key == GlobalStatsKey()
  }

  // Every field of these hashes that does not parse is reported.
  ghost predicate Reported(raw: Raw, keys: set<string>, malformed: seq<MalformedField>) {
    forall key, field :: key in keys && Has(raw, key, field) && Read(field, raw[key][field]).Malformed? ==>
      MalformedField(field, raw[key][field], Read(field, raw[key][field]).reason) in malformed
  }

  ghost predicate CapturedFrom(raw: Raw, daily: map<Bucket, int>, malformed: seq<MalformedField>) {
    && (forall b :: ReadAt(raw, daily, b))
    && (forall m :: m in malformed ==> MalformedSomewhere(raw, m))
    && Reported(raw, (set key | key in raw && StatsKey(key)), malformed)
  }

  lemma ReportMore(raw: Raw, keys: set<string>, malformed: seq<MalformedField>, key: string, bad: seq<MalformedField>,
                   valid: map<Day, int>)
    requires Reported(raw, keys, malformed)
    requires var fields := if key in raw then raw[key] else map[]; ReadFrom(fields, fields.Keys, valid, bad)
    ensures Reported(raw, keys + {key}, malformed + bad)
  {
  }

  lemma HashReadAt(raw: Raw, key: string, valid: map<Day, int>, malformed: seq<MalformedField>,
                   daily: map<Bucket, int>, b: Bucket)
    requires key == KeyOf(b)
    requires var fields := if key in raw then raw[key] else map[]; ReadFrom(fields, fields.Keys, valid, malformed)
    requires b in daily <==> b.day in valid
    requires b in daily ==> daily[b] == valid[b.day]
    ensures ReadAt(raw, daily, b)
  {
    if b in daily {
      var field :| field in raw[key] && Read(field, raw[key][field]) == Valid(b.day, valid[b.day]);
      assert Has(raw, KeyOf(b), field);
    }
  }

  function LinkFieldsOf(code: Code, valid: map<Day, int>): map<Bucket, int> {
    map day | day in valid :: Link(code, day) := valid[day]
  }

  function GlobalFieldsOf(valid: map<Day, int>): map<Bucket, int> {
    map day | day in valid :: Global(day) := valid[day]
  }

  ghost predicate LinksRead(raw: Raw, done: set<string>, daily: map<Bucket, int>) {
    forall b: Bucket :: if b.Link? && KeyOf(b) in done then ReadAt(raw, daily, b) else b !in daily
  }

  lemma LinkKeyRead(raw: Raw, done: set<string>, daily: map<Bucket, int>, key: string, code: Code,
                    valid: map<Day, int>, malformed: seq<MalformedField>)
    requires LinksRead(raw, done, daily) && key in raw && key !in done && key == LinkStatsKey(code.text)
    requires ReadFrom(raw[key], raw[key].Keys, valid, malformed)
    ensures LinksRead(raw, done + {key}, daily + LinkFieldsOf(code, valid))
  {
    var after := daily + LinkFieldsOf(code, valid);
    forall b: Bucket
      ensures if b.Link? && KeyOf(b) in done + {key} then ReadAt(raw, after, b) else b !in after
    {
      if b.Link? { KeyFamilies(b.code.text, code.text); }
      if b.Link? && b.code == code {
        HashReadAt(raw, key, valid, malformed, after, b);
      } else {
        assert b in after ==> b in daily && after[b] == daily[b];
        assert if b.Link? && KeyOf(b) in done then ReadAt(raw, daily, b) else b !in daily;
      }
    }
  }

  lemma MalformedFound(raw: Raw, key: string, valid: map<Day, int>, malformed: seq<MalformedField>)
    requires var fields := if key in raw then raw[key] else map[]; ReadFrom(fields, fields.Keys, valid, malformed)
    ensures forall m :: m in malformed ==> MalformedSomewhere(raw, m)
  {
    forall m | m in malformed
      ensures MalformedSomewhere(raw, m)
    {
      assert Has(raw, key, m.key) && raw[key][m.key] == m.value;
    }
  }

  // The scan has read the link hashes `done`.
  ghost predicate Scanned(raw: Raw, done: set<string>, daily: map<Bucket, int>, malformed: seq<MalformedField>) {
    && LinksRead(raw, done, daily)
    && (forall m :: m in malformed ==> MalformedSomewhere(raw, m))
    && Reported(raw, done, malformed)
  }

  lemma ScanMore(raw: Raw, done: set<string>, daily: map<Bucket, int>, malformed: seq<MalformedField>, key: string,
                 code: Code, parsed: map<Day, int>, bad: seq<MalformedField>)
    requires Scanned(raw, done, daily, malformed) && key in raw && key !in done && key == LinkStatsKey(code.text)
    requires ReadFrom(raw[key], raw[key].Keys, parsed, bad)
    ensures Scanned(raw, done + {key}, daily + LinkFieldsOf(code, parsed), malformed + bad)
  {
    LinkKeyRead(raw, done, daily, key, code, parsed, bad);
    MalformedFound(raw, key, parsed, bad);
    ReportMore(raw, done, malformed, key, bad, parsed);
  }

  lemma ScanGlobal(raw: Raw, done: set<string>, daily: map<Bucket, int>, malformed: seq<MalformedField>,
                   parsed: map<Day, int>, bad: seq<MalformedField>)
    requires Scanned(raw, done, daily, malformed) && done == set key | key in raw && LinkStatsKey("") <= key
    requires var key := GlobalStatsKey();
      var fields := if key in raw then raw[key] else map[];
      ReadFrom(fields, fields.Keys, parsed, bad)
    ensures CapturedFrom(raw, daily + GlobalFieldsOf(parsed), malformed + bad)
  {
    GlobalKeyRead(raw, done, daily, parsed, bad);
    MalformedFound(raw, GlobalStatsKey(), parsed, bad);
    ReportMore(raw, done, malformed, GlobalStatsKey(), bad, parsed);
    assert (set key | key in raw && StatsKey(key)) <= done + {GlobalStatsKey()};
  }

  /** SCAN over `stats:link:*`, HGETALL of each key, then the global hash. */
  method CaptureDaily(raw: Raw) returns (daily: map<Bucket, int>, malformed: seq<MalformedField>)
    ensures CapturedFrom(raw, daily, malformed)
  {
    daily, malformed := map[], [];
    var prefix := LinkStatsKey("");
    var todo := set key | key in raw && prefix <= key;
    ghost var done: set<string> := {};
    while todo != {}
      invariant todo + done == set key | key in raw && prefix <= key
      invariant todo !! done && Scanned(raw, done, daily, malformed)
      decreases todo
    {
      var key :| key in todo;
      var shortCode := StripPrefix(key, prefix);
      var parsed, bad := ParseDailyCounts(raw[key]);
      ScanMore(raw, done, daily, malformed, key, Code(shortCode), parsed, bad);
      daily := daily + LinkFieldsOf(Code(shortCode), parsed);
      malformed := malformed + bad;
      todo, done := todo - {key}, done + {key};
    }
    var globalKey := GlobalStatsKey();
    var parsed, bad := ParseDailyCounts(if globalKey in raw then raw[globalKey] else map[]);
    ScanGlobal(raw, done, daily, malformed, parsed, bad);
    daily := daily + GlobalFieldsOf(parsed);
    malformed := malformed + bad;
  }

  // The click time of a code, if it has one that is a number and a time chrono knows.
  function TimeOf(times: map<string, string>, code: Code, known: int -> bool): Option<int> {
    var key := LinkLastClickedAtKey(code.text);
    if key !in times then None
    else
      var ts := ParseI64(times[key]);
      if ts.Some? && known(ts.value) then ts else None
  }

  predicate BadTime(times: map<string, string>, code: Code, known: int -> bool) {
    LinkLastClickedAtKey(code.text) in times && TimeOf(times, code, known).None?
  }

  ghost predicate BatchOf(times: map<string, string>, codes: set<Code>, known: int -> bool,
                          last: Option<map<Code, int>>)
  {
    if last.None? then exists code :: code in codes && BadTime(times, code, known)
    else
      && (forall code :: code in codes ==> !BadTime(times, code, known))
      && last.value.Keys == (set code | code in codes && LinkLastClickedAtKey(code.text) in times)
      && forall code :: code in last.value ==> Some(last.value[code]) == TimeOf(times, code, known)
  }

  /** MGET of the click times. One bad time fails the whole batch. */
  method LastClickedAtBatch(times: map<string, string>, codes: set<Code>, known: int -> bool)
    returns (last: Option<map<Code, int>>)
    ensures BatchOf(times, codes, known, last)
  {
    var todo, found: map<Code, int> := codes, map[];
    while todo != {}
      invariant todo <= codes && forall code :: code in codes - todo ==> !BadTime(times, code, known)
      invariant found.Keys == set code | code in codes - todo && LinkLastClickedAtKey(code.text) in times
      invariant forall code :: code in found ==> Some(found[code]) == TimeOf(times, code, known)
      decreases todo
    {
      var code :| code in todo;
      todo := todo - {code};
      if LinkLastClickedAtKey(code.text) in times {
        var ts := TimeOf(times, code, known);
        if ts.None? {
          assert BadTime(times, code, known);
          return None;
        }
        found := found[code := ts.value];
      }
    }
    last := Some(found);
  }

  /** What one capture returns: nothing if a captured link has a bad click time, else the whole snapshot. */
  ghost predicate Captures(raw: Raw, times: map<string, string>, cutoff: Day, known: int -> bool,
                           daily: map<Bucket, int>, snap: Option<RedisSnapshot>, malformed: seq<MalformedField>)
  {
    && CapturedFrom(raw, daily, malformed)
    && BatchOf(times, LinkCodes(daily.Keys), known, if snap.None? then None else Some(snap.value.last))
    && (snap.Some? ==> snap.value.daily == daily && snap.value.stale == StaleFields(daily, cutoff))
  }

  /** `daily` is what was read of the counts, also when the click times are bad. */
  method CaptureSnapshot(raw: Raw, times: map<string, string>, cutoff: Day, known: int -> bool)
    returns (snap: Option<RedisSnapshot>, daily: map<Bucket, int>, malformed: seq<MalformedField>)
    ensures Captures(raw, times, cutoff, known, daily, snap, malformed)
  {
    daily, malformed := CaptureDaily(raw);
    var last := LastClickedAtBatch(times, LinkCodes(daily.Keys), known);
    if last.None? { return None, daily, malformed; }
    snap := Some(RedisSnapshot(daily, last.value, StaleFields(daily, cutoff)));
  }

  lemma GlobalKeyRead(raw: Raw, done: set<string>, daily: map<Bucket, int>, valid: map<Day, int>,
                      malformed: seq<MalformedField>)
    requires LinksRead(raw, done, daily) && done == set key | key in raw && LinkStatsKey("") <= key
    requires var key := GlobalStatsKey();
      var fields := if key in raw then raw[key] else map[];
      ReadFrom(fields, fields.Keys, valid, malformed)
    ensures forall b :: ReadAt(raw, daily + GlobalFieldsOf(valid), b)
  {
    var after := daily + GlobalFieldsOf(valid);
    forall b
      ensures ReadAt(raw, after, b)
    {
      if b.Global? {
        assert b !in daily;
        HashReadAt(raw, GlobalStatsKey(), valid, malformed, after, b);
      } else {
        KeyFamilies(b.code.text, "");
        assert b in after <==> b in daily;
        assert if KeyOf(b) in done then ReadAt(raw, daily, b) else b !in daily;
      }
    }
  }

  lemma ReadBack(raw: Raw, counts: map<Bucket, int>, b: Bucket)
    requires b in counts && Shown(raw, counts, b)
    ensures Read(FieldOf(b), raw[KeyOf(b)][FieldOf(b)]) == Valid(b.day, counts[b])
  {
    ParsePrintDate(DateOf(b.day));
    DayNumberOfDate(b.day);
    ParsePrint(counts[b]);
  }

  // In an encoded store, a field of b's hash that reads as b's day is b's field.
  lemma FieldIsOf(raw: Raw, counts: map<Bucket, int>, b: Bucket, field: string)
    requires Encodes(raw, counts) && Has(raw, KeyOf(b), field)
    requires Read(field, raw[KeyOf(b)][field]).Valid? && Read(field, raw[KeyOf(b)][field]).day == b.day
    ensures b in counts && Read(field, raw[KeyOf(b)][field]).count == counts[b]
  {
    assert Named(counts, KeyOf(b), field);
    var c :| c in counts && Printable(c) && KeyOf(c) == KeyOf(b) && FieldOf(c) == field;
    assert Shown(raw, counts, c);
    ReadBack(raw, counts, c);
    NamesBucket(c, b);
  }

  lemma BucketReadBack(raw: Raw, counts: map<Bucket, int>, daily: map<Bucket, int>, b: Bucket)
    requires Encodes(raw, counts) && ReadAt(raw, daily, b)
    ensures b in daily <==> b in counts
    ensures b in daily ==> daily[b] == counts[b]
  {
    if b in counts {
      assert Shown(raw, counts, b);
      ReadBack(raw, counts, b);
    }
    if b in daily {
      var field :| Has(raw, KeyOf(b), field) && Read(field, raw[KeyOf(b)][field]) == Valid(b.day, daily[b]);
      FieldIsOf(raw, counts, b, field);
    }
  }

  lemma NothingMalformed(raw: Raw, counts: map<Bucket, int>, m: MalformedField)
    requires Encodes(raw, counts)
    ensures !MalformedSomewhere(raw, m)
  {
    if MalformedSomewhere(raw, m) {
      var key :| Has(raw, key, m.key) && raw[key][m.key] == m.value;
      assert Named(counts, key, m.key);
      var b :| b in counts && Printable(b) && KeyOf(b) == key && FieldOf(b) == m.key;
      assert Shown(raw, counts, b);
      ReadBack(raw, counts, b);
    }
  }

  ghost predicate SameAt(daily: map<Bucket, int>, counts: map<Bucket, int>, b: Bucket) {
    (b in daily <==> b in counts) && (b in daily ==> daily[b] == counts[b])
  }

  lemma SameEverywhere(daily: map<Bucket, int>, counts: map<Bucket, int>)
    requires forall b :: SameAt(daily, counts, b)
    ensures daily == counts
  {
    forall b
      ensures (b in daily <==> b in counts) && (b in daily ==> daily[b] == counts[b])
    {
      assert SameAt(daily, counts, b);
    }
  }

  lemma CapturedCounts(raw: Raw, counts: map<Bucket, int>, daily: map<Bucket, int>)
    requires Encodes(raw, counts) && forall b :: ReadAt(raw, daily, b)
    ensures daily == counts
  {
    forall b
      ensures SameAt(daily, counts, b)
    {
      BucketReadBack(raw, counts, daily, b);
    }
    SameEverywhere(daily, counts);
  }

  lemma CapturedTimes(times: map<string, string>, last: map<Code, int>, known: int -> bool, code: Code)
    requires TimesShown(times, last) && forall c :: c in last ==> known(last[c])
    ensures !BadTime(times, code, known)
    ensures LinkLastClickedAtKey(code.text) in times <==> code in last
    ensures code in last ==> TimeOf(times, code, known) == Some(last[code])
  {
    TimeShownIff(times, last, code);
    if code in last { ParsePrintInt(last[code]); }
  }

  /** Capturing what the writers wrote never fails and gives back exactly the counts, the click times of the captured
      links and the stale fields, with nothing malformed. */
  lemma CaptureUndoesWriters(raw: Raw, times: map<string, string>, counts: map<Bucket, int>, last: map<Code, int>,
                             cutoff: Day, known: int -> bool, daily: map<Bucket, int>, snap: Option<RedisSnapshot>,
                             malformed: seq<MalformedField>)
    requires Encodes(raw, counts) && TimesShown(times, last) && forall code :: code in last ==> known(last[code])
    requires Captures(raw, times, cutoff, known, daily, snap, malformed)
    ensures snap == Some(Persistence.SnapshotOf(counts, last, cutoff)) && malformed == []
  {
    CapturedCounts(raw, counts, daily);
    NoneMalformed(raw, counts, malformed);
    BatchUndoesWriters(times, last, LinkCodes(counts.Keys), known, if snap.None? then None else Some(snap.value.last));
  }

  lemma BatchUndoesWriters(times: map<string, string>, last: map<Code, int>, codes: set<Code>, known: int -> bool,
                           read: Option<map<Code, int>>)
    requires TimesShown(times, last) && forall code :: code in last ==> known(last[code])
    requires BatchOf(times, codes, known, read)
    ensures read == Some(Persistence.LastClickedAt(last, codes))
  {
    forall code
      ensures !BadTime(times, code, known) && (LinkLastClickedAtKey(code.text) in times <==> code in last)
      ensures code in last ==> TimeOf(times, code, known) == Some(last[code])
    {
      CapturedTimes(times, last, known, code);
    }
    assert read.value == Persistence.LastClickedAt(last, codes);
  }

  lemma NoneMalformed(raw: Raw, counts: map<Bucket, int>, malformed: seq<MalformedField>)
    requires Encodes(raw, counts) && forall m :: m in malformed ==> MalformedSomewhere(raw, m)
    ensures malformed == []
  {
    if malformed != [] {
      var m := malformed[0];
      assert m in malformed;
      NothingMalformed(raw, counts, m);
    }
  }
}
