/** common/src/redis_keys.rs */
module RedisKeys {
  const STATS := "stats"
  const CACHE := "cache"

  function GlobalStatsKey(): string { STATS + ":global" }

  function LinkStatsKey(shortCode: string): string { STATS + ":link:" + shortCode }

  function LinkCacheKey(shortCode: string): string { CACHE + ":" + shortCode }

  function LinkLastClickedAtKey(shortCode: string): string { STATS + ":last_clicked_at:" + shortCode }

  function StripPrefix(key: string, prefix: string): (rest: string)
    requires prefix <= key
    ensures key == prefix + rest
  {
    key[|prefix|..]
  }

  lemma PrefixCancels(prefix: string, a: string, b: string)
    ensures prefix + a == prefix + b <==> a == b
    ensures prefix <= prefix + a && (prefix + a)[|prefix|..] == a
  {
    assert (prefix + a)[|prefix|..] == a && (prefix + b)[|prefix|..] == b;
  }

  /** The keys as texts. */
  lemma KeyTexts(a: string)
    ensures GlobalStatsKey() == "stats:global" && LinkStatsKey(a) == "stats:link:" + a
    ensures LinkLastClickedAtKey(a) == "stats:last_clicked_at:" + a && LinkCacheKey(a) == "cache:" + a
  {
    assert STATS + ":link:" == "stats:link:" && STATS + ":last_clicked_at:" == "stats:last_clicked_at:";
  }

  /** The four families never meet, whatever the codes are, and within a family the key names the code. */
  lemma KeyFamilies(a: string, b: string)
    ensures GlobalStatsKey() != LinkStatsKey(a) && GlobalStatsKey() != LinkLastClickedAtKey(a)
    ensures GlobalStatsKey() != LinkCacheKey(a) && LinkStatsKey(a) != LinkLastClickedAtKey(b)
    ensures LinkStatsKey(a) != LinkCacheKey(b) && LinkLastClickedAtKey(a) != LinkCacheKey(b)
    ensures LinkStatsKey("") <= LinkStatsKey(a) && StripPrefix(LinkStatsKey(a), LinkStatsKey("")) == a
    ensures LinkStatsKey(a) == LinkStatsKey(b) <==> a == b
    ensures LinkLastClickedAtKey(a) == LinkLastClickedAtKey(b) <==> a == b
    ensures LinkCacheKey(a) == LinkCacheKey(b) <==> a == b
  {
    assert LinkStatsKey("") == STATS + ":link:";
    assert GlobalStatsKey()[6] == 'g' && GlobalStatsKey()[0] == 's';
    assert LinkStatsKey(a)[0] == 's' && LinkStatsKey(a)[6] == 'l' && LinkStatsKey(a)[7] == 'i';
    assert forall code :: LinkLastClickedAtKey(code)[0] == 's';
    assert forall code :: LinkLastClickedAtKey(code)[6..8] == "la";
    assert forall code :: LinkCacheKey(code)[0] == 'c';
    PrefixCancels(STATS + ":link:", a, b);
    PrefixCancels(STATS + ":last_clicked_at:", a, b);
    PrefixCancels(CACHE + ":", a, b);
  }
}
