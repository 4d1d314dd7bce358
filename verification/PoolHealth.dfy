/** Engine health and the process-wide pool slot: when conversions that kill LibreOffice
    disable the managed pool. Each record call is one step. */
module PoolHealth {
  import opened Wrappers

  const STRIKE_COST := 2
  const STRIKE_LIMIT := 6

  datatype Event = Crash | Converted

  function NextScore(score: nat, e: Event): nat {
    match e
    case Crash => score + STRIKE_COST
    case Converted => if score > 0 then score - 1 else 0
  }

  /** The score after a history of recorded conversions, most recent last. */
  function Score(h: seq<Event>): nat {
    if h == [] then 0 else NextScore(Score(h[..|h| - 1]), h[|h| - 1])
  }

  /** The score has reached the limit at some moment of the history. */
  ghost predicate ReachedLimit(h: seq<Event>) {
    exists n :: 0 <= n <= |h| && Score(h[..n]) >= STRIKE_LIMIT
  }

  function Count(e: Event, h: seq<Event>): nat {
    if h == [] then 0 else Count(e, h[..|h| - 1]) + if h[|h| - 1] == e then 1 else 0
  }

  /** 2 * crashes - successes. */
  function Balance(h: seq<Event>): int {
    STRIKE_COST * Count(Crash, h) - Count(Converted, h)
  }

  /** `m` is the largest balance of any suffix of `h`; the empty suffix counts, so `m >= 0`. */
  ghost predicate IsWorstSuffix(h: seq<Event>, m: int) {
    && (forall k :: 0 <= k <= |h| ==> Balance(h[k..]) <= m)
    && (exists k :: 0 <= k <= |h| && Balance(h[k..]) == m)
  }

  /** The clipped score is a reflected walk: the worst balance over all suffixes. */
  lemma {:induction false} ScoreIsWorstSuffix(h: seq<Event>)
    ensures IsWorstSuffix(h, Score(h))
  {
    if h == [] {
      assert h[0..] == [];
      assert Balance(h[0..]) == 0;
    } else {
      var before, e := h[..|h| - 1], h[|h| - 1];
      ScoreIsWorstSuffix(before);
      forall k | 0 <= k <= |before| ensures Balance(h[k..]) == Balance(before[k..]) + if e.Crash? then 2 else -1 {
        assert h[k..][..|h[k..]| - 1] == before[k..];
      }
      assert h[|h|..] == [] && before[|before|..] == [];
      assert Balance([]) == 0;
      var k :| 0 <= k <= |before| && Balance(before[k..]) == Score(before);
      if e.Crash? || Score(before) > 0 {
        assert Balance(h[k..]) == Score(h);
      } else {
        assert Balance(h[|h|..]) == Score(h);
      }
    }
  }

  /** While the limit has never been reached, crashes stay bounded by successes. */
  lemma EnabledBoundsCrashes(h: seq<Event>)
    requires !ReachedLimit(h)
    ensures 2 * Count(Crash, h) <= Count(Converted, h) + 5
  {
    ScoreIsWorstSuffix(h);
    assert h[0..] == h && h[..|h|] == h;
    assert Balance(h[0..]) <= Score(h[..|h|]);
  }

  lemma ReachedNow(h: seq<Event>)
    requires Score(h) >= STRIKE_LIMIT
    ensures ReachedLimit(h)
  {
    assert h[..|h|] == h;
  }

  lemma ReachedSnoc(h: seq<Event>, e: Event)
    ensures ReachedLimit(h + [e]) <==> ReachedLimit(h) || Score(h + [e]) >= STRIKE_LIMIT
  {
    hide Score;
    var after := h + [e];
    if ReachedLimit(after) {
      var n :| 0 <= n <= |after| && Score(after[..n]) >= STRIKE_LIMIT;
      if n == |after| {
        assert after[..n] == after;
      } else {
        assert after[..n] == h[..n];
      }
    }
    if ReachedLimit(h) {
      ReachedStays(h, e);
    }
    if Score(after) >= STRIKE_LIMIT {
      ReachedNow(after);
    }
  }

  /** The limit is first reached by a crash, at exactly six or seven. */
  lemma FirstReached(h: seq<Event>, e: Event)
    requires !ReachedLimit(h)
    ensures ReachedLimit(h + [e]) <==> e.Crash? && Score(h) + STRIKE_COST >= STRIKE_LIMIT
  {
    hide ReachedLimit, Score;
    ScoreSnoc(h, e);
    ReachedSnoc(h, e);
    if Score(h) >= STRIKE_LIMIT {
      ReachedNow(h);
    }
  }

  lemma ReachedStays(h: seq<Event>, e: Event)
    requires ReachedLimit(h)
    ensures ReachedLimit(h + [e])
  {
    var n :| 0 <= n <= |h| && Score(h[..n]) >= STRIKE_LIMIT;
    assert (h + [e])[..n] == h[..n];
  }

  /** Some stretch of the history has two crashes' worth more than its successes by six. */
  ghost predicate HasBadStretch(h: seq<Event>) {
    exists a, b :: 0 <= a <= b <= |h| && IsBad(h[a..b])
  }

  ghost predicate IsBad(stretch: seq<Event>) {
    2 * Count(Crash, stretch) - Count(Converted, stretch) >= 6
  }

  /** The limit has been reached exactly when some stretch of the history was that bad. */
  lemma ReachedIffBadStretch(h: seq<Event>)
    ensures ReachedLimit(h) <==> HasBadStretch(h)
  {
    hide Count, Score;
    if ReachedLimit(h) {
      var n :| 0 <= n <= |h| && Score(h[..n]) >= STRIKE_LIMIT;
      ScoreIsWorstSuffix(h[..n]);
      var k :| 0 <= k <= n && Balance(h[..n][k..]) == Score(h[..n]);
      assert h[..n][k..] == h[k..n];
      assert IsBad(h[k..n]);
    }
    if a, b :| 0 <= a <= b <= |h| && IsBad(h[a..b]) {
      ScoreIsWorstSuffix(h[..b]);
      assert h[..b][a..] == h[a..b];
      assert Balance(h[..b][a..]) >= 6;
    }
  }

  lemma ScoreSnoc(h: seq<Event>, e: Event)
    ensures Score(h + [e]) == NextScore(Score(h), e)
  {
    assert (h + [e])[..|h|] == h;
  }

  /** The module's globals. `pool` identifies the published pool. */
  class PoolGlobals {
    var pool: Option<nat>
    var disabled: bool
    var strikes: nat
    ghost var history: seq<Event>
    ghost var published: seq<nat>  // every pool ever published

    /** The score follows the history; at most one pool is ever published; once a pool
        has been published, the engine is disabled exactly when the score has reached
        the limit; without one there has been no conversion to record. */
    ghost predicate Valid()
      reads this
    {
      && strikes == Score(history)
      && |published| <= 1
      && (pool.Some? ==> published == [pool.value] && !disabled)
      && (published != [] ==> (disabled <==> ReachedLimit(history)))
      && (published != [] && pool.None? ==> disabled)
      && (published == [] ==> history == [])
    }

    constructor ()
      ensures Valid() && pool == None && !disabled && history == [] && published == []
    {
      pool, disabled, strikes, history, published := None, false, 0, [], [];
    }

    /** A conversion on a published pool killed LibreOffice. */
    method RecordStrike()
      requires Valid() && published != []
      modifies this
      ensures Valid() && history == old(history) + [Crash] && published == old(published)
      ensures old(disabled) ==> disabled && pool == old(pool)
      ensures !old(disabled) ==> (disabled <==> Score(history) >= STRIKE_LIMIT)
      ensures !old(disabled) ==> pool == if disabled then None else old(pool)
    {
      ScoreSnoc(history, Crash);
      if ReachedLimit(history) { ReachedStays(history, Crash); } else { FirstReached(history, Crash); }
      history := history + [Crash];
      strikes := strikes + STRIKE_COST;
      if strikes < STRIKE_LIMIT || disabled {
        return;
      }
      disabled := true;
      if pool.Some? {
        pool := None;
      }
    }

    method RecordSuccess()
      requires Valid() && published != []
      modifies this
      ensures Valid() && history == old(history) + [Converted] && published == old(published)
      ensures disabled == old(disabled) && pool == old(pool)
    {
      ScoreSnoc(history, Converted);
      if ReachedLimit(history) { ReachedStays(history, Converted); } else { FirstReached(history, Converted); }
      history := history + [Converted];
      strikes := if strikes - 1 > 0 then strikes - 1 else 0;
    }

    /** Publish the pool of the first launcher whose server starts; `boots[i]` says whether
        that of candidate `i` does. When none does the engine stays disabled. */
    method ActivatePool(hasClient: bool, boots: seq<bool>, fresh0: nat) returns (r: Option<nat>)
      requires Valid()
      modifies this
      ensures Valid() && history == old(history)
      ensures r.Some? <==> old(WouldActivate(hasClient, boots))
      ensures old(pool).Some? ==> r == old(pool) && pool == old(pool) && published == old(published)
      ensures old(pool).None? && old(disabled) ==> r == None && pool == None && disabled && published == old(published)
      ensures old(pool).None? && !old(disabled) ==>
        if hasClient && true in boots
        then r.Some? && pool == r && !disabled && fresh0 <= r.value < fresh0 + |boots|
             && boots[r.value - fresh0] && forall i :: 0 <= i < r.value - fresh0 ==> !boots[i]
        else r == None && pool == None && disabled
    {
      if pool.Some? {
        return pool;
      }
      if disabled {
        return None;
      }
      assert published == [];
      if !hasClient || boots == [] {
        disabled := true;
        return None;
      }
      for i := 0 to |boots|
        invariant Valid() && !disabled && pool == None && published == [] && history == old(history)
        invariant forall k :: 0 <= k < i ==> !boots[k]
      {
        if !boots[i] {
          continue;
        }
        pool := Some(fresh0 + i);
        published := [fresh0 + i];
        assert !ReachedLimit(history) by { assert forall n :: 0 <= n <= |history| ==> history[..n] == []; }
        return pool;
      }
      disabled := true;
      return None;
    }

    /** What activation would return: the published pool, or the first that boots. */
    predicate WouldActivate(hasClient: bool, boots: seq<bool>)
      reads this
    {
      pool.Some? || (!disabled && hasClient && true in boots)
    }

    /** A check that starts nothing. It says yes exactly when there are outcomes of the
        candidates for which activation returns a pool. */
    method PoolAvailable(hasClient: bool, candidates: nat) returns (b: bool)
      ensures b <==> exists boots: seq<bool> :: |boots| == candidates && WouldActivate(hasClient, boots)
    {
      ghost var all := seq(candidates, i => true);
      assert candidates > 0 ==> all[0] in all;
      assert WouldActivate(hasClient, all) <==> pool.Some? || (!disabled && hasClient && candidates > 0);
      if pool.Some? {
        return true;
      }
      if disabled {
        return false;
      }
      return candidates > 0 && hasClient;
    }
  }
}
