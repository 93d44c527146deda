/** The in-memory retry budget: a deque per key that forgets, and the full history its answers agree with. */
module RollingBudget {
  import opened Domain
  import opened WindowPeak

  /** Grants later than an instant. */
  function CountAfter(times: seq<int>, since: int): nat {
    if times == [] then 0
    else CountAfter(times[..|times| - 1], since) + (if times[|times| - 1] > since then 1 else 0)
  }

  /** Up to the latest grant, the grants after an instant are those in the window that begins with the next one. */
  lemma {:induction false} AfterIsIn(times: seq<int>, since: int, now: int)
    requires forall i :: 0 <= i < |times| ==> times[i] <= now
    ensures CountAfter(times, since) == CountIn(times, since + 1, now)
  {
    if times != [] {
      AfterIsIn(times[..|times| - 1], since, now);
    }
  }

  lemma {:induction false} KeptAreCounted(expired: seq<int>, kept: seq<int>, since: int)
    requires forall i :: 0 <= i < |expired| ==> expired[i] <= since
    requires forall i :: 0 <= i < |kept| ==> kept[i] > since
    ensures CountAfter(expired + kept, since) == |kept|
  {
    if kept != [] {
      assert (expired + kept)[..|expired + kept| - 1] == expired + kept[..|kept| - 1];
      KeptAreCounted(expired, kept[..|kept| - 1], since);
    } else if expired != [] {
      assert expired + kept == expired;
      KeptAreCounted(expired[..|expired| - 1], [], since);
      assert expired[..|expired| - 1] + [] == expired[..|expired| - 1];
    }
  }

  function Get(m: map<SellerId, seq<int>>, key: SellerId): seq<int> {
    if key in m then m[key] else []
  }

  /** What is kept of a key are its latest grants; what was dropped had left the window by then. */
  predicate IsKept(all: seq<int>, kept: seq<int>, windowMs: int, clock: int) {
    && |kept| <= |all| && all[|all| - |kept|..] == kept && Ascending(all)
    && (forall i :: 0 <= i < |all| ==> all[i] <= clock)
    && (forall i :: 0 <= i < |all| - |kept| ==> all[i] <= clock - windowMs)
  }

  lemma PruningKeeps(all: seq<int>, before: seq<int>, n: nat, windowMs: int, clock: int, now: int)
    requires IsKept(all, before, windowMs, clock) && clock <= now && n <= |before|
    requires forall i :: 0 <= i < n ==> before[i] <= now - windowMs
    ensures IsKept(all, before[n..], windowMs, now)
  {
    hide Ascending;
    var d := |all| - |before|;
    assert all[d + n..] == all[d..][n..];
    forall i | 0 <= i < d + n
      ensures all[i] <= now - windowMs
    {
      assert i >= d ==> all[i] == all[d..][i - d];
    }
  }

  lemma RestIsRecent(all: seq<int>, before: seq<int>, n: nat, windowMs: int, clock: int, now: int)
    requires IsKept(all, before, windowMs, clock) && clock <= now && n <= |before|
    requires forall i :: 0 <= i < n ==> before[i] <= now - windowMs
    requires n < |before| ==> before[n] > now - windowMs
    ensures var d := |all| - |before|;
            && d >= 0 && (forall i :: 0 <= i < d + n ==> all[i] <= now - windowMs)
            && (forall i :: d + n <= i < |all| ==> all[i] > now - windowMs)
  {
    var d := |all| - |before|;
    assert forall i :: d <= i < |all| ==> all[i] == all[d..][i - d];
    if n < |before| {
      assert all[d + n] == before[n];
    }
  }

  /** Dropping what has left the window loses nothing that a count could still see. */
  lemma PruningIsExact(all: seq<int>, before: seq<int>, n: nat, windowMs: int, clock: int, now: int)
    requires IsKept(all, before, windowMs, clock) && clock <= now && n <= |before|
    requires forall i :: 0 <= i < n ==> before[i] <= now - windowMs
    requires n < |before| ==> before[n] > now - windowMs
    ensures IsKept(all, before[n..], windowMs, now)
    ensures CountAfter(all, now - windowMs) == |before| - n
  {
    var d := |all| - |before|;
    PruningKeeps(all, before, n, windowMs, clock, now);
    hide IsKept;
    RestIsRecent(all, before, n, windowMs, clock, now);
    assert all == all[..d + n] + all[d + n..];
    KeptAreCounted(all[..d + n], all[d + n..], now - windowMs);
  }

  lemma GrantIsKept(all: seq<int>, kept: seq<int>, windowMs: int, now: int)
    requires IsKept(all, kept, windowMs, now)
    ensures IsKept(all + [now], kept + [now], windowMs, now)
  {
    var d := |all| - |kept|;
    assert (all + [now])[d..] == all[d..] + [now];
  }

  lemma {:induction false} WindowIsRecent(times: seq<int>, lo: int, hi: int, since: int)
    requires since < lo
    ensures CountIn(times, lo, hi) <= CountAfter(times, since)
  {
    if times != [] {
      WindowIsRecent(times[..|times| - 1], lo, hi, since);
    }
  }

  /** A grant that finds room leaves every window of the whole history within the limit. */
  lemma GrantKeepsBudget(all: seq<int>, windowMs: int, limit: int, now: int)
    requires WithinBudget(all, windowMs, Max(limit, 0)) && CountAfter(all, now - windowMs) < limit
    ensures WithinBudget(all + [now], windowMs, Max(limit, 0))
  {
    forall lo, hi | hi < lo + windowMs
      ensures CountIn(all + [now], lo, hi) <= Max(limit, 0)
    {
      AppendCounts(all, now, lo, hi);
      if lo <= now <= hi {
        WindowIsRecent(all, lo, hi, now - windowMs);
      }
    }
  }

  /** What the budget keeps of a key is exact, and no window of the key's whole history is over the limit. */
  ghost predicate IsSound(all: seq<int>, kept: seq<int>, windowMs: int, limit: int, clock: int) {
    IsKept(all, kept, windowMs, clock) && WithinBudget(all, windowMs, Max(limit, 0))
  }

  lemma SoundIsPast(all: seq<int>, kept: seq<int>, windowMs: int, limit: int, clock: int)
    requires IsSound(all, kept, windowMs, limit, clock)
    ensures forall i :: 0 <= i < |all| ==> all[i] <= clock
  {
    hide WithinBudget;
  }

  lemma NothingIsSound(windowMs: int, limit: int, clock: int)
    ensures IsSound([], [], windowMs, limit, clock)
  {
  }

  lemma PassingTimeIsSound(all: seq<int>, kept: seq<int>, windowMs: int, limit: int, clock: int, now: int)
    requires IsSound(all, kept, windowMs, limit, clock) && clock <= now
    ensures IsSound(all, kept, windowMs, limit, now)
  {
    hide WithinBudget;
  }

  /** Pruning and, when there is room, granting. */
  lemma AcquireIsSound(
    all: seq<int>, before: seq<int>, times: seq<int>, windowMs: int, limit: int, clock: int, now: int)
    requires IsSound(all, before, windowMs, limit, clock) && clock <= now
    requires |times| <= |before| && times == before[|before| - |times|..]
    requires forall i :: 0 <= i < |before| - |times| ==> before[i] <= now - windowMs
    requires times != [] ==> times[0] > now - windowMs
    ensures CountAfter(all, now - windowMs) == |times|
    ensures IsSound(all, times, windowMs, limit, now)
    ensures |times| < limit ==> IsSound(all + [now], times + [now], windowMs, limit, now)
  {
    hide WithinBudget;
    PruningIsExact(all, before, |before| - |times|, windowMs, clock, now);
    if |times| < limit {
      GrantIsKept(all, times, windowMs, now);
      GrantKeepsBudget(all, windowMs, limit, now);
    }
  }

  /** Removes the times at the front that are not later than the cutoff. */
  method Prune(before: seq<int>, cutoff: int) returns (times: seq<int>)
    ensures |times| <= |before| && times == before[|before| - |times|..]
    ensures forall i :: 0 <= i < |before| - |times| ==> before[i] <= cutoff
    ensures times != [] ==> times[0] > cutoff
  {
    times := before;
    while times != [] && times[0] <= cutoff
      invariant |times| <= |before| && times == before[|before| - |times|..]
      invariant forall i :: 0 <= i < |before| - |times| ==> before[i] <= cutoff
      decreases |times|
    {
      times := times[1..];
    }
  }

  class RollingWindowBudget {
    const limit: int
    const windowMs: int
    var usage: map<SellerId, seq<int>>
    // Every grant there ever was, and the latest clock reading; the class itself forgets them.
    ghost var grants: map<SellerId, seq<int>>
    ghost var clock: int

    ghost predicate Valid()
      reads this
    {
      forall key :: IsSound(Get(grants, key), Get(usage, key), windowMs, limit, clock)
    }

    constructor (limit: int, windowMs: int, ghost now: int)
      ensures Valid() && grants == map[] && clock == now && this.limit == limit && this.windowMs == windowMs
    {
      hide IsSound;
      this.limit := limit;
      this.windowMs := windowMs;
      usage := map[];
      grants := map[];
      clock := now;
      NothingIsSound(windowMs, limit, now);
    }

    /**
     * The answer is decided by all grants the key ever had, although the class has forgotten most of them:
     * it is yes exactly when (now - windowMs, now] holds fewer than the limit.
     */
    method TryAcquire(key: SellerId, now: int) returns (granted: bool)
      requires Valid() && clock <= now
      modifies this
      ensures Valid() && clock == now
      ensures granted <==> CountIn(Get(old(grants), key), now - windowMs + 1, now) < limit
      ensures grants == if granted then old(grants)[key := Get(old(grants), key) + [now]] else old(grants)
    {
      hide IsSound;
      ghost var all, before := Get(grants, key), Get(usage, key);
      var times := Prune(if key in usage then usage[key] else [], now - windowMs);
      AcquireIsSound(all, before, times, windowMs, limit, clock, now);
      SoundIsPast(all, before, windowMs, limit, clock);
      AfterIsIn(all, now - windowMs, now);
      granted := |times| < limit;
      if granted {
        times := times + [now];
        grants := grants[key := all + [now]];
      }
      usage := usage[key := times];
      clock := now;
      forall k
        ensures IsSound(Get(grants, k), Get(usage, k), windowMs, limit, now)
      {
        if k != key {
          PassingTimeIsSound(Get(old(grants), k), Get(old(usage), k), windowMs, limit, old(clock), now);
        }
      }
    }
  }
}
