/** The sliding-window rate limiter of the HTTP server (main.go). Times are nanoseconds. */
module RateLimiter {
  import opened Domain

  const MINUTE: int := 60_000_000_000

  /** The entries no older than the window. */
  function Recent(ts: seq<int>, now: int, window: int): seq<int> {
    if ts == [] then []
    else
      var last := ts[|ts| - 1];
      Recent(ts[..|ts| - 1], now, window) + if now - last <= window then [last] else []
  }

  /** The source filters the slice in place: it writes behind the position it reads. */
  method PruneInPlace(entries: array<int>, now: int, window: int) returns (kept: nat)
    modifies entries
    ensures kept <= entries.Length
    ensures entries[..kept] == Recent(old(entries[..]), now, window)
  {
    kept := 0;
    ghost var was := entries[..];
    for i := 0 to entries.Length
      invariant kept <= i
      invariant entries[i..] == was[i..]
      invariant entries[..kept] == Recent(was[..i], now, window)
    {
      assert was[..i + 1][..i] == was[..i];
      assert entries[i..][0] == was[i..][0];
      var ts := entries[i];
      assert entries[i + 1..] == entries[i..][1..];
      if now - ts <= window {
        entries[kept] := ts;
        kept := kept + 1;
        assert entries[..kept] == entries[..kept - 1] + [ts];
      }
    }
    assert was[..entries.Length] == was;
  }

  method Prune(stored: seq<int>, now: int, window: int) returns (filtered: seq<int>)
    ensures filtered == Recent(stored, now, window)
  {
    var entries := new int[|stored|](i requires 0 <= i < |stored| => stored[i]);
    assert entries[..] == stored;
    var kept := PruneInPlace(entries, now, window);
    filtered := entries[..kept];
  }

  // ---------------------------------------------------------------------------------------------
  // Runs of calls for one key: the stored list, and every request ever allowed.

  datatype Key = Key(stored: seq<int>, allowed: seq<int>)

  const FRESH := Key([], [])

  predicate Allows(k: Key, now: int, limit: nat, window: int) {
    |Recent(k.stored, now, window)| < limit
  }

  function Call(k: Key, now: int, limit: nat, window: int): Key {
    var kept := Recent(k.stored, now, window);
    if |kept| < limit then Key(kept + [now], k.allowed + [now]) else Key(kept, k.allowed)
  }

  function Run(times: seq<int>, limit: nat, window: int): Key {
    if times == [] then FRESH else Call(Run(times[..|times| - 1], limit, window), times[|times| - 1], limit, window)
  }

  predicate NonDecreasing(ts: seq<int>) {
    forall i, j :: 0 <= i < j < |ts| ==> ts[i] <= ts[j]
  }

  /** The number of allowed requests in the closed interval [from, to]. */
  function CountIn(ts: seq<int>, from: int, to: int): nat {
    if ts == [] then 0
    else CountIn(ts[..|ts| - 1], from, to) + if from <= ts[|ts| - 1] <= to then 1 else 0
  }

  lemma RecentAppend(ts: seq<int>, x: int, now: int, window: int)
    ensures Recent(ts + [x], now, window) == Recent(ts, now, window) + if now - x <= window then [x] else []
  {
    assert (ts + [x])[..|ts|] == ts;
  }

  lemma {:induction false} RecentTwice(ts: seq<int>, t: int, now: int, window: int)
    requires t <= now
    ensures Recent(Recent(ts, t, window), now, window) == Recent(ts, now, window)
  {
    if ts != [] {
      var before, last := ts[..|ts| - 1], ts[|ts| - 1];
      RecentTwice(before, t, now, window);
      if t - last <= window {
        RecentAppend(Recent(before, t, window), last, now, window);
      } else {
        assert Recent(ts, t, window) == Recent(before, t, window);
      }
    }
  }

  /** What the pruned list keeps is, from any later moment, all that the full history would. */
  lemma {:induction false} StoredIsEnough(times: seq<int>, limit: nat, window: int, now: int)
    requires NonDecreasing(times + [now])
    ensures var k := Run(times, limit, window); Recent(k.stored, now, window) == Recent(k.allowed, now, window)
  {
    if times != [] {
      var before, t := times[..|times| - 1], times[|times| - 1];
      assert (times + [now])[|times| - 1] == t && (times + [now])[|times|] == now;
      assert forall i :: 0 <= i < |times| ==> (times + [now])[i] == times[i];
      assert before + [t] == times;
      StoredIsEnough(before, limit, window, t);
      var k := Run(before, limit, window);
      var kept := Recent(k.stored, t, window);
      RecentTwice(k.stored, t, now, window);
      RecentTwice(k.allowed, t, now, window);
      RecentAppend(kept, t, now, window);
      RecentAppend(k.allowed, t, now, window);
    }
  }

  lemma {:induction false} RecentCounts(ts: seq<int>, now: int, window: int)
    requires forall i :: 0 <= i < |ts| ==> ts[i] <= now
    ensures |Recent(ts, now, window)| == CountIn(ts, now - window, now)
  {
    if ts != [] {
      RecentCounts(ts[..|ts| - 1], now, window);
    }
  }

  lemma {:induction false} AllowedAreTimes(times: seq<int>, limit: nat, window: int, now: int)
    requires forall i :: 0 <= i < |times| ==> times[i] <= now
    ensures forall i :: 0 <= i < |Run(times, limit, window).allowed| ==> Run(times, limit, window).allowed[i] <= now
  {
    if times != [] {
      AllowedAreTimes(times[..|times| - 1], limit, window, now);
    }
  }

  /** With a nondecreasing clock, each decision is exactly what counting the full history gives. */
  lemma DecidesByFullCount(times: seq<int>, limit: nat, window: int, now: int)
    requires NonDecreasing(times + [now])
    ensures var k := Run(times, limit, window);
            Allows(k, now, limit, window) <==> CountIn(k.allowed, now - window, now) < limit
  {
    StoredIsEnough(times, limit, window, now);
    assert forall i :: 0 <= i < |times| ==> (times + [now])[i] == times[i] && (times + [now])[|times|] == now;
    AllowedAreTimes(times, limit, window, now);
    RecentCounts(Run(times, limit, window).allowed, now, window);
  }

  lemma {:induction false} CountNarrower(ts: seq<int>, from: int, to: int, from': int, to': int)
    requires from <= from' && forall i :: 0 <= i < |ts| ==> ts[i] <= to
    ensures CountIn(ts, from', to') <= CountIn(ts, from, to)
  {
    if ts != [] {
      CountNarrower(ts[..|ts| - 1], from, to, from', to');
    }
  }

  lemma CountAppend(ts: seq<int>, x: int, from: int, to: int)
    ensures CountIn(ts + [x], from, to) == CountIn(ts, from, to) + if from <= x <= to then 1 else 0
  {
    assert (ts + [x])[..|ts|] == ts;
  }

  lemma StaysUnderLimit(k: Key, t: int, limit: nat, window: int, from: int)
    requires forall i :: 0 <= i < |k.allowed| ==> k.allowed[i] <= t
    requires Allows(k, t, limit, window) <==> CountIn(k.allowed, t - window, t) < limit
    requires CountIn(k.allowed, from, from + window) <= limit
    ensures CountIn(Call(k, t, limit, window).allowed, from, from + window) <= limit
  {
    CountAppend(k.allowed, t, from, from + window);
    if t <= from + window {
      CountNarrower(k.allowed, t - window, t, from, from + window);
    }
  }

  /** No closed interval of the window's length ever contains more than `limit` allowed requests. */
  lemma {:induction false} NeverOverLimit(times: seq<int>, limit: nat, window: int, from: int)
    requires NonDecreasing(times)
    ensures CountIn(Run(times, limit, window).allowed, from, from + window) <= limit
  {
    if times != [] {
      var before, t := times[..|times| - 1], times[|times| - 1];
      assert before + [t] == times;
      NeverOverLimit(before, limit, window, from);
      DecidesByFullCount(before, limit, window, t);
      AllowedAreTimes(before, limit, window, t);
      StaysUnderLimit(Run(before, limit, window), t, limit, window, from);
    }
  }

  // ---------------------------------------------------------------------------------------------
  // The limiter itself: one list per key.

  function Lookup(m: map<Str, seq<int>>, key: Str): seq<int> { if key in m then m[key] else [] }

  /** Every key's list is the one its calls so far lead to. */
  ghost predicate Matches(counts: map<Str, seq<int>>, calls: map<Str, seq<int>>, limit: nat, window: int) {
    forall key: Str {:trigger Lookup(counts, key)} ::
      Lookup(counts, key) == Run(Lookup(calls, key), limit, window).stored
  }

  lemma Record(counts: map<Str, seq<int>>, calls: map<Str, seq<int>>, limit: nat, window: int, key: Str, now: int)
    requires Matches(counts, calls, limit, window)
    ensures var k := Run(Lookup(calls, key), limit, window);
            && Lookup(counts, key) == k.stored
            && Matches(counts[key := Call(k, now, limit, window).stored],
                       calls[key := Lookup(calls, key) + [now]], limit, window)
  {
    var ts := Lookup(calls, key);
    assert (ts + [now])[..|ts|] == ts;
    var counts' := counts[key := Call(Run(ts, limit, window), now, limit, window).stored];
    var calls' := calls[key := ts + [now]];
    forall k: Str
      ensures Lookup(counts', k) == Run(Lookup(calls', k), limit, window).stored
    {
      assert k != key ==> Lookup(counts', k) == Lookup(counts, k) && Lookup(calls', k) == Lookup(calls, k);
    }
  }

  class Limiter {
    var counts: map<Str, seq<int>>
    const limit: nat
    const window: int
    ghost var calls: map<Str, seq<int>>

    ghost predicate Valid()
      reads this
    {
      limit > 0 && window > 0 && Matches(counts, calls, limit, window)
    }

    constructor (limit: int, window: int)
      ensures Valid() && counts == map[] && calls == map[]
      ensures this.limit == if limit <= 0 then 60 else limit
      ensures this.window == if window <= 0 then MINUTE else window
    {
      this.limit := if limit <= 0 then 60 else limit;
      this.window := if window <= 0 then MINUTE else window;
      counts := map[];
      calls := map[];
    }

    method Allow(key: Str, now: int) returns (ok: bool)
      requires Valid()
      modifies this
      ensures Valid() && calls == old(calls)[key := Lookup(old(calls), key) + [now]]
      ensures ok == Allows(Run(Lookup(old(calls), key), limit, window), now, limit, window)
    {
      Record(counts, calls, limit, window, key, now);
      var filtered := Prune(Lookup(counts, key), now, window);
      calls := calls[key := Lookup(calls, key) + [now]];
      if |filtered| >= limit {
        counts := counts[key := filtered];
        return false;
      }
      counts := counts[key := filtered + [now]];
      ok := true;
    }
  }
}
