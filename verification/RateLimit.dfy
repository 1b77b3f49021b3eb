/** The sliding-window rate limiter: at most `requests` allowed calls per key
    in any window, over the whole life of the limiter. */
module RateLimit {
  /** One call of Allow, and whether it was allowed. */
  datatype Call = Call(key: string, at: int, allowed: bool)

  /** All the calls of a limiter, the latest on the outside. */
  datatype History = Start | Then(earlier: History, last: Call)

  /** What Allow answers; with a limit below one it indexes an empty slice. */
  datatype Verdict = Allowed(remaining: int) | Denied(retryAfter: int) | Panicked

  // ----- The specification: decisions from the whole history -----

  /** The times at which `key` was allowed, oldest first. */
  function Times(h: History, key: string): seq<int> {
    match h
    case Start => []
    case Then(before, c) => if c.allowed && c.key == key then Times(before, key) + [c.at] else Times(before, key)
  }

  /** The times after `s`, in order. */
  function After(ts: seq<int>, s: int): seq<int> {
    if ts == [] then []
    else After(ts[..|ts| - 1], s) + if ts[|ts| - 1] > s then [ts[|ts| - 1]] else []
  }

  /** The times in (s, e], in order. */
  function Within(ts: seq<int>, s: int, e: int): seq<int> {
    if ts == [] then []
    else
      var t := ts[|ts| - 1];
      Within(ts[..|ts| - 1], s, e) + if s < t <= e then [t] else []
  }

  /** Fewer than `requests` calls for `key` were allowed in the window that ends now. */
  predicate HasRoom(h: History, key: string, now: int, requests: int, window: int) {
    |After(Times(h, key), now - window)| < requests
  }

  predicate NotAfter(h: History, now: int) {
    h.Then? ==> h.last.at <= now
  }

  /** A run under a clock that never goes back, each call decided by HasRoom. */
  ghost predicate Run(h: History, requests: int, window: int) {
    match h
    case Start => true
    case Then(before, c) =>
      Run(before, requests, window) && NotAfter(before, c.at) &&
      (c.allowed <==> HasRoom(before, c.key, c.at, requests, window))
  }

  // ----- Lists of times -----

  predicate Ascending(ts: seq<int>) {
    forall i, j :: 0 <= i < j < |ts| ==> ts[i] <= ts[j]
  }

  predicate AllUpTo(ts: seq<int>, bound: int) {
    forall i :: 0 <= i < |ts| ==> ts[i] <= bound
  }

  lemma {:induction false} TimesAscend(h: History, key: string, requests: int, window: int, now: int)
    requires Run(h, requests, window) && NotAfter(h, now)
    ensures Ascending(Times(h, key)) && AllUpTo(Times(h, key), now)
  {
    if h.Start? {
    } else {
      TimesAscend(h.earlier, key, requests, window, h.last.at);
    }
  }

  lemma AfterSnoc(ts: seq<int>, t: int, s: int)
    ensures After(ts + [t], s) == After(ts, s) + if t > s then [t] else []
  {
    assert (ts + [t])[..|ts|] == ts;
  }

  lemma WithinSnoc(ts: seq<int>, t: int, s: int, e: int)
    ensures Within(ts + [t], s, e) == Within(ts, s, e) + if s < t <= e then [t] else []
  {
    assert (ts + [t])[..|ts|] == ts;
  }

  lemma {:induction false} AfterIsOrdered(ts: seq<int>, s: int)
    requires Ascending(ts)
    ensures Ascending(After(ts, s))
    ensures forall i :: 0 <= i < |After(ts, s)| ==> After(ts, s)[i] > s && After(ts, s)[i] <= ts[|ts| - 1]
  {
    if ts == [] {
    } else {
      AfterIsOrdered(ts[..|ts| - 1], s);
    }
  }

  lemma {:induction false} AfterKeepsAll(ts: seq<int>, s: int)
    requires forall i :: 0 <= i < |ts| ==> ts[i] > s
    ensures After(ts, s) == ts
  {
    if ts == [] {
    } else {
      AfterKeepsAll(ts[..|ts| - 1], s);
    }
  }

  lemma {:induction false} AfterDropsHead(ts: seq<int>, s: int)
    ensures |After(ts, s)| <= |ts|
    ensures ts != [] && ts[0] <= s ==> |After(ts, s)| < |ts|
  {
    if ts == [] {
    } else {
      AfterDropsHead(ts[..|ts| - 1], s);
    }
  }

  lemma {:induction false} AfterAfter(ts: seq<int>, s: int, later: int)
    requires s <= later
    ensures After(After(ts, s), later) == After(ts, later)
  {
    if ts == [] {
    } else {
      var front, t := ts[..|ts| - 1], ts[|ts| - 1];
      AfterAfter(front, s, later);
      AfterSnoc(After(front, s), t, later);
      assert After(ts, s) == if t > s then After(front, s) + [t] else After(front, s);
    }
  }

  lemma {:induction false} WithinIsAmongAfter(ts: seq<int>, s: int, e: int, from: int)
    requires from <= s
    ensures |Within(ts, s, e)| <= |After(ts, from)|
  {
    if ts == [] {
    } else {
      WithinIsAmongAfter(ts[..|ts| - 1], s, e, from);
    }
  }

  lemma {:induction false} WithinUpToNow(ts: seq<int>, s: int, now: int)
    requires AllUpTo(ts, now)
    ensures Within(ts, s, now) == After(ts, s)
  {
    if ts == [] {
    } else {
      WithinUpToNow(ts[..|ts| - 1], s, now);
      assert ts[|ts| - 1] <= now;
    }
  }

  // ----- The window theorem -----

  function Positive(n: int): nat {
    if n > 0 then n else 0
  }

  /** In every run, every half-open window of the configured length contains
      at most `requests` allowed calls of any one key. */
  lemma {:induction false} EveryWindowIsBounded(h: History, requests: int, window: int, key: string, s: int)
    requires Run(h, requests, window)
    ensures |Within(Times(h, key), s, s + window)| <= Positive(requests)
  {
    match h {
      case Start =>
      case Then(before, c) =>
        EveryWindowIsBounded(before, requests, window, key, s);
        if c.allowed && c.key == key {
          var ts := Times(before, key);
          WithinSnoc(ts, c.at, s, s + window);
          if s < c.at <= s + window {
            WithinIsAmongAfter(ts, s, s + window, c.at - window);
          }
        }
    }
  }

  /** The window that ends now is never overfull. */
  lemma PresentWindowIsBounded(h: History, requests: int, window: int, key: string, now: int)
    requires Run(h, requests, window) && NotAfter(h, now)
    ensures |After(Times(h, key), now - window)| <= Positive(requests)
  {
    EveryWindowIsBounded(h, requests, window, key, now - window);
    TimesAscend(h, key, requests, window, now);
    WithinUpToNow(Times(h, key), now - window, now);
  }

  /** A call is allowed exactly if the window that ends with it has fewer than
      `requests` allowed calls for its key: none is denied that could be allowed. */
  lemma AllowedUnlessFull(before: History, c: Call, requests: int, window: int)
    requires Run(Then(before, c), requests, window)
    ensures c.allowed <==> |Within(Times(before, c.key), c.at - window, c.at)| < requests
  {
    TimesAscend(before, c.key, requests, window, c.at);
    WithinUpToNow(Times(before, c.key), c.at - window, c.at);
  }

  function Count(h: History, c: Call): nat {
    match h
    case Start => 0
    case Then(before, last) => Count(before, c) + if last == c then 1 else 0
  }

  /** The times of a key are those of its allowed calls, each as often as it was called. */
  lemma {:induction false} TimesAreTheAllowedCalls(h: History, key: string, t: int)
    ensures multiset(Times(h, key))[t] == Count(h, Call(key, t, true))
  {
    match h
    case Start =>
    case Then(before, c) => TimesAreTheAllowedCalls(before, key, t);
  }

  // ----- Denials -----

  function Extend(h: History, more: seq<Call>): History {
    if more == [] then h else Then(Extend(h, more[..|more| - 1]), more[|more| - 1])
  }

  /** Calls that were denied, or were for other keys, leave a key's decisions as they were. */
  lemma {:induction false} OnlyOwnAllowedCallsMatter(h: History, more: seq<Call>, key: string)
    requires forall c :: c in more ==> !c.allowed || c.key != key
    ensures Times(Extend(h, more), key) == Times(h, key)
  {
    if more == [] {
    } else {
      OnlyOwnAllowedCallsMatter(h, more[..|more| - 1], key);
    }
  }

  /** The retry delay Allow computes from the oldest hit it keeps. */
  function RetryAfter(h: History, key: string, now: int, window: int): int
  {
    var kept := After(Times(h, key), now - window);
    if kept == [] then 0 else kept[0] + window - now
  }

  /** After a denial, whatever calls follow, the key is denied again exactly
      until the announced delay has passed. */
  lemma {:induction false} RetryAfterIsExact(h: History, more: seq<Call>, requests: int, window: int,
                                             key: string, now: int, later: int)
    requires requests >= 1 && Run(h, requests, window) && Run(Extend(h, more), requests, window)
    requires NotAfter(h, now) && now <= later
    requires !HasRoom(h, key, now, requests, window)
    requires forall c :: c in more && c.key == key ==> now <= c.at < now + RetryAfter(h, key, now, window)
    ensures 0 < RetryAfter(h, key, now, window) <= window
    ensures forall c :: c in more && c.key == key ==> !c.allowed
    ensures HasRoom(Extend(h, more), key, later, requests, window) <==> later >= now + RetryAfter(h, key, now, window)
    decreases |more|
  {
    if more != [] {
      var front, c := more[..|more| - 1], more[|more| - 1];
      assert c in more && more == front + [c];
      RetryAfterIsExact(h, front, requests, window, key, now, if c.key == key then c.at else later);
    }
    RoomReturns(h, requests, window, key, now, later);
    OnlyOwnAllowedCallsMatter(h, more, key);
  }

  lemma RoomReturns(h: History, requests: int, window: int, key: string, now: int, later: int)
    requires requests >= 1 && Run(h, requests, window) && NotAfter(h, now)
    requires !HasRoom(h, key, now, requests, window) && now <= later
    ensures 0 < RetryAfter(h, key, now, window) <= window
    ensures HasRoom(h, key, later, requests, window) <==> later >= now + RetryAfter(h, key, now, window)
  {
    hide Run, Times, After;
    var ts := Times(h, key);
    var kept := After(ts, now - window);
    PresentWindowIsBounded(h, requests, window, key, now);
    TimesAscend(h, key, requests, window, now);
    AfterDropsHead(ts, now - window);
    AfterIsOrdered(ts, now - window);
    AfterAfter(ts, now - window, later - window);
    assert |kept| == requests;
    if kept[0] > later - window {
      AfterKeepsAll(kept, later - window);
    } else {
      AfterDropsHead(kept, later - window);
    }
  }

  // ----- The limiter -----

  ghost predicate Agree(a: seq<int>, b: seq<int>, from: int) {
    forall s :: s >= from ==> After(a, s) == After(b, s)
  }

  lemma PrunedAgrees(hits: seq<int>, ts: seq<int>, from: int, now: int)
    requires Agree(hits, ts, from)
    ensures After(hits, from) == After(ts, from)
    ensures Agree(After(hits, from), ts, from)
    ensures Agree(After(hits, from) + [now], ts + [now], from)
  {
    forall s | s >= from
      ensures After(After(hits, from), s) == After(ts, s)
      ensures After(After(hits, from) + [now], s) == After(ts + [now], s)
    {
      AfterAfter(hits, from, s);
      AfterSnoc(After(hits, from), now, s);
      AfterSnoc(ts, now, s);
    }
  }

  /** The hits kept for a key are as good as all its allowed times for any
      window that ends at the present or after. */
  ghost predicate Kept(data: map<string, seq<int>>, h: History, window: int, clock: int) {
    forall k :: Agree(if k in data then data[k] else [], Times(h, k), clock - window)
  }

  class RateLimiter {
    const requests: int
    const window: int
    var data: map<string, seq<int>>
    ghost var history: History
    ghost var clock: int

    ghost predicate Valid()
      reads this
    {
      Run(history, requests, window) && NotAfter(history, clock) && Kept(data, history, window, clock)
    }

    constructor (requests: int, window: int, ghost start: int)
      ensures Valid() && history == Start && data == map[] && clock == start
      ensures this.requests == requests && this.window == window
    {
      this.requests, this.window := requests, window;
      data, history, clock := map[], Start, start;
    }

    /** Decides one call at time `now`, prunes the key's hits and records it. */
    method Allow(key: string, now: int) returns (v: Verdict)
      requires Valid() && clock <= now
      modifies this
      ensures Valid() && clock == now
      ensures history == Then(old(history), Call(key, now, v.Allowed?))
      ensures v.Allowed? <==> HasRoom(old(history), key, now, requests, window)
      ensures v.Allowed? ==> 0 <= v.remaining == requests - 1 - |After(Times(old(history), key), now - window)|
      ensures v.Panicked? <==> requests <= 0
      ensures v.Denied? ==> !HasRoom(old(history), key, now, requests, window) && requests >= 1 &&
                            v.retryAfter == RetryAfter(old(history), key, now, window)
      ensures var kept := After(if key in old(data) then old(data)[key] else [], now - window);
              data == old(data)[key := if v.Allowed? then kept + [now] else kept]
    {
      hide Run, Times, Agree, Kept, After;
      var windowStart := now - window;
      var hits := if key in data then data[key] else [];
      var newHits := [];
      AfterNothing(windowStart);
      for i := 0 to |hits|
        modifies {}
        invariant newHits == After(hits[..i], windowStart)
      {
        AfterNext(hits, i, windowStart);
        if hits[i] > windowStart {
          newHits := newHits + [hits[i]];
        }
      }
      assert hits[..|hits|] == hits;
      KeptLater(data, history, window, clock, now, key);
      PrunedAgrees(hits, Times(history, key), windowStart, now);
      PresentWindowIsBounded(history, requests, window, key, now);
      ghost var c := Call(key, now, |newHits| < requests);
      if |newHits| < requests {
        newHits := newHits + [now];
        RecordKeeps(data, history, requests, window, c, newHits);
        data, history, clock := data[key := newHits], Then(history, c), now;
        var remaining := requests - |newHits|;
        return Allowed(remaining);
      }
      RecordKeeps(data, history, requests, window, c, newHits);
      data, history, clock := data[key := newHits], Then(history, c), now;
      if newHits == [] { return Panicked; }
      return Denied(newHits[0] + window - now);
    }
  }

  lemma AfterNothing(s: int)
    ensures After([], s) == []
  {
  }

  lemma AfterNext(ts: seq<int>, i: nat, s: int)
    requires i < |ts|
    ensures After(ts[..i + 1], s) == After(ts[..i], s) + if ts[i] > s then [ts[i]] else []
  {
    assert ts[..i + 1][..i] == ts[..i];
  }

  lemma KeptLater(data: map<string, seq<int>>, h: History, window: int, clock: int, now: int, key: string)
    requires Kept(data, h, window, clock) && clock <= now
    ensures Kept(data, h, window, now)
    ensures Agree(if key in data then data[key] else [], Times(h, key), now - window)
  {
    hide After, Times;
  }

  /** Recording a decided call keeps the run and what is kept for every key. */
  lemma RecordKeeps(data: map<string, seq<int>>, h: History, requests: int, window: int, c: Call, newHits: seq<int>)
    requires Run(h, requests, window) && NotAfter(h, c.at) && Kept(data, h, window, c.at)
    requires c.allowed <==> HasRoom(h, c.key, c.at, requests, window)
    requires Agree(newHits, if c.allowed then Times(h, c.key) + [c.at] else Times(h, c.key), c.at - window)
    ensures Run(Then(h, c), requests, window) && Kept(data[c.key := newHits], Then(h, c), window, c.at)
  {
    hide Agree;
  }
}
