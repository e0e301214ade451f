/** The contact form's rate limiter. Its backend, the limiter factory's
    storage, is modelled as a fixed-window token store per identity: a
    window admits `quota` tokens until it ends, and a new one opens at the
    first request after that. md5 is a parameter. */
module RateLimiter {
  import opened Php

  const DefaultLimit: int := 3
  const DefaultInterval: string := "15 minutes"

  /** What the limiter reads from the current request. */
  datatype Request = Request(clientIp: Option<string>, sessionId: Option<string>)

  /** getIdentifier(): 'unknown' without a request, otherwise both md5
      digests, of the client address (or 'unknown') and of the session id
      (or ''), in a fixed frame. */
  function Identifier(current: Option<Request>, md5: string -> string): (id: string)
    ensures current.None? ==> id == "unknown"
    ensures current.Some? ==> id == "contact_form_" + md5(current.value.clientIp.GetOr("unknown"))
                                  + "_" + md5(current.value.sessionId.GetOr(""))
  {
    match current
    case None => "unknown"
    case Some(r) => "contact_form_" + md5(r.clientIp.GetOr("unknown")) + "_" + md5(r.sessionId.GetOr(""))
  }

  /** With an injective md5 of fixed length, two requests share an identity
      exactly when they have the same address (null counting as 'unknown')
      and the same session id (none counting as ''); a request never shares
      one with the request-less case. */
  lemma {:induction false} IdentifierSeparates(a: Request, b: Request, md5: string -> string)
    requires forall x :: |md5(x)| == 32
    requires forall x, y :: md5(x) == md5(y) ==> x == y
    ensures Identifier(Some(a), md5) == Identifier(Some(b), md5) <==>
      a.clientIp.GetOr("unknown") == b.clientIp.GetOr("unknown") && a.sessionId.GetOr("") == b.sessionId.GetOr("")
    ensures Identifier(Some(a), md5) != Identifier(None, md5)
  {
    var ia, ib := Identifier(Some(a), md5), Identifier(Some(b), md5);
    var pa, sa := md5(a.clientIp.GetOr("unknown")), md5(a.sessionId.GetOr(""));
    var pb, sb := md5(b.clientIp.GetOr("unknown")), md5(b.sessionId.GetOr(""));
    var frame := "contact_form_";
    assert |frame| == 13;
    assert ia == frame + pa + "_" + sa;
    assert ib == frame + pb + "_" + sb;
    if ia == ib {
      assert ia[13..45] == pa;
      assert ib[13..45] == pb;
      assert ia[46..] == sa;
      assert ib[46..] == sb;
    }
    assert |ia| == 78;
  }

  // ---------------------------------------------------------------------
  // The token store

  /** A window: tokens used and the time it ends. */
  datatype Window = Window(used: nat, end: int)

  /** What consume() reports. */
  datatype RateLimit = RateLimit(accepted: bool, remaining: int, retryAfter: int)

  /** The window in force for an identity at time now: a stored window
      stays in force up to and including its end, and a fresh one opens
      only once more than the interval has passed. */
  function CurrentWindow(windows: map<string, Window>, intervalSeconds: nat, id: string, now: int): (w: Window)
    ensures now <= w.end
    ensures id in windows && now <= windows[id].end ==> w == windows[id]
  {
    if id in windows && now <= windows[id].end then windows[id] else Window(0, now + intervalSeconds)
  }

  /** consume(n): a consume of n > 0 tokens is accepted when the window
      has them left and then uses them up; a zero-token consume only reads
      the window and is always accepted. The retry time is now while the
      window has room for max(1, n) tokens, else the end of the window. */
  function Reserve(windows: map<string, Window>, quota: nat, intervalSeconds: nat, id: string, n: nat, now: int)
    : (r: (RateLimit, map<string, Window>))
    ensures var w := CurrentWindow(windows, intervalSeconds, id, now);
      var room := w.used + (if n == 0 then 1 else n) <= quota;
      && r.0.accepted == (n == 0 || room)
      && r.0.remaining == quota - w.used - (if n > 0 && room then n else 0)
      && r.0.retryAfter == (if room then now else w.end)
      && r.1 == (if n > 0 && room then windows[id := w.(used := w.used + n)] else windows)
  {
    var w := CurrentWindow(windows, intervalSeconds, id, now);
    var available := quota - w.used;
    if n == 0 then
      (RateLimit(true, available, if available >= 1 then now else w.end), windows)
    else if available >= n then
      (RateLimit(true, available - n, now), windows[id := w.(used := w.used + n)])
    else
      (RateLimit(false, available, w.end), windows)
  }

  /** The outcomes of k submissions at the same moment. */
  function Run(windows: map<string, Window>, quota: nat, intervalSeconds: nat, id: string, now: int, k: nat): (r: seq<bool>)
    ensures |r| == k
    decreases k
  {
    if k == 0 then []
    else
      var (limit, next) := Reserve(windows, quota, intervalSeconds, id, 1, now);
      [limit.accepted] + Run(next, quota, intervalSeconds, id, now, k - 1)
  }

  /** Within a window holding u used tokens, submission i is accepted
      exactly when u + i is below the quota: the first quota - u pass and
      every later one is refused. */
  lemma {:induction false} RunExhaustsQuota(windows: map<string, Window>, quota: nat, intervalSeconds: nat,
                                            id: string, now: int, k: nat)
    ensures var u := CurrentWindow(windows, intervalSeconds, id, now).used;
      forall i :: 0 <= i < k ==> Run(windows, quota, intervalSeconds, id, now, k)[i] == (u + i < quota)
    decreases k
  {
    if k > 0 {
      var w := CurrentWindow(windows, intervalSeconds, id, now);
      var (limit, next) := Reserve(windows, quota, intervalSeconds, id, 1, now);
      RunExhaustsQuota(next, quota, intervalSeconds, id, now, k - 1);
      var r := Run(windows, quota, intervalSeconds, id, now, k);
      var rest := Run(next, quota, intervalSeconds, id, now, k - 1);
      assert r == [limit.accepted] + rest;
      var u' := CurrentWindow(next, intervalSeconds, id, now).used;
      if limit.accepted {
        assert next[id] == w.(used := w.used + 1);
        assert u' == w.used + 1;
      } else {
        assert next == windows;
      }
      forall i | 0 <= i < k ensures r[i] == (w.used + i < quota) {
        if i > 0 {
          assert r[i] == rest[i - 1];
        }
      }
    }
  }

  /** An identity with no window, or whose window has ended, starts a
      fresh one: of k submissions at that moment exactly the first quota
      are accepted. */
  lemma {:induction false} WindowResets(windows: map<string, Window>, quota: nat, intervalSeconds: nat,
                                        id: string, now: int, k: nat)
    requires id in windows ==> now > windows[id].end
    ensures forall i :: 0 <= i < k ==> Run(windows, quota, intervalSeconds, id, now, k)[i] == (i < quota)
  {
    RunExhaustsQuota(windows, quota, intervalSeconds, id, now, k);
  }

  /** Consuming for one identity leaves every other identity's window. */
  lemma OtherIdentitiesUnaffected(windows: map<string, Window>, quota: nat, intervalSeconds: nat,
                                  id: string, other: string, n: nat, now: int, later: int)
    requires other != id
    ensures CurrentWindow(Reserve(windows, quota, intervalSeconds, id, n, now).1, intervalSeconds, other, later)
         == CurrentWindow(windows, intervalSeconds, other, later)
  {
  }

  /** The limiter factory's storage. */
  class TokenStore {
    const quota: nat
    const intervalSeconds: nat
    var windows: map<string, Window>

    constructor (quota: nat, intervalSeconds: nat)
      ensures this.quota == quota && this.intervalSeconds == intervalSeconds && windows == map[]
    {
      this.quota := quota;
      this.intervalSeconds := intervalSeconds;
      windows := map[];
    }

    /** create($id)->consume($n) */
    method Consume(id: string, n: nat, now: int) returns (limit: RateLimit)
      modifies this
      ensures (limit, windows) == Reserve(old(windows), quota, intervalSeconds, id, n, now)
    {
      var r := Reserve(windows, quota, intervalSeconds, id, n, now);
      limit := r.0;
      windows := r.1;
    }
  }

  class ContactRateLimiter {
    const md5: string -> string
    const limit: int
    const interval: string
    var store: TokenStore?

    /** Unset arguments take the defaults; no factory is set yet. */
    constructor (md5: string -> string, limit: Option<int>, interval: Option<string>)
      ensures this.md5 == md5 && this.limit == limit.GetOr(DefaultLimit)
      ensures this.interval == interval.GetOr(DefaultInterval) && store == null
    {
      this.md5 := md5;
      this.limit := limit.GetOr(DefaultLimit);
      this.interval := interval.GetOr(DefaultInterval);
      store := null;
    }

    method SetLimiterFactory(factory: TokenStore)
      modifies this
      ensures store == factory
    {
      store := factory;
    }

    /** isAllowed(): true without a factory; otherwise one token is
        consumed for the current identity and the answer is whether it was
        accepted. */
    method IsAllowed(current: Option<Request>, now: int) returns (allowed: bool)
      modifies store
      ensures store == null ==> allowed
      ensures store != null ==>
        var r := Reserve(old(store.windows), store.quota, store.intervalSeconds, Identifier(current, md5), 1, now);
        allowed == r.0.accepted && store.windows == r.1
    {
      if store == null {
        return true;
      }
      var l := store.Consume(Identifier(current, md5), 1, now);
      allowed := l.accepted;
    }

    /** getRemainingAttempts(): the configured limit without a factory,
        otherwise the tokens left, read by a zero-token consume. */
    method GetRemainingAttempts(current: Option<Request>, now: int) returns (remaining: int)
      modifies store
      ensures store == null ==> remaining == limit
      ensures store != null ==> store.windows == old(store.windows)
      ensures store != null ==>
        remaining == store.quota - CurrentWindow(store.windows, store.intervalSeconds, Identifier(current, md5), now).used
    {
      if store == null {
        return limit;
      }
      var l := store.Consume(Identifier(current, md5), 0, now);
      remaining := l.remaining;
    }

    /** getRetryAfter(): null without a factory, otherwise the time given
        by a zero-token consume: now while a token is left, else the end of
        the window. */
    method GetRetryAfter(current: Option<Request>, now: int) returns (retryAfter: Option<int>)
      modifies store
      ensures store == null ==> retryAfter == None
      ensures store != null ==> store.windows == old(store.windows)
      ensures store != null ==>
        var w := CurrentWindow(store.windows, store.intervalSeconds, Identifier(current, md5), now);
        retryAfter == Some(if w.used < store.quota then now else w.end)
    {
      if store == null {
        return None;
      }
      var l := store.Consume(Identifier(current, md5), 0, now);
      retryAfter := Some(l.retryAfter);
    }

    function GetLimit(): (l: int)
      ensures l == limit
    {
      limit
    }

    function GetInterval(): (i: string)
      ensures i == interval
    {
      interval
    }
  }
}
