/** The rate limiter: a token bucket per IP behind one global fixed window. */
module RateLimiting {
  import opened KeyValue
  import opened TokenBucket

  type IP = nat

  datatype Params = Params(maxTokens: real, refillRate: real, globalLimit: int)

  datatype Bucket = Bucket(tokens: real, lastRefill: real)

  datatype Window = Window(count: int, start: real)

  /** `duration_cast<seconds>`: towards zero. */
  function WholeSeconds(d: real): int {
    if d >= 0.0 then d.Floor else -(-d).Floor
  }

  /** The window a request is counted in: the current one, or a new one starting now. */
  function Roll(w: Window, now: real): Window {
    if WholeSeconds(now - w.start) >= 1 then Window(0, now) else w
  }

  function GlobalStep(limit: int, w: Window, now: real): (Window, bool) {
    var r := Roll(w, now);
    if r.count >= limit then (r, false) else (r.(count := r.count + 1), true)
  }

  /** Tokens in the bucket at a request: a full new one, or the old one refilled. */
  function Seen(p: Params, b: Option<Bucket>, now: real): real {
    if b.None? then p.maxTokens
    else Min(b.value.tokens + (now - b.value.lastRefill) * p.refillRate, p.maxTokens)
  }

  function PrivateStep(p: Params, b: Option<Bucket>, now: real): (Bucket, bool) {
    var t := Seen(p, b, now);
    if t < 1.0 then (Bucket(t, now), false) else (Bucket(t - 1.0, now), true)
  }

  function BucketOfIP(m: map<IP, Bucket>, ip: IP): Option<Bucket> {
    if ip in m then Some(m[ip]) else None
  }

  class RateLimiter {
    const params: Params
    var ipRecords: map<IP, Bucket>
    var globalCount: int
    var globalWindowStart: real

    constructor (p: Params, now: real)
      ensures params == p && ipRecords == map[] && CurrentWindow() == Window(0, now)
    {
      params := p;
      ipRecords := map[];
      globalCount := 0;
      globalWindowStart := now;
    }

    function CurrentWindow(): Window
      reads this
    {
      Window(globalCount, globalWindowStart)
    }

    method IsAllowedGlobal(now: real) returns (allowed: bool)
      modifies this`globalCount, this`globalWindowStart
      ensures (CurrentWindow(), allowed) == GlobalStep(params.globalLimit, old(CurrentWindow()), now)
    {
      var elapsed := WholeSeconds(now - globalWindowStart);
      if elapsed >= 1 {
        globalCount := 0;
        globalWindowStart := now;
      }
      if globalCount >= params.globalLimit {
        return false;
      }
      globalCount := globalCount + 1;
      return true;
    }

    method IsAllowedPrivate(ip: IP, now: real) returns (allowed: bool)
      modifies this`ipRecords
      ensures var s := PrivateStep(params, BucketOfIP(old(ipRecords), ip), now);
              ipRecords == old(ipRecords)[ip := s.0] && allowed == s.1
    {
      ghost var before := BucketOfIP(ipRecords, ip);
      var record := if ip in ipRecords then ipRecords[ip] else Bucket(params.maxTokens, now);
      var seconds := now - record.lastRefill;
      ZeroProduct(seconds, params.refillRate);
      record := record.(tokens := record.tokens + seconds * params.refillRate);
      if record.tokens > params.maxTokens {
        record := record.(tokens := params.maxTokens);
      }
      record := record.(lastRefill := now);
      assert record == Bucket(Seen(params, before, now), now);
      if record.tokens < 1.0 {
        ipRecords := ipRecords[ip := record];
        return false;
      }
      record := record.(tokens := record.tokens - 1.0);
      ipRecords := ipRecords[ip := record];
      return true;
    }

    /** Each of the two checks reads its own clock; the second is skipped when the first
        refuses. */
    method IsAllowed(r: Request) returns (allowed: bool)
      modifies this
      ensures (Limiter(CurrentWindow(), ipRecords), allowed)
           == AllowStep(params, old(Limiter(CurrentWindow(), ipRecords)), r)
    {
      allowed := IsAllowedGlobal(r.globalTime);
      if allowed {
        allowed := IsAllowedPrivate(r.ip, r.privateTime);
      }
    }
  }

  // One IP: the requests that reach its bucket, by their times.

  /** The bucket after requests at the given times. */
  function BucketAfter(p: Params, ts: seq<real>): Option<Bucket> {
    if ts == [] then None
    else Some(PrivateStep(p, BucketAfter(p, ts[..|ts| - 1]), ts[|ts| - 1]).0)
  }

  /** The tokens the last request finds. */
  function SeenByLast(p: Params, ts: seq<real>): real
    requires ts != []
  {
    Seen(p, BucketAfter(p, ts[..|ts| - 1]), ts[|ts| - 1])
  }

  /** The answers the requests get. */
  function Answers(p: Params, ts: seq<real>): (a: seq<bool>)
    ensures |a| == |ts|
  {
    if ts == [] then []
    else Answers(p, ts[..|ts| - 1]) + [PrivateStep(p, BucketAfter(p, ts[..|ts| - 1]), ts[|ts| - 1]).1]
  }

  /** Time measured in tokens. */
  function Supply(p: Params, t: real): real {
    p.refillRate * t
  }

  function Supplies(p: Params, ts: seq<real>): (ss: seq<real>)
    ensures |ss| == |ts|
    ensures forall i :: 0 <= i < |ts| ==> ss[i] == Supply(p, ts[i])
  {
    seq(|ts|, i requires 0 <= i < |ts| => Supply(p, ts[i]))
  }

  lemma SuppliesPrefix(p: Params, ts: seq<real>, n: nat)
    requires n <= |ts|
    ensures Supplies(p, ts)[..n] == Supplies(p, ts[..n])
  {
    forall i | 0 <= i < n ensures Supplies(p, ts)[i] == Supplies(p, ts[..n])[i] {
      assert ts[..n][i] == ts[i];
    }
  }

  lemma SeenInTokens(p: Params, tokens: real, before: real, now: real)
    ensures Seen(p, Some(Bucket(tokens, before)), now)
         == Min(tokens + (Supply(p, now) - Supply(p, before)), p.maxTokens)
  {
    Distribute(p.refillRate, now, before);
  }

  lemma SupplyMonotone(p: Params, t: real, u: real)
    requires p.refillRate >= 0.0 && t <= u
    ensures Supply(p, t) <= Supply(p, u)
  {
    NonNegative(p.refillRate, u - t);
    Distribute(p.refillRate, u, t);
  }

  lemma Distribute(r: real, x: real, y: real)
    ensures (x - y) * r == r * x - r * y
    ensures r * (x - y) == r * x - r * y
  {
  }

  lemma ZeroProduct(x: real, y: real)
    ensures x == 0.0 || y == 0.0 ==> x * y == 0.0
  {
  }

  lemma NonNegative(r: real, x: real)
    requires r >= 0.0 && x >= 0.0
    ensures r * x >= 0.0
  {
  }

  /** The records kept per IP are a token bucket fed at the refill rate. */
  lemma {:induction false} RecordsAreTokenBucket(p: Params, ts: seq<real>)
    ensures Answers(p, ts) == Decisions(p.maxTokens, Supplies(p, ts))
    ensures ts != [] ==>
      var tokens := Tokens(p.maxTokens, Supplies(p, ts));
      SeenByLast(p, ts) == tokens && BucketAfter(p, ts) == Some(Bucket(tokens - Spent(tokens), ts[|ts| - 1]))
    decreases |ts|
  {
    if ts != [] {
      var n := |ts| - 1;
      RecordsAreTokenBucket(p, ts[..n]);
      SuppliesPrefix(p, ts, n);
      if n > 0 {
        var tokens := Tokens(p.maxTokens, Supplies(p, ts[..n]));
        SeenInTokens(p, tokens - Spent(tokens), ts[n - 1], ts[n]);
      }
    }
  }

  /** What may be let through from request i up to request j: a full bucket and the refill
      of the time between. */
  function WindowAllowance(p: Params, ts: seq<real>, i: nat, j: nat): real
    requires i < |ts| && j < |ts|
  {
    p.maxTokens + p.refillRate * (ts[j] - ts[i])
  }

  lemma AllowanceInTokens(p: Params, ts: seq<real>, i: nat, j: nat)
    requires i < |ts| && j < |ts|
    ensures WindowAllowance(p, ts, i, j) == Allowance(p.maxTokens, Supplies(p, ts), i, j)
  {
    Distribute(p.refillRate, ts[j], ts[i]);
  }

  /** The tokens a request finds are the least, over all windows ending at it, of a full
      bucket plus the refill of the window's length minus the requests it let through. */
  lemma TokensSeenExactly(p: Params, ts: seq<real>) returns (tight: nat)
    requires ts != []
    ensures var n := |ts| - 1;
            && (forall i :: 0 <= i <= n ==>
                  SeenByLast(p, ts) <= WindowAllowance(p, ts, i, n) - Count(Answers(p, ts), i, n) as real)
            && tight <= n
            && SeenByLast(p, ts) == WindowAllowance(p, ts, tight, n) - Count(Answers(p, ts), tight, n) as real
  {
    var n, ss := |ts| - 1, Supplies(p, ts);
    RecordsAreTokenBucket(p, ts);
    tight := TokensAreMinimum(p.maxTokens, ss);
    forall i | 0 <= i <= n
      ensures WindowAllowance(p, ts, i, n) - Count(Answers(p, ts), i, n) as real == Slack(p.maxTokens, ss, i)
    {
      AllowanceInTokens(p, ts, i, n);
    }
  }

  /** A request is let through exactly when every window ending at it stays within a full
      bucket plus the refill of its length. */
  lemma LetThroughIff(p: Params, ts: seq<real>, j: nat)
    requires j < |ts|
    ensures Answers(p, ts)[j] <==>
      forall i :: 0 <= i <= j ==> Count(Answers(p, ts), i, j) as real + 1.0 <= WindowAllowance(p, ts, i, j)
  {
    RecordsAreTokenBucket(p, ts);
    AdmitsIffAllWindowsFit(p.maxTokens, Supplies(p, ts), j);
    forall i | 0 <= i <= j
      ensures WindowAllowance(p, ts, i, j) == Allowance(p.maxTokens, Supplies(p, ts), i, j)
    {
      AllowanceInTokens(p, ts, i, j);
    }
  }

  ghost predicate KeepsToAllowance(p: Params, ts: seq<real>, a: seq<bool>) {
    && |a| == |ts|
    && forall j, i :: 0 <= i <= j < |ts| && a[j] ==>
         Count(a, i, j) as real + 1.0 <= WindowAllowance(p, ts, i, j)
  }

  /** The limiter keeps to the allowance, and no other policy that does has let more through
      after any number of requests. */
  lemma LimiterIsOptimal(p: Params, ts: seq<real>, other: seq<bool>, n: nat)
    requires KeepsToAllowance(p, ts, other) && n <= |ts|
    ensures KeepsToAllowance(p, ts, Answers(p, ts))
    ensures Count(other, 0, n) <= Count(Answers(p, ts), 0, n)
  {
    forall i: nat, j: nat | i < |ts| && j < |ts|
      ensures WindowAllowance(p, ts, i, j) == Allowance(p.maxTokens, Supplies(p, ts), i, j)
    {
      AllowanceInTokens(p, ts, i, j);
    }
    RecordsAreTokenBucket(p, ts);
    DecisionsObey(p.maxTokens, Supplies(p, ts));
    NoPolicyAdmitsMore(p.maxTokens, Supplies(p, ts), other, n);
  }

  predicate Ordered(ts: seq<real>) {
    forall i, j :: 0 <= i <= j < |ts| ==> ts[i] <= ts[j]
  }

  /** Over any stretch of requests at most a full bucket and the refill of that stretch gets
      through. */
  lemma PerIPBound(p: Params, ts: seq<real>, i: nat, j: nat)
    requires i <= j < |ts| && Ordered(ts) && p.refillRate >= 0.0 && p.maxTokens >= 0.0
    ensures Count(Answers(p, ts), i, j + 1) as real <= WindowAllowance(p, ts, i, j)
  {
    var ss := Supplies(p, ts);
    RecordsAreTokenBucket(p, ts);
    AllowanceInTokens(p, ts, i, j);
    forall k, l | 0 <= k <= l < |ts| ensures ss[k] <= ss[l] {
      SupplyMonotone(p, ts[k], ts[l]);
    }
    BurstBound(p.maxTokens, ss, i, j);
  }

  // The global window.

  function WindowAfter(limit: int, w: Window, ts: seq<real>, n: nat): Window
    requires n <= |ts|
  {
    if n == 0 then w else GlobalStep(limit, WindowAfter(limit, w, ts, n - 1), ts[n - 1]).0
  }

  predicate Passes(limit: int, w: Window, ts: seq<real>, n: nat)
    requires n < |ts|
  {
    GlobalStep(limit, WindowAfter(limit, w, ts, n), ts[n]).1
  }

  /** Requests i..n-1 that pass, and windows opened by them. */
  function Passed(limit: int, w: Window, ts: seq<real>, i: nat, n: nat): nat
    requires n <= |ts|
  {
    if n <= i then 0
    else Passed(limit, w, ts, i, n - 1) + if Passes(limit, w, ts, n - 1) then 1 else 0
  }

  function Opened(limit: int, w: Window, ts: seq<real>, i: nat, n: nat): nat
    requires n <= |ts|
  {
    if n <= i then 0
    else Opened(limit, w, ts, i, n - 1)
         + if WholeSeconds(ts[n - 1] - WindowAfter(limit, w, ts, n - 1).start) >= 1 then 1 else 0
  }

  /** Whether request n opens a new window. */
  predicate Opens(limit: int, w: Window, ts: seq<real>, n: nat)
    requires n < |ts|
  {
    WholeSeconds(ts[n] - WindowAfter(limit, w, ts, n).start) >= 1
  }

  /** From one request of a run to a later one the window is either the same, and its count
      tells what has passed in between, or it has started at least a second later. */
  lemma {:induction false} WindowsAreSpaced(limit: int, w: Window, ts: seq<real>, i: nat, n: nat)
    requires i <= n <= |ts|
    ensures var a, b := WindowAfter(limit, w, ts, i), WindowAfter(limit, w, ts, n);
            || (b.start == a.start && b.count == a.count + Passed(limit, w, ts, i, n))
            || b.start >= a.start + 1.0
  {
    if i < n {
      WindowsAreSpaced(limit, w, ts, i, n - 1);
    }
  }

  lemma {:induction false} CountWithinLimit(limit: int, w: Window, ts: seq<real>, n: nat)
    requires n <= |ts| && limit >= 0 && 0 <= w.count <= limit
    ensures 0 <= WindowAfter(limit, w, ts, n).count <= limit
  {
    if n > 0 {
      CountWithinLimit(limit, w, ts, n - 1);
    }
  }

  lemma {:induction false} StartNotAfter(limit: int, w: Window, ts: seq<real>, n: nat)
    requires 0 < n <= |ts| && Ordered(ts) && w.start <= ts[0]
    ensures WindowAfter(limit, w, ts, n).start <= ts[n - 1]
  {
    if n > 1 {
      StartNotAfter(limit, w, ts, n - 1);
    }
  }

  /** What k full windows hold. */
  function Worth(limit: int, k: int): int {
    if k <= 0 then 0 else Worth(limit, k - 1) + limit
  }

  lemma {:induction false} WorthIsProduct(limit: int, k: nat)
    ensures Worth(limit, k) == limit * k
  {
    if k > 0 {
      WorthIsProduct(limit, k - 1);
      assert limit * k == limit * (k - 1) + limit;
    }
  }

  lemma {:induction false} WorthGrows(limit: int, a: int, b: int)
    requires limit >= 0 && a <= b
    ensures Worth(limit, a) <= Worth(limit, b)
    decreases b - a
  {
    if a < b {
      WorthGrows(limit, a, b - 1);
    }
  }

  /** Bookkeeping from request i on, k windows having been opened since.  With none the count
      tells what passed.  If request i itself opened one, that and the others but the last are
      at most full, and the last starts at least k-1 seconds after request i.  Otherwise it
      starts later than that, and the room left in the window before them counts too. */
  ghost predicate Booked(limit: int, w: Window, ts: seq<real>, i: nat, n: nat)
    requires i < n <= |ts|
  {
    var k, passed := Opened(limit, w, ts, i, n), Passed(limit, w, ts, i, n);
    var first, last := WindowAfter(limit, w, ts, i), WindowAfter(limit, w, ts, n);
    if k == 0 then last == first.(count := first.count + passed) && !Opens(limit, w, ts, i)
    else
      && last.start >= first.start + k as real
      && if Opens(limit, w, ts, i)
         then passed <= Worth(limit, k - 1) + last.count && last.start >= ts[i] + (k - 1) as real
         else passed <= Worth(limit, k) - first.count + last.count && last.start > ts[i] + (k - 1) as real
  }

  lemma BookedAtFirst(limit: int, w: Window, ts: seq<real>, i: nat)
    requires i < |ts| && limit >= 0 && 0 <= w.count <= limit
    ensures Booked(limit, w, ts, i, i + 1)
  {
    CountWithinLimit(limit, w, ts, i);
    assert Opened(limit, w, ts, i, i) == 0 && Passed(limit, w, ts, i, i) == 0;
  }

  lemma {:induction false} Bookkeeping(limit: int, w: Window, ts: seq<real>, i: nat, n: nat)
    requires i < n <= |ts| && Ordered(ts) && limit >= 0 && 0 <= w.count <= limit
    ensures Booked(limit, w, ts, i, n)
  {
    if n - 1 == i {
      BookedAtFirst(limit, w, ts, i);
    } else {
      Bookkeeping(limit, w, ts, i, n - 1);
      BookedNext(limit, w, ts, i, n);
    }
  }

  lemma BookedNext(limit: int, w: Window, ts: seq<real>, i: nat, n: nat)
    requires i + 1 < n <= |ts| && Ordered(ts) && limit >= 0 && 0 <= w.count <= limit
    requires Booked(limit, w, ts, i, n - 1)
    ensures Booked(limit, w, ts, i, n)
  {
    CountWithinLimit(limit, w, ts, i);
    CountWithinLimit(limit, w, ts, n - 1);
    CountWithinLimit(limit, w, ts, n);
    var before, after := WindowAfter(limit, w, ts, n - 1), WindowAfter(limit, w, ts, n);
    if Opens(limit, w, ts, n - 1) {
      assert after.start == ts[n - 1] >= before.start + 1.0;
    }
  }

  function Ceil(x: real): (c: int)
    ensures c as real - 1.0 < x <= c as real
  {
    -(-x).Floor
  }

  lemma BoundInWindows(limit: int, w: Window, ts: seq<real>, i: nat, j: nat)
    requires i <= j < |ts| && Ordered(ts) && limit >= 0
    requires 0 <= w.count <= limit && w.start <= ts[0]
    ensures Passed(limit, w, ts, i, j + 1) <= Worth(limit, Ceil(ts[j] - ts[i]) + 1)
  {
    Bookkeeping(limit, w, ts, i, j + 1);
    CountWithinLimit(limit, w, ts, i);
    CountWithinLimit(limit, w, ts, j + 1);
    StartNotAfter(limit, w, ts, j + 1);
    var k: int, c := Opened(limit, w, ts, i, j + 1), Ceil(ts[j] - ts[i]);
    if k == 0 {
      WorthGrows(limit, 1, c + 1);
    } else if Opens(limit, w, ts, i) {
      assert (k - 1) as real <= ts[j] - ts[i];
      WorthGrows(limit, k, c + 1);
    } else {
      assert (k - 1) as real < ts[j] - ts[i];
      WorthGrows(limit, k + 1, c + 1);
    }
  }

  /** Any T seconds see at most `limit * (ceil(T) + 1)` requests pass the global check. */
  lemma GlobalBound(limit: int, w: Window, ts: seq<real>, i: nat, j: nat)
    requires i <= j < |ts| && Ordered(ts) && limit >= 0
    requires 0 <= w.count <= limit && w.start <= ts[0]
    ensures Passed(limit, w, ts, i, j + 1) <= limit * (Ceil(ts[j] - ts[i]) + 1)
  {
    BoundInWindows(limit, w, ts, i, j);
    WorthIsProduct(limit, Ceil(ts[j] - ts[i]) + 1);
  }

  // Runs that get the most through.

  function Repeat(u: real, m: nat): (ts: seq<real>)
    ensures |ts| == m
    ensures forall i :: 0 <= i < m ==> ts[i] == u
  {
    seq(m, _ => u)
  }

  lemma {:induction false} OnlyThePast(limit: int, w: Window, a: seq<real>, b: seq<real>, n: nat)
    requires n <= |a|
    ensures WindowAfter(limit, w, a + b, n) == WindowAfter(limit, w, a, n)
    ensures Passed(limit, w, a + b, 0, n) == Passed(limit, w, a, 0, n)
  {
    if n > 0 {
      OnlyThePast(limit, w, a, b, n - 1);
    }
  }

  /** As many requests at one moment as the window then has room for: all pass. */
  lemma {:induction false} FillsUp(limit: int, w: Window, ts: seq<real>, u: real, m: nat)
    requires Roll(WindowAfter(limit, w, ts, |ts|), u).count + m <= limit
    ensures var all, open := ts + Repeat(u, m), Roll(WindowAfter(limit, w, ts, |ts|), u);
            && Passed(limit, w, all, 0, |all|) == Passed(limit, w, ts, 0, |ts|) + m
            && (m > 0 ==> WindowAfter(limit, w, all, |all|) == open.(count := open.count + m))
    decreases m
  {
    if m == 0 {
      assert ts + Repeat(u, m) == ts;
    } else {
      var some := ts + Repeat(u, m - 1);
      assert ts + Repeat(u, m) == some + [u];
      FillsUp(limit, w, ts, u, m - 1);
      if m == 1 {
        assert some == ts;
      }
      OnlyThePast(limit, w, some, [u], |some|);
    }
  }

  predicate Within(ts: seq<real>, t: real) {
    forall i :: 0 <= i < |ts| ==> t <= ts[i] < t + 1.0
  }

  /** One request just before the window ends and a full window's worth just after. */
  function Overrun(limit: nat, w: Window, t: real): seq<real> {
    Repeat(t, 1) + Repeat(w.start + 1.0, limit)
  }

  lemma OverrunPasses(limit: nat, w: Window, t: real)
    requires 0.0 < t - w.start < 1.0 && 0 <= w.count < limit
    ensures var ts := Overrun(limit, w, t);
            Ordered(ts) && Within(ts, t) && Passed(limit, w, ts, 0, |ts|) == limit + 1
  {
    var one := Repeat(t, 1);
    assert [] + one == one;
    assert Passed(limit, w, [], 0, 0) == 0 && WindowAfter(limit, w, [], 0) == w;
    FillsUp(limit, w, [], t, 1);
    FillsUp(limit, w, one, w.start + 1.0, limit);
  }

  /** Within a second at most one window is opened, and a request that opens none at the
      start of it leaves no room unless the cap is at risk. */
  lemma CapHolds(limit: int, w: Window, t: real, ts: seq<real>)
    requires limit >= 1 && 0 <= w.count <= limit && w.start <= t
    requires t - w.start >= 1.0 || w.start == t || w.count >= limit
    requires Ordered(ts) && Within(ts, t)
    ensures Passed(limit, w, ts, 0, |ts|) <= limit
  {
    if ts != [] {
      Bookkeeping(limit, w, ts, 0, |ts|);
      CountWithinLimit(limit, w, ts, |ts|);
      StartNotAfter(limit, w, ts, |ts|);
      assert WindowAfter(limit, w, ts, 0) == w;
      var k := Opened(limit, w, ts, 0, |ts|);
      assert k <= 1;
      assert Worth(limit, 0) == 0 && Worth(limit, 1) == limit;
    }
  }

  /** Exactly when the cap per second is kept: for any requests whatever of the second from
      t on, at most the limit passes if and only if the window is over by t, or starts at t,
      or is full. */
  lemma CapHoldsIff(limit: int, w: Window, t: real)
    requires limit >= 1 && 0 <= w.count <= limit && w.start <= t
    ensures (forall ts :: Ordered(ts) && Within(ts, t) ==> Passed(limit, w, ts, 0, |ts|) <= limit)
       <==> t - w.start >= 1.0 || w.start == t || w.count >= limit
  {
    if t - w.start >= 1.0 || w.start == t || w.count >= limit {
      forall ts | Ordered(ts) && Within(ts, t) ensures Passed(limit, w, ts, 0, |ts|) <= limit {
        CapHolds(limit, w, t, ts);
      }
    } else {
      OverrunPasses(limit, w, t);
    }
  }

  /** A full window's worth at the time `first`, and one at each of the c whole seconds after
      `start`. */
  function Batches(limit: nat, start: real, first: real, c: nat): seq<real> {
    if c == 0 then Repeat(first, limit)
    else Batches(limit, start, first, c - 1) + Repeat(start + c as real, limit)
  }

  lemma {:induction false} BatchesInOrder(limit: nat, start: real, first: real, c: nat)
    requires limit >= 1 && start <= first < start + 1.0
    ensures var ts := Batches(limit, start, first, c);
            && |ts| >= limit && ts[0] == first
            && ts[|ts| - 1] == (if c == 0 then first else start + c as real)
            && Ordered(ts)
  {
    if c > 0 {
      BatchesInOrder(limit, start, first, c - 1);
    }
  }

  /** The run ends in the given window after the given number of requests passed. */
  predicate Ends(limit: int, w: Window, ts: seq<real>, open: Window, passed: int) {
    WindowAfter(limit, w, ts, |ts|) == open && Passed(limit, w, ts, 0, |ts|) == passed
  }

  lemma FirstBatchPasses(limit: nat, start: real, first: real)
    requires limit >= 1 && start <= first < start + 1.0
    ensures Ends(limit, Window(0, start), Repeat(first, limit), Window(limit, start), limit)
  {
    var w := Window(0, start);
    assert [] + Repeat(first, limit) == Repeat(first, limit);
    assert Passed(limit, w, [], 0, 0) == 0 && WindowAfter(limit, w, [], 0) == w;
    FillsUp(limit, w, [], first, limit);
  }

  /** A second after the window began, the next batch has a window of its own. */
  lemma NextBatchPasses(limit: nat, w: Window, ts: seq<real>, last: real, passed: int)
    requires limit >= 1 && Ends(limit, w, ts, Window(limit, last), passed)
    ensures Ends(limit, w, ts + Repeat(last + 1.0, limit), Window(limit, last + 1.0), passed + limit)
  {
    FillsUp(limit, w, ts, last + 1.0, limit);
  }

  lemma {:induction false} BatchesPass(limit: nat, start: real, first: real, c: nat)
    requires limit >= 1 && start <= first < start + 1.0
    ensures Ends(limit, Window(0, start), Batches(limit, start, first, c),
                 Window(limit, start + c as real), Worth(limit, c + 1))
  {
    if c == 0 {
      FirstBatchPasses(limit, start, first);
      assert Worth(limit, 1) == limit;
    } else {
      var last := start + (c - 1) as real;
      assert last + 1.0 == start + c as real;
      BatchesPass(limit, start, first, c - 1);
      NextBatchPasses(limit, Window(0, start), Batches(limit, start, first, c - 1), last, Worth(limit, c));
    }
  }

  /** The bound is sharp: for every limit and every length T there are requests, the last T
      seconds after the first, of which exactly that many pass. */
  lemma GlobalBoundIsAttained(limit: nat, start: real, T: real)
    requires limit >= 1 && T >= 0.0
    ensures var c := Ceil(T);
            c >= 0
            && var ts := Batches(limit, start, start + (c as real - T), c);
               && |ts| > 0 && Ordered(ts) && ts[|ts| - 1] - ts[0] == T
               && Passed(limit, Window(0, start), ts, 0, |ts|) == limit * (Ceil(ts[|ts| - 1] - ts[0]) + 1)
  {
    var c, first := Ceil(T), start + (Ceil(T) as real - T);
    BatchesInOrder(limit, start, first, c);
    BatchesPass(limit, start, first, c);
    WorthIsProduct(limit, c + 1);
    assert c == 0 ==> T == 0.0;
  }

  // Both checks over a mixed run.

  datatype Request = Request(ip: IP, globalTime: real, privateTime: real)

  datatype Limiter = Limiter(window: Window, buckets: map<IP, Bucket>)

  function AllowStep(p: Params, l: Limiter, r: Request): (Limiter, bool) {
    var (w, passes) := GlobalStep(p.globalLimit, l.window, r.globalTime);
    if !passes then (l.(window := w), false)
    else
      var (b, allowed) := PrivateStep(p, BucketOfIP(l.buckets, r.ip), r.privateTime);
      (Limiter(w, l.buckets[r.ip := b]), allowed)
  }

  function RunAll(p: Params, l: Limiter, rs: seq<Request>): Limiter {
    if rs == [] then l else AllowStep(p, RunAll(p, l, rs[..|rs| - 1]), rs[|rs| - 1]).0
  }

  /** The times at which requests of one IP reach its bucket, and what they are told. */
  function ReachedTimes(p: Params, l: Limiter, rs: seq<Request>, ip: IP): seq<real> {
    if rs == [] then []
    else
      var n, r := |rs| - 1, rs[|rs| - 1];
      ReachedTimes(p, l, rs[..n], ip)
      + if r.ip == ip && GlobalStep(p.globalLimit, RunAll(p, l, rs[..n]).window, r.globalTime).1
        then [r.privateTime] else []
  }

  function ReachedAnswers(p: Params, l: Limiter, rs: seq<Request>, ip: IP): seq<bool> {
    if rs == [] then []
    else
      var n, r := |rs| - 1, rs[|rs| - 1];
      ReachedAnswers(p, l, rs[..n], ip)
      + if r.ip == ip && GlobalStep(p.globalLimit, RunAll(p, l, rs[..n]).window, r.globalTime).1
        then [AllowStep(p, RunAll(p, l, rs[..n]), r).1] else []
  }

  lemma BucketAfterSnoc(p: Params, ts: seq<real>, t: real)
    ensures var s := PrivateStep(p, BucketAfter(p, ts), t);
            && BucketAfter(p, ts + [t]) == Some(s.0)
            && Answers(p, ts + [t]) == Answers(p, ts) + [s.1]
  {
    assert (ts + [t])[..|ts|] == ts;
  }

  /** Isolation: whatever the other IPs do, an IP's bucket and the answers it gets are those
      of its own requests that passed the global check, alone. */
  lemma {:induction false} IPsAreIsolated(p: Params, l: Limiter, rs: seq<Request>, ip: IP)
    requires l.buckets == map[]
    ensures BucketOfIP(RunAll(p, l, rs).buckets, ip) == BucketAfter(p, ReachedTimes(p, l, rs, ip))
    ensures ReachedAnswers(p, l, rs, ip) == Answers(p, ReachedTimes(p, l, rs, ip))
    decreases |rs|
  {
    if rs != [] {
      var n, r := |rs| - 1, rs[|rs| - 1];
      IPsAreIsolated(p, l, rs[..n], ip);
      var before, ts := RunAll(p, l, rs[..n]), ReachedTimes(p, l, rs[..n], ip);
      if r.ip == ip && GlobalStep(p.globalLimit, before.window, r.globalTime).1 {
        BucketAfterSnoc(p, ts, r.privateTime);
      } else {
        assert ts + [] == ts;
        assert ReachedAnswers(p, l, rs[..n], ip) + [] == ReachedAnswers(p, l, rs[..n], ip);
      }
    }
  }

  function GlobalTimes(rs: seq<Request>): (ts: seq<real>)
    ensures |ts| == |rs|
  {
    seq(|rs|, i requires 0 <= i < |rs| => rs[i].globalTime)
  }

  /** Both checks together leave the window that the global check alone would. */
  lemma {:induction false} RunsLeaveTheWindow(p: Params, l: Limiter, rs: seq<Request>, n: nat)
    requires n <= |rs|
    ensures RunAll(p, l, rs[..n]).window == WindowAfter(p.globalLimit, l.window, GlobalTimes(rs), n)
  {
    if n > 0 {
      RunsLeaveTheWindow(p, l, rs, n - 1);
      assert rs[..n][..n - 1] == rs[..n - 1];
    }
  }

  /** What each request of a run is told, and which of them only their bucket turns away. */
  function Verdicts(p: Params, l: Limiter, rs: seq<Request>): (a: seq<bool>)
    ensures |a| == |rs|
  {
    seq(|rs|, n requires 0 <= n < |rs| => AllowStep(p, RunAll(p, l, rs[..n]), rs[n]).1)
  }

  function TurnedAway(p: Params, l: Limiter, rs: seq<Request>): (a: seq<bool>)
    ensures |a| == |rs|
  {
    seq(|rs|, n requires 0 <= n < |rs| =>
      GlobalStep(p.globalLimit, RunAll(p, l, rs[..n]).window, rs[n].globalTime).1 && !Verdicts(p, l, rs)[n])
  }

  lemma VerdictsAndPasses(p: Params, l: Limiter, rs: seq<Request>, n: nat)
    requires n < |rs|
    ensures Passes(p.globalLimit, l.window, GlobalTimes(rs), n)
       <==> Verdicts(p, l, rs)[n] || TurnedAway(p, l, rs)[n]
    ensures !(Verdicts(p, l, rs)[n] && TurnedAway(p, l, rs)[n])
  {
    RunsLeaveTheWindow(p, l, rs, n);
  }

  lemma {:induction false} StretchAddsUp(p: Params, l: Limiter, rs: seq<Request>, i: nat, n: nat)
    requires i <= n <= |rs|
    ensures Count(Verdicts(p, l, rs), i, n) + Count(TurnedAway(p, l, rs), i, n)
         == Passed(p.globalLimit, l.window, GlobalTimes(rs), i, n)
  {
    if i < n {
      StretchAddsUp(p, l, rs, i, n - 1);
      VerdictsAndPasses(p, l, rs, n - 1);
    }
  }

  /** Over any stretch of a run, what uses up the global window is exactly what is let in and
      what the buckets turn away; with no new window in the stretch the count says so. */
  lemma RefusalEffects(p: Params, l: Limiter, rs: seq<Request>, i: nat, n: nat)
    requires i <= n <= |rs|
    ensures var letIn, turnedAway := Count(Verdicts(p, l, rs), i, n), Count(TurnedAway(p, l, rs), i, n);
            var a, b := RunAll(p, l, rs[..i]).window, RunAll(p, l, rs[..n]).window;
            && letIn + turnedAway == Passed(p.globalLimit, l.window, GlobalTimes(rs), i, n)
            && (b.start >= a.start + 1.0 || (b.start == a.start && b.count == a.count + letIn + turnedAway))
  {
    StretchAddsUp(p, l, rs, i, n);
    RunsLeaveTheWindow(p, l, rs, i);
    RunsLeaveTheWindow(p, l, rs, n);
    WindowsAreSpaced(p.globalLimit, l.window, GlobalTimes(rs), i, n);
  }
}
