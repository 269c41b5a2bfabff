/** `ratelimit.py`: token buckets with lazy refill, and the two-level limiter. Time and tokens are
    exact reals; `-inf` is `None`; each clock read inside a critical section is its own value. */
module RateLimiter {
  import opened Prelude

  function MaxR(a: real, b: real): real { if a < b then b else a }
  function MinR(a: real, b: real): real { if b < a then b else a }

  // ------------------------------------------------------------- bucket values

  datatype Bucket = Bucket(rate: real, burst: real, tokens: real, last: real, penalty: Option<real>)

  predicate ValidBucket(b: Bucket) { b.rate >= 0.0 && b.burst >= 1.0 && 0.0 <= b.tokens <= b.burst }

  function OneSecondBurst(ratePerMinute: real): real { MaxR(1.0, ratePerMinute / 60.0) }

  function NewBucket(ratePerMinute: real, burst: real, now: real): Bucket {
    Bucket(ratePerMinute / 60.0, burst, burst, now, None)
  }

  /** A bucket as the limiter makes it is valid: the floor on the burst keeps it able to hold a token. */
  lemma NewBucketValid(ratePerMinute: real, now: real)
    requires ratePerMinute >= 0.0
    ensures ValidBucket(NewBucket(ratePerMinute, OneSecondBurst(ratePerMinute), now))
  {
  }

  predicate Penalized(b: Bucket, now: real) { b.penalty.Some? && now < b.penalty.value }

  /** What a bucket earns in a while. */
  function Gain(b: Bucket, elapsed: real): real { elapsed * b.rate }

  function Refill(b: Bucket, now: real): Bucket {
    if now - b.last > 0.0 then b.(tokens := MinR(b.burst, b.tokens + Gain(b, now - b.last)), last := now) else b
  }

  /** `_try_take_locked`: one clock read for the penalty, another inside the refill. */
  function TryTake(b: Bucket, check: real, refill: real, n: real): (Bucket, bool) {
    if Penalized(b, check) then (b, false)
    else
      var r := Refill(b, refill);
      if n > r.burst || r.tokens < n then (r, false) else (r.(tokens := r.tokens - n), true)
  }

  function GiveBack(b: Bucket, n: real): Bucket { b.(tokens := MinR(b.burst, b.tokens + n)) }

  function Penalize(b: Bucket, seconds: real, now: real): Bucket {
    if b.penalty.None? || now + seconds > b.penalty.value then b.(penalty := Some(now + seconds)) else b
  }

  function PenaltyWait(b: Bucket, now: real): real {
    if b.penalty.None? then 0.0 else MaxR(0.0, b.penalty.value - now)
  }

  /** `_time_until_available_locked`, with the refill it performs. `None` is "never". */
  function WaitFor(b: Bucket, check: real, refill: real, n: real): (Bucket, Option<real>) {
    if n > b.burst then (b, None)
    else
      var wait := PenaltyWait(b, check);
      var r := Refill(b, refill);
      var deficit := n - r.tokens;
      if deficit <= 0.0 then (r, Some(wait))
      else if r.rate <= 0.0 then (r, None)
      else (r, Some(MaxR(wait, deficit / r.rate)))
  }

  lemma Clamp(burst: real, tokens: real, gain: real)
    requires 0.0 <= tokens <= burst && gain >= 0.0
    ensures tokens <= MinR(burst, tokens + gain) <= burst && MinR(burst, tokens + gain) <= tokens + gain
  {
  }

  /** A clock that goes backwards creates no tokens, and no refill exceeds the burst. */
  lemma RefillBounds(b: Bucket, now: real)
    requires ValidBucket(b)
    ensures ValidBucket(Refill(b, now)) && Refill(b, now).last == MaxR(b.last, now)
    ensures now <= b.last ==> Refill(b, now) == b
    ensures now > b.last ==> b.tokens <= Refill(b, now).tokens <= b.tokens + Gain(b, now - b.last)
  {
    if now > b.last {
      var gain := Gain(b, now - b.last);
      MulNonNeg(now - b.last, b.rate);
      Clamp(b.burst, b.tokens, gain);
      assert Refill(b, now) == b.(tokens := MinR(b.burst, b.tokens + gain), last := now);
    }
  }

  lemma MulNonNeg(a: real, b: real)
    requires a >= 0.0 && b >= 0.0
    ensures a * b >= 0.0
  {
  }

  lemma MulMono(a: real, b: real, k: real)
    requires a <= b && k >= 0.0
    ensures a * k <= b * k
  {
    MulNonNeg(b - a, k);
  }

  lemma GainMono(b: Bucket, less: real, more: real)
    requires ValidBucket(b) && less <= more
    ensures Gain(b, less) <= Gain(b, more) && Gain(b, 0.0) == 0.0
  {
    MulMono(less, more, b.rate);
  }

  // --------------------------------------------------------- the bucket object

  class TokenBucket {
    const ratePerSecond: real
    const burst: real
    var tokens: real
    var lastRefill: real
    var penaltyDeadline: Option<real>

    function Value(): Bucket
      reads this
    {
      Bucket(ratePerSecond, burst, tokens, lastRefill, penaltyDeadline)
    }

    constructor (ratePerMinute: real, burst: real, now: real)
      ensures Value() == NewBucket(ratePerMinute, burst, now)
    {
      this.ratePerSecond, this.burst := ratePerMinute / 60.0, burst;
      tokens, lastRefill, penaltyDeadline := burst, now, None;
    }

    method DoRefill(now: real)
      modifies `tokens, `lastRefill
      ensures Value() == Refill(old(Value()), now)
    {
      var elapsed := now - lastRefill;
      if elapsed > 0.0 {
        tokens := MinR(burst, tokens + elapsed * ratePerSecond);
        lastRefill := now;
      }
    }

    /** `try_acquire`. */
    method TryAcquire(n: real, check: real, refill: real) returns (ok: bool)
      modifies `tokens, `lastRefill
      ensures (Value(), ok) == TryTake(old(Value()), check, refill, n)
    {
      if penaltyDeadline.Some? && check < penaltyDeadline.value {
        return false;
      }
      DoRefill(refill);
      if n > burst || tokens < n {
        return false;
      }
      tokens := tokens - n;
      return true;
    }

    method ReturnTokens(n: real)
      modifies `tokens
      ensures Value() == GiveBack(old(Value()), n)
    {
      tokens := MinR(burst, tokens + n);
    }

    /** `penalize` only ever extends the deadline. */
    method Extend(seconds: real, now: real)
      modifies `penaltyDeadline
      ensures Value() == Penalize(old(Value()), seconds, now)
    {
      var deadline := now + seconds;
      if penaltyDeadline.None? || deadline > penaltyDeadline.value {
        penaltyDeadline := Some(deadline);
      }
    }

    method TimeUntilAvailable(n: real, check: real, refill: real) returns (wait: Option<real>)
      modifies `tokens, `lastRefill
      ensures (Value(), wait) == WaitFor(old(Value()), check, refill, n)
    {
      if n > burst {
        return None;
      }
      var penaltyWait := if penaltyDeadline.None? then 0.0 else MaxR(0.0, penaltyDeadline.value - check);
      DoRefill(refill);
      var deficit := n - tokens;
      if deficit <= 0.0 {
        return Some(penaltyWait);
      }
      if ratePerSecond <= 0.0 {
        return None;
      }
      return Some(MaxR(penaltyWait, deficit / ratePerSecond));
    }
  }

  // -------------------------------------------------------- the two-level limiter

  /** `names` is the dictionary order of the children. */
  datatype Limiter = Limiter(
    global: Bucket,
    names: seq<string>,
    children: map<string, Bucket>,
    rates: map<string, real>,
    lastAttempt: map<string, Option<real>>)

  predicate ValidLimiter(l: Limiter) {
    && ValidBucket(l.global) && l.global.penalty.None?
    && (forall name :: name in l.children ==> ValidBucket(l.children[name]))
    && (forall name :: name in l.names ==> name in l.children && name in l.rates && name in l.lastAttempt)
    && (forall name :: name in l.children ==> name in l.names)
  }

  /** The clock values one locked attempt reads, in order. */
  datatype Reads = Reads(penalized: real, childCheck: real, childRefill: real, globalCheck: real, globalRefill: real,
                         idle: real)

  function At(t: real): Reads { Reads(t, t, t, t, t, t) }

  function IdleRemaining(rate: real, last: Option<real>, now: real): real {
    if last.None? then 0.0 else (if rate > 0.0 then 60.0 / rate else 0.0) - (now - last.value)
  }

  /** `_time_until_siblings_idle_locked`, over the first children in dictionary order. */
  function IdleWait(rates: map<string, real>, last: map<string, Option<real>>, names: seq<string>, child: string,
                    now: real): real
    requires forall name :: name in names ==> name in rates && name in last
  {
    if names == [] then 0.0
    else
      var before := IdleWait(rates, last, names[..|names| - 1], child, now);
      var name := names[|names| - 1];
      if name == child then before else MaxR(before, IdleRemaining(rates[name], last[name], now))
  }

  /** A sibling is idle once it has gone unrequested for as long as one of its reserve tokens takes to
      refill; `rate` is in tokens per minute. */
  predicate Idle(rate: real, last: Option<real>, now: real) {
    || last.None?
    || (rate > 0.0 && (now - last.value) * rate >= 60.0)
    || (rate <= 0.0 && now >= last.value)
  }

  predicate OthersIdle(rates: map<string, real>, last: map<string, Option<real>>, names: seq<string>, child: string,
                       now: real)
    requires forall name :: name in names ==> name in rates && name in last
  {
    forall name :: name in names && name != child ==> Idle(rates[name], last[name], now)
  }

  lemma IdleIff(rate: real, last: Option<real>, now: real)
    ensures IdleRemaining(rate, last, now) <= 0.0 <==> Idle(rate, last, now)
  {
    if last.Some? && rate > 0.0 {
      var elapsed, threshold := now - last.value, 60.0 / rate;
      assert threshold * rate == 60.0;
      if elapsed >= threshold {
        MulMono(threshold, elapsed, rate);
      } else {
        MulLess(elapsed, threshold, rate);
      }
    }
  }

  lemma MulLess(a: real, b: real, k: real)
    requires a < b && k > 0.0
    ensures a * k < b * k
  {
    assert (b - a) * k > 0.0;
  }

  /** The computed wait is zero exactly when every other child is idle, and otherwise it is the time until
      the last of them becomes idle, and no longer. */
  lemma {:induction false} IdleWaitIs(rates: map<string, real>, last: map<string, Option<real>>, names: seq<string>,
                                      child: string, now: real, later: real)
    requires forall name :: name in names ==> name in rates && name in last
    requires later >= now
    ensures var w := IdleWait(rates, last, names, child, now);
            w >= 0.0 && (OthersIdle(rates, last, names, child, later) <==> later >= now + w)
    decreases |names|
  {
    if names != [] {
      var n := |names| - 1;
      var name := names[n];
      IdleWaitIs(rates, last, names[..n], child, now, later);
      IdleIff(rates[name], last[name], later);
      assert names == names[..n] + [name];
      assert OthersIdle(rates, last, names, child, later) <==>
             OthersIdle(rates, last, names[..n], child, later)
             && (name == child || Idle(rates[name], last[name], later));
      if last[name].Some? {
        assert IdleRemaining(rates[name], last[name], later) ==
            IdleRemaining(rates[name], last[name], now) - (later - now);
      }
    }
  }

  function SiblingWait(l: Limiter, child: string, now: real): real
    requires ValidLimiter(l)
  {
    IdleWait(l.rates, l.lastAttempt, l.names, child, now)
  }

  /** `_try_take_locked`: reserve first, then borrowing, both against the global bucket. */
  function Attempt(l: Limiter, child: string, n: real, t: Reads): (Limiter, bool)
    requires ValidLimiter(l) && child in l.children
  {
    if Penalized(l.children[child], t.penalized) then (l, false)
    else
      var (c, took) := TryTake(l.children[child], t.childCheck, t.childRefill, n);
      if took then
        var (g, ok) := TryTake(l.global, t.globalCheck, t.globalRefill, n);
        if ok then (l.(global := g, children := l.children[child := c]), true)
        else (l.(global := g, children := l.children[child := GiveBack(c, n)]), false)
      else
        var l' := l.(children := l.children[child := c]);
        if SiblingWait(l, child, t.idle) > 0.0 then (l', false)
        else
          var (g, ok) := TryTake(l.global, t.globalCheck, t.globalRefill, n);
          (l'.(global := g), ok)
  }

  function MinWait(own: Option<real>, borrow: real): real {
    if own.None? then borrow else MinR(own.value, borrow)
  }

  /** `_time_until_locked`. */
  function ComputeWait(l: Limiter, child: string, n: real, t: Reads): (Limiter, Option<real>)
    requires ValidLimiter(l) && child in l.children
  {
    var (c, own) := WaitFor(l.children[child], t.childCheck, t.childRefill, n);
    var (g, whole) := WaitFor(l.global, t.globalCheck, t.globalRefill, n);
    var l' := l.(global := g, children := l.children[child := c]);
    if whole.None? then (l', None)
    else if own == Some(0.0) then (l', whole)
    else (l', Some(MinWait(own, MaxR(SiblingWait(l, child, t.idle), whole.value))))
  }

  // --------------------------------------------------------- what a step keeps

  lemma TakeBounds(b: Bucket, check: real, refill: real, n: real)
    requires ValidBucket(b) && n >= 0.0
    ensures var (b', ok) := TryTake(b, check, refill, n);
            && ValidBucket(b') && b'.rate == b.rate && b'.burst == b.burst && b'.penalty == b.penalty
            && (!ok ==> b' == if Penalized(b, check) then b else Refill(b, refill))
            && (ok ==> b' == Refill(b, refill).(tokens := Refill(b, refill).tokens - n))
  {
    RefillBounds(b, refill);
  }

  /** What a child holds after an attempt that was refused. */
  function Settled(b: Bucket, t: Reads): Bucket {
    if Penalized(b, t.penalized) || Penalized(b, t.childCheck) then b else Refill(b, t.childRefill)
  }

  lemma RebuiltValid(l: Limiter, child: string, c: Bucket, g: Bucket)
    requires ValidLimiter(l) && child in l.children && ValidBucket(c) && ValidBucket(g) && g.penalty.None?
    ensures ValidLimiter(l.(global := g, children := l.children[child := c]))
  {
  }

  /** An attempt changes the named child and the global bucket only, and a refused one leaves the
      child exactly its refilled tokens. */
  lemma AttemptBuckets(l: Limiter, child: string, n: real, t: Reads)
    requires ValidLimiter(l) && child in l.children && n >= 0.0
    ensures var (l', ok) := Attempt(l, child, n, t);
            && child in l'.children
            && l' == l.(global := l'.global, children := l.children[child := l'.children[child]])
            && ValidBucket(l'.global) && l'.global.penalty.None? && ValidBucket(l'.children[child])
            && (!ok ==> l'.children[child] == Settled(l.children[child], t))
  {
    TakeBounds(l.children[child], t.childCheck, t.childRefill, n);
    TakeBounds(l.global, t.globalCheck, t.globalRefill, n);
    RefillBounds(l.children[child], t.childRefill);
    assert l.children[child := l.children[child]] == l.children;
  }

  /** An attempt keeps the limiter valid, and a failed one leaves the child exactly its refilled tokens. */
  lemma AttemptKeeps(l: Limiter, child: string, n: real, t: Reads)
    requires ValidLimiter(l) && child in l.children && n >= 0.0
    ensures var (l', ok) := Attempt(l, child, n, t);
            && ValidLimiter(l') && l'.names == l.names && l'.rates == l.rates && l'.lastAttempt == l.lastAttempt
            && (forall other :: other in l.children && other != child ==>
                  other in l'.children && l'.children[other] == l.children[other])
            && child in l'.children
            && (!ok ==> l'.children[child] == Settled(l.children[child], t))
  {
    var (l', _) := Attempt(l, child, n, t);
    AttemptBuckets(l, child, n, t);
    RebuiltValid(l, child, l'.children[child], l'.global);
  }

  // ------------------------------------------------------------ the acquire loop

  lemma WaitKeeps(b: Bucket, check: real, refill: real, n: real)
    requires ValidBucket(b)
    ensures ValidBucket(WaitFor(b, check, refill, n).0) && WaitFor(b, check, refill, n).0.penalty == b.penalty
    ensures WaitFor(b, check, refill, n).0 in {b, Refill(b, refill)}
  {
    RefillBounds(b, refill);
  }

  /** The clock values of one turn of `acquire`: the attempt, the computed wait, the deadline test. */
  datatype Turn = Turn(attempt: Reads, ask: Reads, deadlineCheck: real)

  /** `Waiting` is a call that has not returned yet: it ran out of the turns considered. */
  datatype Verdict = Acquired | Denied | Waiting

  function Asked(l: Limiter, child: string, n: real, t: Reads): (r: (Limiter, Option<real>))
    requires ValidLimiter(l) && child in l.children
    ensures ValidLimiter(r.0) && child in r.0.children && r == ComputeWait(l, child, n, t)
  {
    WaitKeeps(l.children[child], t.childCheck, t.childRefill, n);
    WaitKeeps(l.global, t.globalCheck, t.globalRefill, n);
    var r := ComputeWait(l, child, n, t);
    RebuiltValid(l, child, r.0.children[child], r.0.global);
    r
  }

  function OneTurn(l: Limiter, child: string, n: real, deadline: Option<real>, turn: Turn): (r: (Limiter, Verdict))
    requires ValidLimiter(l) && child in l.children && n >= 0.0
    ensures ValidLimiter(r.0) && child in r.0.children
  {
    AttemptKeeps(l, child, n, turn.attempt);
    var (l1, ok) := Attempt(l, child, n, turn.attempt);
    if ok then (l1, Acquired)
    else
      var (l2, wait) := Asked(l1, child, n, turn.ask);
      (l2, if wait.None? || (deadline.Some? && deadline.value - turn.deadlineCheck <= 0.0) then Denied else Waiting)
  }

  function Turns(l: Limiter, child: string, n: real, deadline: Option<real>, turns: seq<Turn>): (Limiter, Verdict)
    requires ValidLimiter(l) && child in l.children && n >= 0.0
    decreases |turns|
  {
    if turns == [] then (l, Waiting)
    else
      var (l', verdict) := OneTurn(l, child, n, deadline, turns[0]);
      if verdict.Waiting? then Turns(l', child, n, deadline, turns[1..]) else (l', verdict)
  }

  function Begun(l: Limiter, child: string, now: real): (r: Limiter)
    requires ValidLimiter(l)
    ensures ValidLimiter(r)
  {
    l.(lastAttempt := l.lastAttempt[child := Some(now)])
  }

  // -------------------------------------------------------- the limiter object

  class HierarchicalLimiter {
    const global: TokenBucket
    const names: seq<string>
    const children: map<string, TokenBucket>
    const reserveRates: map<string, real>
    var lastAttempt: map<string, Option<real>>

    function Children(): map<string, Bucket>
      reads children.Values
    {
      map name | name in children :: children[name].Value()
    }

    function Value(): Limiter
      reads `lastAttempt, global, children.Values
    {
      Limiter(global.Value(), names, Children(), reserveRates, lastAttempt)
    }

    ghost predicate Separate()
    {
      && (forall name :: name in children ==> children[name] != global)
      && (forall a, b :: a in children && b in children && children[a] == children[b] ==> a == b)
    }

    constructor (global: TokenBucket, names: seq<string>, children: map<string, TokenBucket>,
                 reserveRates: map<string, real>)
      requires (forall name :: name in children ==> children[name] != global)
      requires (forall a, b :: a in children && b in children && children[a] == children[b] ==> a == b)
      ensures this.global == global && this.names == names && this.children == children
      ensures this.reserveRates == reserveRates
      ensures Separate() && forall name :: name in children ==> name in lastAttempt && lastAttempt[name] == None
    {
      this.global, this.names, this.children, this.reserveRates := global, names, children, reserveRates;
      lastAttempt := map name | name in children :: None;
    }

    /** The loop over the other children. */
    method TimeUntilSiblingsIdle(child: string, now: real) returns (wait: real)
      requires forall name :: name in names ==> name in reserveRates && name in lastAttempt
      ensures wait == IdleWait(reserveRates, lastAttempt, names, child, now)
      ensures wait >= 0.0
      ensures forall later :: later >= now ==>
                (OthersIdle(reserveRates, lastAttempt, names, child, later) <==> later >= now + wait)
    {
      wait := 0.0;
      for i := 0 to |names|
        invariant wait == IdleWait(reserveRates, lastAttempt, names[..i], child, now)
      {
        assert names[..i + 1][..i] == names[..i];
        var name := names[i];
        if name != child {
          var remaining := IdleRemaining(reserveRates[name], lastAttempt[name], now);
          wait := MaxR(wait, remaining);
        }
      }
      assert names[..|names|] == names;
      forall later | later >= now
        ensures wait >= 0.0 && (OthersIdle(reserveRates, lastAttempt, names, child, later) <==> later >= now + wait)
      {
        IdleWaitIs(reserveRates, lastAttempt, names, child, now, later);
      }
      IdleWaitIs(reserveRates, lastAttempt, names, child, now, now);
    }

    /** Draw on the global bucket alone, if every sibling is idle. */
    method Borrow(child: string, n: real, t: Reads) returns (ok: bool)
      requires forall name :: name in names ==> name in reserveRates && name in lastAttempt
      modifies global
      ensures if IdleWait(reserveRates, lastAttempt, names, child, t.idle) > 0.0
              then !ok && global.Value() == old(global.Value())
              else (global.Value(), ok) == TryTake(old(global.Value()), t.globalCheck, t.globalRefill, n)
    {
      var wait := TimeUntilSiblingsIdle(child, t.idle);
      if wait > 0.0 {
        ok := false;
      } else {
        ok := global.TryAcquire(n, t.globalCheck, t.globalRefill);
      }
    }

    /** One locked attempt: the effect on every bucket is `Attempt`. */
    method TryTakeLocked(child: string, n: real, t: Reads) returns (ok: bool)
      requires Separate() && ValidLimiter(Value()) && child in children
      modifies global, children[child]
      ensures var (l', granted) := Attempt(old(Value()), child, n, t);
              ok == granted && global.Value() == l'.global && children[child].Value() == l'.children[child]
    {
      var c := children[child];
      if c.penaltyDeadline.Some? && t.penalized < c.penaltyDeadline.value {
        ok := false;
      } else {
        var took := c.TryAcquire(n, t.childCheck, t.childRefill);
        if took {
          ok := global.TryAcquire(n, t.globalCheck, t.globalRefill);
          if !ok {
            c.ReturnTokens(n);
          }
        } else {
          ok := Borrow(child, n, t);
        }
      }
    }

    /** How long until the child could acquire, or never: `ComputeWait`. */
    method TimeUntilLocked(child: string, n: real, t: Reads) returns (wait: Option<real>)
      requires Separate() && ValidLimiter(Value()) && child in children
      modifies global, children[child]
      ensures var (l', w) := ComputeWait(old(Value()), child, n, t);
              wait == w && global.Value() == l'.global && children[child].Value() == l'.children[child]
    {
      var c := children[child];
      var own := c.TimeUntilAvailable(n, t.childCheck, t.childRefill);
      var whole := global.TimeUntilAvailable(n, t.globalCheck, t.globalRefill);
      if whole.None? {
        wait := None;
      } else if own == Some(0.0) {
        wait := whole;
      } else {
        var idle := TimeUntilSiblingsIdle(child, t.idle);
        var borrow := MaxR(idle, whole.value);
        wait := Some(if own.None? then borrow else MinR(own.value, borrow));
      }
    }

    /** The same attempt, seen as a step of the whole limiter. */
    method TryOnce(child: string, n: real, t: Reads) returns (ok: bool)
      requires Separate() && ValidLimiter(Value()) && child in children && n >= 0.0
      modifies global, children[child]
      ensures (Value(), ok) == Attempt(old(Value()), child, n, t) && ValidLimiter(Value())
    {
      ghost var l := Value();
      AttemptBuckets(l, child, n, t);
      AttemptKeeps(l, child, n, t);
      ok := TryTakeLocked(child, n, t);
      assert Children() == l.children[child := children[child].Value()];
    }

    /** The same wait, seen as a step of the whole limiter. */
    method AskOnce(child: string, n: real, t: Reads) returns (wait: Option<real>)
      requires Separate() && ValidLimiter(Value()) && child in children
      modifies global, children[child]
      ensures (Value(), wait) == Asked(old(Value()), child, n, t)
    {
      ghost var l := Value();
      wait := TimeUntilLocked(child, n, t);
      assert Children() == l.children[child := children[child].Value()];
    }

    /** The body of the loop of `acquire`. */
    method TakeTurn(child: string, n: real, deadline: Option<real>, turn: Turn) returns (verdict: Verdict)
      requires Separate() && ValidLimiter(Value()) && child in children && n >= 0.0
      modifies global, children[child]
      ensures (Value(), verdict) == OneTurn(old(Value()), child, n, deadline, turn)
    {
      var ok := TryOnce(child, n, turn.attempt);
      if ok {
        return Acquired;
      }
      var wait := AskOnce(child, n, turn.ask);
      if wait.None? || (deadline.Some? && deadline.value - turn.deadlineCheck <= 0.0) {
        return Denied;
      }
      return Waiting;
    }

    method TakeTurns(child: string, n: real, deadline: Option<real>, turns: seq<Turn>) returns (verdict: Verdict)
      requires Separate() && ValidLimiter(Value()) && child in children && n >= 0.0
      modifies global, children[child]
      ensures (Value(), verdict) == Turns(old(Value()), child, n, deadline, turns)
    {
      ghost var l := Value();
      verdict := Waiting;
      for i := 0 to |turns|
        invariant l == Value() && ValidLimiter(l) && verdict.Waiting?
        invariant Turns(old(Value()), child, n, deadline, turns) == Turns(l, child, n, deadline, turns[i..])
      {
        assert turns[i..][1..] == turns[i + 1..];
        verdict := TakeTurn(child, n, deadline, turns[i]);
        l := OneTurn(l, child, n, deadline, turns[i]).0;
        if !verdict.Waiting? {
          break;
        }
      }
    }

    /** `acquire`: attempt, compute a wait, test the deadline, again. A wait on the condition only
        separates one turn's clock values from the next. */
    method Acquire(child: string, n: real, deadline: Option<real>, now: real,
                   turns: seq<Turn>) returns (verdict: Verdict)
      requires Separate() && ValidLimiter(Value()) && child in children && n >= 0.0
      modifies `lastAttempt, global, children[child]
      ensures (Value(), verdict) == Turns(Begun(old(Value()), child, now), child, n, deadline, turns)
    {
      ghost var begun := Begun(Value(), child, now);
      lastAttempt := lastAttempt[child := Some(now)];
      assert Value() == begun;
      verdict := TakeTurns(child, n, deadline, turns);
    }
  }

  // ---------------------------------------------------------- global rate bound

  /** Everything that can happen under the lock. */
  datatype Event =
    | Try(child: string, n: real, t: Reads)
    | Ask(child: string, n: real, t: Reads)         // computing a wait refills both buckets
    | Begin(child: string, now: real)               // `_last_attempt` at the start of an acquire
    | Punish(child: string, seconds: real, now: real)
    | Peek(child: string, now: real)                // `snapshot` refills every child,
    | Look(now: real)                               // and then the global bucket

  predicate Allowed(l: Limiter, e: Event) {
    match e
    case Try(child, n, t) => child in l.children && n >= 0.0
    case Ask(child, n, t) => child in l.children && n >= 0.0
    case Begin(child, now) => child in l.lastAttempt
    case Punish(child, seconds, now) => child in l.children
    case Peek(child, now) => child in l.children
    case Look(now) => true
  }

  function Apply(l: Limiter, e: Event): (Limiter, real)
    requires ValidLimiter(l) && Allowed(l, e)
  {
    match e
    case Try(child, n, t) => var (l', ok) := Attempt(l, child, n, t); (l', if ok then n else 0.0)
    case Ask(child, n, t) => (ComputeWait(l, child, n, t).0, 0.0)
    case Begin(child, now) => (Begun(l, child, now), 0.0)
    case Punish(child, seconds, now) =>
      (l.(children := l.children[child := Penalize(l.children[child], seconds, now)]), 0.0)
    case Peek(child, now) => (l.(children := l.children[child := Refill(l.children[child], now)]), 0.0)
    case Look(now) => (l.(global := Refill(l.global, now)), 0.0)
  }

  /** The only clock value an event feeds to the global bucket. */
  function GlobalRead(e: Event): Option<real> {
    match e
    case Try(_, _, t) => Some(t.globalRefill)
    case Ask(_, _, t) => Some(t.globalRefill)
    case Look(now) => Some(now)
    case _ => None
  }

  /** What any event does to the global bucket: maybe a refill, maybe a grant after a refill. */
  predicate GlobalStep(g: Bucket, g': Bucket, read: Option<real>, granted: real) {
    || (g' == g && granted == 0.0)
    || (read.Some? && g' == Refill(g, read.value) && granted == 0.0)
    || (read.Some? && 0.0 <= granted <= Refill(g, read.value).tokens
        && g' == Refill(g, read.value).(tokens := Refill(g, read.value).tokens - granted))
  }

  lemma AttemptGlobal(l: Limiter, child: string, n: real, t: Reads)
    requires ValidLimiter(l) && child in l.children && n >= 0.0
    ensures var (l', ok) := Attempt(l, child, n, t);
            GlobalStep(l.global, l'.global, Some(t.globalRefill), if ok then n else 0.0)
  {
    TakeBounds(l.global, t.globalCheck, t.globalRefill, n);
  }

  lemma EventKeeps(l: Limiter, e: Event)
    requires ValidLimiter(l) && Allowed(l, e)
    ensures var (l', granted) := Apply(l, e);
            ValidLimiter(l') && GlobalStep(l.global, l'.global, GlobalRead(e), granted)
  {
    match e
    case Try(child, n, t) =>
      AttemptKeeps(l, child, n, t);
      AttemptGlobal(l, child, n, t);
    case Ask(child, n, t) =>
      WaitKeeps(l.children[child], t.childCheck, t.childRefill, n);
      WaitKeeps(l.global, t.globalCheck, t.globalRefill, n);
      RebuiltValid(l, child, ComputeWait(l, child, n, t).0.children[child], ComputeWait(l, child, n, t).0.global);
    case Begin(child, now) =>
    case Punish(child, seconds, now) =>
    case Peek(child, now) => RefillBounds(l.children[child], now);
    case Look(now) => RefillBounds(l.global, now);
  }

  predicate AllowedAll(l: Limiter, es: seq<Event>)
    requires ValidLimiter(l)
    decreases |es|
  {
    es == [] || (Allowed(l, es[0]) && (EventKeeps(l, es[0]); AllowedAll(Apply(l, es[0]).0, es[1..])))
  }

  /** Total tokens granted by a run, reserved or borrowed, over all children. */
  function Granted(l: Limiter, es: seq<Event>): real
    requires ValidLimiter(l) && AllowedAll(l, es)
    decreases |es|
  {
    if es == [] then 0.0
    else
      EventKeeps(l, es[0]);
      Apply(l, es[0]).1 + Granted(Apply(l, es[0]).0, es[1..])
  }

  function After(l: Limiter, es: seq<Event>): Limiter
    requires ValidLimiter(l) && AllowedAll(l, es)
    decreases |es|
  {
    if es == [] then l
    else
      EventKeeps(l, es[0]);
      After(Apply(l, es[0]).0, es[1..])
  }

  /** The events of one call of `acquire`, turn by turn. */
  function TurnEvents(l: Limiter, child: string, n: real, deadline: Option<real>, turns: seq<Turn>): seq<Event>
    requires ValidLimiter(l) && child in l.children && n >= 0.0
    decreases |turns|
  {
    if turns == [] then []
    else if Attempt(l, child, n, turns[0].attempt).1 then [Try(child, n, turns[0].attempt)]
    else
      var (l', verdict) := OneTurn(l, child, n, deadline, turns[0]);
      [Try(child, n, turns[0].attempt), Ask(child, n, turns[0].ask)]
      + (if verdict.Waiting? then TurnEvents(l', child, n, deadline, turns[1..]) else [])
  }

  lemma TwoEvents(l: Limiter, a: Event, b: Event, rest: seq<Event>)
    requires ValidLimiter(l) && Allowed(l, a) && ValidLimiter(Apply(l, a).0) && Allowed(Apply(l, a).0, b)
    requires ValidLimiter(Apply(Apply(l, a).0, b).0) && AllowedAll(Apply(Apply(l, a).0, b).0, rest)
    requires Apply(l, a).1 == 0.0 && Apply(Apply(l, a).0, b).1 == 0.0
    ensures AllowedAll(l, [a, b] + rest)
    ensures After(l, [a, b] + rest) == After(Apply(Apply(l, a).0, b).0, rest)
    ensures Granted(l, [a, b] + rest) == Granted(Apply(Apply(l, a).0, b).0, rest)
  {
    assert ([a, b] + rest)[1..] == [b] + rest && ([b] + rest)[1..] == rest;
  }

  /** A call of `acquire` is a run of events: it grants its `n` tokens once if it returns true, and
      none otherwise, however often it was refused in between. */
  lemma {:induction false} AcquireGrantsOnce(l: Limiter, child: string, n: real, deadline: Option<real>,
                                             turns: seq<Turn>)
    requires ValidLimiter(l) && child in l.children && n >= 0.0
    ensures var es := TurnEvents(l, child, n, deadline, turns);
            var (l', verdict) := Turns(l, child, n, deadline, turns);
            AllowedAll(l, es) && After(l, es) == l' && Granted(l, es) == if verdict.Acquired? then n else 0.0
    decreases |turns|
  {
    if turns != [] {
      var a, b := Try(child, n, turns[0].attempt), Ask(child, n, turns[0].ask);
      AttemptKeeps(l, child, n, turns[0].attempt);
      if !Attempt(l, child, n, turns[0].attempt).1 {
        var (l', verdict) := OneTurn(l, child, n, deadline, turns[0]);
        if verdict.Waiting? {
          AcquireGrantsOnce(l', child, n, deadline, turns[1..]);
          TwoEvents(l, a, b, TurnEvents(l', child, n, deadline, turns[1..]));
        } else {
          TwoEvents(l, a, b, []);
        }
      } else {
        assert [a][1..] == [];
      }
    }
  }

  predicate ReadsWithin(es: seq<Event>, lo: real, hi: real) {
    forall i :: 0 <= i < |es| && GlobalRead(es[i]).Some? ==> lo <= GlobalRead(es[i]).value <= hi
  }

  /** What the window can still grant: the tokens at hand plus the refill up to `hi`; before the
      window's first refill, at most a full burst plus the whole window. */
  function Allowance(g: Bucket, lo: real, hi: real): real {
    if g.last > hi then g.tokens
    else if g.last >= lo then g.tokens + Gain(g, hi - g.last)
    else g.burst + Gain(g, hi - lo)
  }

  lemma RefillAllowance(g: Bucket, t: real, lo: real, hi: real)
    requires ValidBucket(g) && lo <= t <= hi
    ensures var r := Refill(g, t); r.last >= lo && Allowance(r, lo, hi) <= Allowance(g, lo, hi)
  {
    RefillBounds(g, t);
    if t > g.last {
      if g.last >= lo {
        assert Gain(g, hi - t) + Gain(g, t - g.last) == Gain(g, hi - g.last);
      } else {
        GainMono(g, hi - t, hi - lo);
      }
    }
  }

  lemma StepAllowance(g: Bucket, g': Bucket, read: Option<real>, granted: real, lo: real, hi: real)
    requires ValidBucket(g) && GlobalStep(g, g', read, granted) && (read.Some? ==> lo <= read.value <= hi)
    ensures granted + Allowance(g', lo, hi) <= Allowance(g, lo, hi)
  {
    if read.Some? {
      RefillAllowance(g, read.value, lo, hi);
    }
  }

  lemma {:induction false} WindowBound(l: Limiter, es: seq<Event>, lo: real, hi: real)
    requires ValidLimiter(l) && AllowedAll(l, es) && ReadsWithin(es, lo, hi) && lo <= hi
    ensures Granted(l, es) <= Allowance(l.global, lo, hi)
    decreases |es|
  {
    if es == [] {
      AllowanceNonNeg(l.global, lo, hi);
    } else {
      var (l', granted) := Apply(l, es[0]);
      EventKeeps(l, es[0]);
      assert ReadsWithin(es[1..], lo, hi) by {
        assert forall i :: 0 <= i < |es[1..]| ==> es[1..][i] == es[i + 1];
      }
      WindowBound(l', es[1..], lo, hi);
      assert GlobalRead(es[0]).Some? ==> lo <= GlobalRead(es[0]).value <= hi;
      StepAllowance(l.global, l'.global, GlobalRead(es[0]), granted, lo, hi);
    }
  }

  /** Burst plus rate times the window. */
  function WindowCap(g: Bucket, lo: real, hi: real): real { g.burst + Gain(g, hi - lo) }

  lemma AllowanceInside(g: Bucket, lo: real, hi: real)
    requires ValidBucket(g) && lo <= g.last <= hi
    ensures 0.0 <= Allowance(g, lo, hi) <= WindowCap(g, lo, hi)
  {
    GainMono(g, 0.0, hi - g.last);
    GainMono(g, hi - g.last, hi - lo);
    SumMono(g.tokens, Gain(g, hi - g.last), g.burst, Gain(g, hi - lo));
  }

  lemma AllowanceOutside(g: Bucket, lo: real, hi: real)
    requires ValidBucket(g) && lo <= hi && (g.last < lo || g.last > hi)
    ensures 0.0 <= Allowance(g, lo, hi) <= WindowCap(g, lo, hi)
  {
    GainMono(g, 0.0, hi - lo);
    if g.last > hi {
      SumMono(g.tokens, 0.0, g.burst, Gain(g, hi - lo));
    } else {
      SumMono(g.burst, Gain(g, hi - lo), g.burst, Gain(g, hi - lo));
    }
  }

  lemma AllowanceNonNeg(g: Bucket, lo: real, hi: real)
    requires ValidBucket(g) && lo <= hi
    ensures 0.0 <= Allowance(g, lo, hi) <= WindowCap(g, lo, hi)
  {
    if lo <= g.last <= hi {
      AllowanceInside(g, lo, hi);
    } else {
      AllowanceOutside(g, lo, hi);
    }
  }

  lemma SumMono(a: real, b: real, c: real, d: real)
    requires 0.0 <= a <= c && 0.0 <= b <= d
    ensures 0.0 <= a + b <= c + d
  {
  }

  lemma AtMost(a: real, b: real, c: real)
    requires a <= b <= c
    ensures a <= c
  {
  }

  /** Global rate bound: over any interleaving of acquires by any children, the tokens granted in a
      window are at most the global burst plus the rate times the window. The clock may regress. */
  lemma GlobalRateBound(l: Limiter, es: seq<Event>, lo: real, hi: real)
    requires ValidLimiter(l) && AllowedAll(l, es) && ReadsWithin(es, lo, hi) && lo <= hi
    ensures Granted(l, es) <= WindowCap(l.global, lo, hi)
  {
    WindowBound(l, es, lo, hi);
    AllowanceNonNeg(l.global, lo, hi);
    AtMost(Granted(l, es), Allowance(l.global, lo, hi), WindowCap(l.global, lo, hi));
  }

  /** The limiter as it is built: full buckets of one second's worth, nobody has asked yet. */
  function NewLimiter(globalRate: real, names: seq<string>, rates: map<string, real>, now: real): Limiter {
    Limiter(NewBucket(globalRate, OneSecondBurst(globalRate), now), names,
            map name | name in rates :: NewBucket(rates[name], OneSecondBurst(rates[name]), now),
            rates, map name | name in rates :: None)
  }

  /** Every bucket starts full with its own second's worth, and with one token if that is less. */
  lemma StartsFull(globalRate: real, names: seq<string>, rates: map<string, real>, now: real, name: string)
    requires name in rates
    ensures var l := NewLimiter(globalRate, names, rates, now);
            && l.global == Bucket(globalRate / 60.0, l.global.burst, l.global.burst, now, None)
            && l.global.burst == (if globalRate > 60.0 then globalRate / 60.0 else 1.0)
            && name in l.children && l.lastAttempt[name].None?
            && var b := l.children[name];
               b == Bucket(rates[name] / 60.0, b.burst, b.burst, now, None)
               && b.burst == (if rates[name] > 60.0 then rates[name] / 60.0 else 1.0)
  {
  }

  /** From the start, any run grants at most max(1, R/60) tokens and R/60 for each second of its window,
      R being the configured tokens per minute. */
  lemma ConfiguredRateBound(globalRate: real, names: seq<string>, rates: map<string, real>, now: real,
                            es: seq<Event>, lo: real, hi: real)
    requires globalRate >= 0.0 && (forall name :: name in rates ==> rates[name] >= 0.0 && name in names)
    requires forall name :: name in names ==> name in rates
    ensures ValidLimiter(NewLimiter(globalRate, names, rates, now))
    ensures AllowedAll(NewLimiter(globalRate, names, rates, now), es) && ReadsWithin(es, lo, hi) && lo <= hi ==>
            Granted(NewLimiter(globalRate, names, rates, now), es) <= ConfiguredCap(globalRate, hi - lo)
  {
    var l := NewLimiter(globalRate, names, rates, now);
    NewBucketValid(globalRate, now);
    forall name | name in l.children ensures ValidBucket(l.children[name]) {
      NewBucketValid(rates[name], now);
    }
    if AllowedAll(l, es) && ReadsWithin(es, lo, hi) && lo <= hi {
      GlobalRateBound(l, es, lo, hi);
      NewBucketCap(globalRate, now, lo, hi);
    }
  }

  function ConfiguredCap(ratePerMinute: real, seconds: real): real {
    (if ratePerMinute > 60.0 then ratePerMinute / 60.0 else 1.0) + seconds * (ratePerMinute / 60.0)
  }

  lemma NewBucketCap(rate: real, now: real, lo: real, hi: real)
    ensures WindowCap(NewBucket(rate, OneSecondBurst(rate), now), lo, hi) == ConfiguredCap(rate, hi - lo)
  {
  }

  // -------------------------------------------------------------------- progress

  lemma SiblingWaitIs(l: Limiter, child: string, t: real)
    requires ValidLimiter(l)
    ensures SiblingWait(l, child, t) >= 0.0
    ensures SiblingWait(l, child, t) <= 0.0 <==>
            forall other :: other in l.names && other != child ==> Idle(l.rates[other], l.lastAttempt[other], t)
  {
    IdleWaitIs(l.rates, l.lastAttempt, l.names, child, t, t);
  }

  /** Exactly when an attempt is granted: unpenalised, the global bucket holds the request, and so
      does the child's reserve unless every sibling is idle. */
  lemma AttemptIff(l: Limiter, child: string, n: real, t: real)
    requires ValidLimiter(l) && child in l.children && n >= 0.0
    ensures Attempt(l, child, n, At(t)).1
       <==> && !Penalized(l.children[child], t)
            && n <= Refill(l.global, t).tokens
            && (n <= Refill(l.children[child], t).tokens
                || forall other :: other in l.names && other != child ==> Idle(l.rates[other], l.lastAttempt[other], t))
  {
    SiblingWaitIs(l, child, t);
    RefillBounds(l.global, t);
    RefillBounds(l.children[child], t);
  }

  /** What a refused acquire leaves behind once it has also computed how long to wait. */
  function Refused(l: Limiter, child: string, n: real, t: real): (Limiter, Option<real>)
    requires ValidLimiter(l) && child in l.children && n >= 0.0
  {
    AttemptKeeps(l, child, n, At(t));
    ComputeWait(Attempt(l, child, n, At(t)).0, child, n, At(t))
  }

  /** Both buckets refilled at `t`, nothing else touched. */
  function Refreshed(l: Limiter, child: string, t: real): (r: Limiter)
    requires ValidLimiter(l) && child in l.children
    ensures ValidLimiter(r)
  {
    RefillBounds(l.global, t);
    RefillBounds(l.children[child], t);
    l.(global := Refill(l.global, t), children := l.children[child := Refill(l.children[child], t)])
  }

  /** The wait of one unpenalised bucket that has been refilled. */
  function BucketWait(b: Bucket, n: real): Option<real> {
    if n > b.burst then None
    else if n <= b.tokens then Some(0.0)
    else if b.rate <= 0.0 then None
    else Some((n - b.tokens) / b.rate)
  }

  lemma DivPositive(a: real, b: real)
    requires a > 0.0 && b > 0.0
    ensures a / b > 0.0
  {
  }

  lemma WaitIs(b: Bucket, t: real, n: real)
    requires ValidBucket(b) && !Penalized(b, t)
    ensures WaitFor(b, t, t, n) == (if n > b.burst then b else Refill(b, t), BucketWait(Refill(b, t), n))
    ensures WaitFor(Refill(b, t), t, t, n) == (Refill(b, t), BucketWait(Refill(b, t), n))
  {
    RefillBounds(b, t);
    var r := Refill(b, t);
    assert Refill(r, t) == r;
    if n > r.tokens && r.rate > 0.0 {
      DivPositive(n - r.tokens, r.rate);
    }
  }

  /** The computed wait over refilled buckets. */
  function CombinedWait(c: Bucket, g: Bucket, idle: real, n: real): Option<real> {
    var own, whole := BucketWait(c, n), BucketWait(g, n);
    if whole.None? then None
    else if own == Some(0.0) then whole
    else Some(MinWait(own, MaxR(idle, whole.value)))
  }

  lemma RefusedGlobal(l: Limiter, child: string, n: real, t: real)
    requires ValidLimiter(l) && child in l.children && n >= 0.0
    requires !Penalized(l.children[child], t) && !Attempt(l, child, n, At(t)).1
    ensures var (l1, _) := Attempt(l, child, n, At(t));
            && l1 == l.(global := l1.global, children := l.children[child := Refill(l.children[child], t)])
            && (l1.global == l.global || l1.global == Refill(l.global, t))
  {
    AttemptKeeps(l, child, n, At(t));
    TakeBounds(l.global, t, t, n);
    TakeBounds(l.children[child], t, t, n);
    RefillBounds(l.children[child], t);
  }

  lemma RefusedIs(l: Limiter, child: string, n: real, t: real)
    requires ValidLimiter(l) && child in l.children && n >= 0.0
    requires !Penalized(l.children[child], t) && !Attempt(l, child, n, At(t)).1
    ensures Refused(l, child, n, t).1
         == CombinedWait(Refill(l.children[child], t), Refill(l.global, t), SiblingWait(l, child, t), n)
    ensures n <= l.global.burst ==> Refused(l, child, n, t).0 == Refreshed(l, child, t)
  {
    AttemptKeeps(l, child, n, At(t));
    RefusedGlobal(l, child, n, t);
    AskedIs(l, Attempt(l, child, n, At(t)).0, child, n, t);
  }

  /** The wait computed after a refused attempt, whether or not that refilled the global bucket. */
  lemma AskedIs(l: Limiter, l1: Limiter, child: string, n: real, t: real)
    requires ValidLimiter(l) && child in l.children && ValidLimiter(l1) && child in l1.children
    requires !Penalized(l.children[child], t) && (l1.global == l.global || l1.global == Refill(l.global, t))
    requires l1 == l.(global := l1.global, children := l.children[child := Refill(l.children[child], t)])
    ensures ComputeWait(l1, child, n, At(t)).1
         == CombinedWait(Refill(l.children[child], t), Refill(l.global, t), SiblingWait(l, child, t), n)
    ensures n <= l.global.burst ==> ComputeWait(l1, child, n, At(t)).0 == Refreshed(l, child, t)
  {
    WaitIs(l.children[child], t, n);
    WaitIs(l.global, t, n);
  }

  /** A refused acquire of an unpenalised child waits strictly, or is told "never". */
  lemma UnpenalizedWaitIsPositive(l: Limiter, child: string, n: real, t: real)
    requires ValidLimiter(l) && child in l.children && n >= 0.0
    requires !Penalized(l.children[child], t) && !Attempt(l, child, n, At(t)).1
    ensures Refused(l, child, n, t).1.Some? ==> Refused(l, child, n, t).1.value > 0.0
  {
    AttemptIff(l, child, n, t);
    SiblingWaitIs(l, child, t);
    RefusedIs(l, child, n, t);
    CombinedIsPositive(Refill(l.children[child], t), Refill(l.global, t), SiblingWait(l, child, t), n);
  }

  lemma CombinedIsPositive(c: Bucket, g: Bucket, idle: real, n: real)
    requires n > g.tokens || (n > c.tokens && idle > 0.0)
    ensures CombinedWait(c, g, idle, n).Some? ==> CombinedWait(c, g, idle, n).value > 0.0
  {
    if n > c.tokens && c.rate > 0.0 {
      DivPositive(n - c.tokens, c.rate);
    }
    if n > g.tokens && g.rate > 0.0 {
      DivPositive(n - g.tokens, g.rate);
    }
  }

  /** Only a penalised child is ever told to wait zero seconds, and exactly when its siblings are
      idle and the global bucket could serve it. */
  lemma ZeroWaitIff(l: Limiter, child: string, n: real, t: real)
    requires ValidLimiter(l) && child in l.children && n >= 0.0
    requires !Attempt(l, child, n, At(t)).1
    ensures Refused(l, child, n, t).1 == Some(0.0)
       <==> && Penalized(l.children[child], t) && n <= Refill(l.global, t).tokens
            && forall other :: other in l.names && other != child ==> Idle(l.rates[other], l.lastAttempt[other], t)
  {
    if Penalized(l.children[child], t) {
      var g := Refill(l.global, t);
      assert Attempt(l, child, n, At(t)).0 == l;
      SiblingWaitIs(l, child, t);
      RefillBounds(l.global, t);
      WaitIs(l.global, t, n);
      if n > g.tokens && g.rate > 0.0 {
        DivPositive(n - g.tokens, g.rate);
      }
    } else {
      UnpenalizedWaitIsPositive(l, child, n, t);
    }
  }

  /** A lone child with five seconds of penalty left, in front of a full global bucket: refused, and
      told to wait zero seconds. */
  lemma PenalizedWaitsZero()
    ensures var bucket := Bucket(1.0, 1.0, 1.0, 0.0, None);
            var l := Limiter(bucket, ["a"], map["a" := bucket.(penalty := Some(5.0))],
                             map["a" := 60.0], map["a" := None]);
            && ValidLimiter(l) && !Attempt(l, "a", 1.0, At(0.0)).1 && Refused(l, "a", 1.0, 0.0).1 == Some(0.0)
  {
    var bucket := Bucket(1.0, 1.0, 1.0, 0.0, None);
    var l := Limiter(bucket, ["a"], map["a" := bucket.(penalty := Some(5.0))], map["a" := 60.0], map["a" := None]);
    assert ValidLimiter(l);
    assert SiblingWait(l, "a", 0.0) == 0.0;
    ZeroWaitIff(l, "a", 1.0, 0.0);
  }

  lemma Earned(deficit: real, rate: real, elapsed: real)
    requires rate > 0.0 && elapsed >= deficit / rate
    ensures elapsed * rate >= deficit
  {
    MulMono(deficit / rate, elapsed, rate);
  }

  /** A bucket refilled at `t` holds the request once its own wait has passed, and keeps it. */
  lemma WaitReaches(b: Bucket, n: real, t: real, later: real)
    requires ValidBucket(b) && b.last == t && BucketWait(b, n).Some? && later >= t + BucketWait(b, n).value
    ensures Refill(b, later).tokens >= n
  {
    RefillBounds(b, later);
    if n > b.tokens {
      DivPositive(n - b.tokens, b.rate);
      Earned(n - b.tokens, b.rate, later - t);
    }
  }

  /** The clock had not gone backwards when `t` was read. */
  predicate Current(l: Limiter, child: string, t: real)
    requires child in l.children
  {
    l.global.last <= t && l.children[child].last <= t
  }

  /** A penalty that has passed stays passed, and refills do not touch it. */
  lemma RefreshedIs(l: Limiter, child: string, t: real)
    requires ValidLimiter(l) && child in l.children && Current(l, child, t)
    ensures var r := Refreshed(l, child, t);
            && ValidLimiter(r) && r.names == l.names && r.rates == l.rates && r.lastAttempt == l.lastAttempt
            && r.global == Refill(l.global, t) && r.children[child] == Refill(l.children[child], t)
            && r.global.last == t && r.children[child].last == t
  {
    RefillBounds(l.global, t);
    RefillBounds(l.children[child], t);
  }

  /** One computed wait is enough when it is the global bucket, or the borrowing gate, that is awaited. */
  lemma OneWait(l: Limiter, child: string, n: real, t: real, later: real)
    requires ValidLimiter(l) && child in l.children && Current(l, child, t)
    requires 0.0 <= n <= l.global.burst && l.global.rate > 0.0
    requires !Penalized(l.children[child], t) && !Attempt(l, child, n, At(t)).1
    requires Refused(l, child, n, t).1.Some? && later >= t + Refused(l, child, n, t).1.value
    ensures n <= Refill(l.children[child], t).tokens ==> Attempt(Refreshed(l, child, t), child, n, At(later)).1
    ensures !Attempt(Refreshed(l, child, t), child, n, At(later)).1
            ==> Refill(Refreshed(l, child, t).children[child], later).tokens >= n
  {
    var r := Refreshed(l, child, t);
    RefreshedIs(l, child, t);
    RefusedIs(l, child, n, t);
    UnpenalizedWaitIsPositive(l, child, n, t);
    AttemptIff(r, child, n, later);
    var c, g, idle := r.children[child], r.global, SiblingWait(l, child, t);
    RefillBounds(c, later);
    var own, whole := BucketWait(c, n), BucketWait(g, n);
    if own == Some(0.0) {
      WaitReaches(g, n, t, later);
    } else if later >= t + MaxR(idle, whole.value) {
      WaitReaches(g, n, t, later);
      IdleWaitIs(l.rates, l.lastAttempt, l.names, child, t, later);
    } else {
      WaitReaches(c, n, t, later);
    }
  }

  /** Limiter progress: if nobody else acts, a request within the global burst succeeds after at most
      two computed waits. */
  lemma TwoWaitsSuffice(l: Limiter, child: string, n: real, t: real, t1: real, t2: real)
    requires ValidLimiter(l) && child in l.children && Current(l, child, t)
    requires 0.0 <= n <= l.global.burst && l.global.rate > 0.0
    requires !Penalized(l.children[child], t) && !Attempt(l, child, n, At(t)).1
    ensures Refused(l, child, n, t).1.Some?
    ensures t1 >= t + Refused(l, child, n, t).1.value ==>
      var l1 := Refused(l, child, n, t).0;
      && ValidLimiter(l1) && child in l1.children
      && (!Attempt(l1, child, n, At(t1)).1 ==>
          && Refused(l1, child, n, t1).1.Some?
          && (t2 >= t1 + Refused(l1, child, n, t1).1.value ==>
              var l2 := Refused(l1, child, n, t1).0;
              ValidLimiter(l2) && child in l2.children && Attempt(l2, child, n, At(t2)).1))
  {
    RefusedIs(l, child, n, t);
    RefreshedIs(l, child, t);
    var l1 := Refreshed(l, child, t);
    UnpenalizedWaitIsPositive(l, child, n, t);
    if t1 >= t + Refused(l, child, n, t).1.value && !Attempt(l1, child, n, At(t1)).1 {
      OneWait(l, child, n, t, t1);
      RefusedIs(l1, child, n, t1);
      RefreshedIs(l1, child, t1);
      if t2 >= t1 + Refused(l1, child, n, t1).1.value {
        OneWait(l1, child, n, t1, t2);
      }
    }
  }
}
