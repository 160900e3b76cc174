/** `api/rate_limit.py`: the token bucket. Time is a real number handed in by the caller; each call
    of `WaitOnce` is one turn of the loop in `wait`, between two sleeps. */
module RateLimit {
  import opened Common

  datatype Bucket = Bucket(capacity: real, rate: real, tokens: real, last: real)

  const TINY := 0.000000001

  predicate Disabled(b: Bucket) {
    b.rate <= 0.0 || b.capacity <= 0.0
  }

  function Refilled(b: Bucket, now: real): Bucket {
    var dt := now - b.last;
    if dt <= 0.0 then b else b.(tokens := MinReal(b.capacity, b.tokens + dt * b.rate), last := now)
  }

  class TokenBucket {
    const capacity: real
    const refillPerSec: real
    var tokens: real
    var lastRefill: real

    constructor (capacity: real, refillPerSec: real, now: real)
      ensures View() == Bucket(capacity, refillPerSec, 0.0, now)
    {
      this.capacity, this.refillPerSec := capacity, refillPerSec;
      tokens, lastRefill := 0.0, now;
    }

    function View(): Bucket
      reads this
    {
      Bucket(capacity, refillPerSec, tokens, lastRefill)
    }

    method Refill(now: real)
      modifies this
      ensures View() == Refilled(old(View()), now)
      ensures now <= old(lastRefill) ==> View() == old(View())
      ensures Healthy(old(View())) && old(lastRefill) < now ==>
                lastRefill == now && Stock(old(View()), now, tokens)
    {
      if Healthy(View()) && lastRefill < now { RefillIsExact(View(), now); }
      var dt := now - lastRefill;
      if dt <= 0.0 {
        return;
      }
      tokens := MinReal(capacity, tokens + dt * refillPerSec);
      lastRefill := now;
    }

    method TryConsume(now: real, cost: real) returns (ok: bool)
      modifies this
      ensures ok <==> Disabled(old(View())) || Refilled(old(View()), now).tokens >= cost
      ensures View() == After(old(View()), Try(now, cost))
      ensures refillPerSec <= 0.0 || capacity <= 0.0 ==> ok && View() == old(View())
      ensures Healthy(old(View())) && old(lastRefill) <= now ==>
                (ok <==> Suffices(old(View()), now, cost)) &&
                Stock(old(View()), now, if ok then tokens + cost else tokens)
    {
      if Healthy(View()) && lastRefill <= now { AttemptIsExact(View(), now, cost); }
      if refillPerSec <= 0.0 || capacity <= 0.0 {
        return true;
      }
      Refill(now);
      if tokens >= cost {
        tokens := tokens - cost;
        return true;
      }
      return false;
    }

    /** One turn of `wait`: the cost is taken, or the partial tokens are thrown away and a sleep is due. */
    method WaitOnce(now: real, cost: real) returns (granted: bool, sleep: real)
      modifies this
      ensures granted <==> Disabled(old(View())) || Refilled(old(View()), now).tokens >= cost
      ensures View() == After(old(View()), Wait(now, cost))
      ensures !granted ==> sleep == Sleep(Refilled(old(View()), now), cost) && sleep > 0.0
      ensures Healthy(old(View())) && old(lastRefill) <= now ==>
                (granted <==> Suffices(old(View()), now, cost))
      ensures refillPerSec <= 0.0 || capacity <= 0.0 ==> granted && View() == old(View())
      ensures !granted ==> tokens == 0.0
    {
      if Healthy(View()) && lastRefill <= now { AttemptIsExact(View(), now, cost); }
      sleep := 0.0;
      if refillPerSec <= 0.0 || capacity <= 0.0 {
        return true, sleep;
      }
      Refill(now);
      if tokens >= cost {
        tokens := tokens - cost;
        return true, sleep;
      }
      var missing := cost - tokens;
      sleep := missing / MaxReal(refillPerSec, TINY);
      tokens := 0.0;
      SleepIsPositive(missing, refillPerSec);
      return false, sleep;
    }
  }

  /** What a bucket can gain between two moments. */
  function Inflow(rate: real, start: real, end: real): real {
    rate * (end - start)
  }

  /** `x` is the lesser of the capacity and of the tokens at hand with what time has brought. */
  ghost predicate Stock(b: Bucket, now: real, x: real) {
    var due := b.tokens + Inflow(b.rate, b.last, now);
    (x == due && due <= b.capacity) || (x == b.capacity && b.capacity <= due)
  }

  /** Neither the capacity nor the tokens at hand with what time has brought fall short of the cost. */
  ghost predicate Suffices(b: Bucket, now: real, cost: real) {
    cost <= b.capacity && cost <= b.tokens + Inflow(b.rate, b.last, now)
  }

  /** What an attempt does, in numbers. */
  lemma {:induction false} AttemptIsExact(b: Bucket, now: real, cost: real)
    requires Healthy(b) && b.last <= now
    ensures Grant(b, Try(now, cost)) == if Suffices(b, now, cost) then cost else 0.0
    ensures Stock(b, now, After(b, Try(now, cost)).tokens + Grant(b, Try(now, cost)))
    ensures After(b, Try(now, cost)).last == now
    ensures Refilled(b, now).tokens >= cost <==> Suffices(b, now, cost)
  {
    RefillIsExact(b, now);
    StockSuffices(b, now, cost, Refilled(b, now).tokens);
  }

  lemma {:induction false} StockSuffices(b: Bucket, now: real, cost: real, x: real)
    requires Stock(b, now, x)
    ensures x >= cost <==> Suffices(b, now, cost)
  {
  }

  /** A turn of `wait` is granted on the same terms; otherwise the tokens it finds are lost, and what they fall
      short of the cost is what the sleep makes up at the rate it is computed with. */
  lemma {:induction false} WaitIsExact(b: Bucket, now: real, cost: real)
    requires Healthy(b) && b.last <= now
    ensures Grant(b, Wait(now, cost)) == Grant(b, Try(now, cost))
    ensures var r := Refilled(b, now);
            if r.tokens >= cost then After(b, Wait(now, cost)) == After(b, Try(now, cost))
            else After(b, Wait(now, cost)).tokens == 0.0 && After(b, Wait(now, cost)).last == now &&
                 Stock(b, now, cost - Sleep(r, cost) * (if b.rate < 0.000000001 then 0.000000001 else b.rate))
  {
    RefillIsExact(b, now);
    var r := Refilled(b, now);
    MakesUp(cost - r.tokens, MaxReal(r.rate, TINY));
  }

  lemma {:induction false} MakesUp(missing: real, rate: real)
    requires rate > 0.0
    ensures missing / rate * rate == missing
  {
  }

  function Taken(b: Bucket, cost: real): Bucket {
    b.(tokens := b.tokens - cost)
  }

  function Sleep(b: Bucket, cost: real): real {
    (cost - b.tokens) / MaxReal(b.rate, TINY)
  }

  lemma {:induction false} SleepIsPositive(missing: real, rate: real)
    requires missing > 0.0
    ensures missing / MaxReal(rate, TINY) > 0.0
  {
  }

  // ---------- Any interleaving of waits and attempts ----------

  datatype Op = Wait(now: real, cost: real) | Try(now: real, cost: real)

  function After(b: Bucket, op: Op): Bucket {
    if Disabled(b) then b
    else
      var r := Refilled(b, op.now);
      if r.tokens >= op.cost then Taken(r, op.cost)
      else if op.Wait? then r.(tokens := 0.0)
      else r
  }

  /** What one operation is granted. */
  function Grant(b: Bucket, op: Op): real {
    if Disabled(b) || Refilled(b, op.now).tokens >= op.cost then op.cost else 0.0
  }

  function AfterAll(b: Bucket, ops: seq<Op>): Bucket
    decreases |ops|
  {
    if ops == [] then b else AfterAll(After(b, ops[0]), ops[1..])
  }

  function Granted(b: Bucket, ops: seq<Op>): real
    decreases |ops|
  {
    if ops == [] then 0.0 else Grant(b, ops[0]) + Granted(After(b, ops[0]), ops[1..])
  }

  ghost predicate Healthy(b: Bucket) {
    b.rate > 0.0 && b.capacity > 0.0 && 0.0 <= b.tokens <= b.capacity
  }

  /** Costs are not negative and the clock never goes back, starting at the bucket's last refill. */
  ghost predicate Timely(b: Bucket, ops: seq<Op>) {
    (forall i | 0 <= i < |ops| :: ops[i].cost >= 0.0 && b.last <= ops[i].now) &&
    forall i, j | 0 <= i < j < |ops| :: ops[i].now <= ops[j].now
  }

  lemma {:induction false} InflowFacts(rate: real, a: real, b: real, c: real)
    requires rate > 0.0 && a <= b
    ensures Inflow(rate, a, b) >= 0.0 && Inflow(rate, a, b) == (b - a) * rate
    ensures Inflow(rate, a, b) + Inflow(rate, b, c) == Inflow(rate, a, c)
  {
  }

  lemma {:induction false} RefillGain(b: Bucket, now: real)
    requires Healthy(b) && b.last <= now
    ensures Healthy(Refilled(b, now)) && Refilled(b, now).last == now
    ensures Refilled(b, now).tokens <= b.tokens + Inflow(b.rate, b.last, now)
  {
    InflowFacts(b.rate, b.last, now, now);
    assert Refilled(b, now).tokens == MinReal(b.capacity, b.tokens + Inflow(b.rate, b.last, now));
  }

  lemma {:induction false} RefillIsExact(b: Bucket, now: real)
    requires Healthy(b) && b.last <= now
    ensures Refilled(b, now).last == now && Stock(b, now, Refilled(b, now).tokens)
  {
    InflowFacts(b.rate, b.last, now, now);
    assert Refilled(b, now).tokens == MinReal(b.capacity, b.tokens + Inflow(b.rate, b.last, now));
  }

  /** One operation keeps the tokens in range and pays for what it grants. */
  lemma {:induction false} OpPays(b: Bucket, op: Op)
    requires Healthy(b) && op.cost >= 0.0 && b.last <= op.now
    ensures Healthy(After(b, op)) && After(b, op).last == op.now
    ensures After(b, op).capacity == b.capacity && After(b, op).rate == b.rate
    ensures Grant(b, op) + After(b, op).tokens <= Refilled(b, op.now).tokens <= b.capacity
    ensures Refilled(b, op.now).tokens <= b.tokens + Inflow(b.rate, b.last, op.now)
  {
    RefillGain(b, op.now);
  }

  lemma {:induction false} TimelyRest(b: Bucket, ops: seq<Op>)
    requires Healthy(b) && Timely(b, ops) && ops != []
    ensures Healthy(After(b, ops[0])) && Timely(After(b, ops[0]), ops[1..])
  {
    OpPays(b, ops[0]);
  }

  /** Tokens stay between zero and the capacity. */
  lemma {:induction false} TokensStayInRange(b: Bucket, ops: seq<Op>)
    requires Healthy(b) && Timely(b, ops)
    decreases |ops|
    ensures Healthy(AfterAll(b, ops))
    ensures AfterAll(b, ops).capacity == b.capacity && AfterAll(b, ops).rate == b.rate
    ensures ops != [] ==> AfterAll(b, ops).last == ops[|ops| - 1].now
    ensures ops == [] ==> AfterAll(b, ops) == b
  {
    if ops != [] {
      OpPays(b, ops[0]);
      TimelyRest(b, ops);
      TokensStayInRange(After(b, ops[0]), ops[1..]);
    }
  }

  /** What is granted comes out of the tokens at hand and what time has brought. */
  lemma {:induction false} GrantedIsPaid(b: Bucket, ops: seq<Op>)
    requires Healthy(b) && Timely(b, ops) && ops != []
    ensures Granted(b, ops) <= b.tokens + Inflow(b.rate, b.last, ops[|ops| - 1].now)
    decreases |ops|
  {
    OpPays(b, ops[0]);
    if |ops| == 1 {
      assert Granted(b, ops) == Grant(b, ops[0]) + Granted(After(b, ops[0]), []);
    } else {
      TimelyRest(b, ops);
      GrantedIsPaid(After(b, ops[0]), ops[1..]);
      InflowFacts(b.rate, b.last, ops[0].now, ops[|ops| - 1].now);
    }
  }

  /** Operations that start on a bucket are granted at most its capacity and what comes in meanwhile. */
  lemma {:induction false} FreshWindow(b: Bucket, ops: seq<Op>)
    requires Healthy(b) && Timely(b, ops) && ops != []
    ensures Granted(b, ops) <= b.capacity + Inflow(b.rate, ops[0].now, ops[|ops| - 1].now)
  {
    OpPays(b, ops[0]);
    if |ops| == 1 {
      assert Granted(b, ops) == Grant(b, ops[0]) + Granted(After(b, ops[0]), []);
      InflowFacts(b.rate, ops[0].now, ops[0].now, ops[0].now);
    } else {
      TimelyRest(b, ops);
      GrantedIsPaid(After(b, ops[0]), ops[1..]);
    }
  }

  /** What an operation loses for good: the inflow the capacity has no room for, and the tokens that a wait in
      vain throws away. */
  function Lost(b: Bucket, op: Op): real {
    var have := b.tokens + Inflow(b.rate, b.last, op.now);
    if have > b.capacity then (have - b.capacity) + (if op.Wait? && b.capacity < op.cost then b.capacity else 0.0)
    else if op.Wait? && have < op.cost then have
    else 0.0
  }

  function LostInAll(b: Bucket, ops: seq<Op>): real
    decreases |ops|
  {
    if ops == [] then 0.0 else Lost(b, ops[0]) + LostInAll(After(b, ops[0]), ops[1..])
  }

  lemma {:induction false} OpConserves(b: Bucket, op: Op)
    requires Healthy(b) && op.cost >= 0.0 && b.last <= op.now
    ensures After(b, op).tokens + Grant(b, op) + Lost(b, op) == b.tokens + Inflow(b.rate, b.last, op.now)
  {
    RefillIsExact(b, op.now);
  }

  /** Conservation: over any sequence of operations, what is left, granted and lost is what was there and what
      time has brought. */
  lemma {:induction false} TokensAreConserved(b: Bucket, ops: seq<Op>)
    requires Healthy(b) && Timely(b, ops)
    ensures AfterAll(b, ops).tokens + Granted(b, ops) + LostInAll(b, ops) ==
            b.tokens + Inflow(b.rate, b.last, AfterAll(b, ops).last)
    decreases |ops|
  {
    if ops != [] {
      OpPays(b, ops[0]);
      OpConserves(b, ops[0]);
      TimelyRest(b, ops);
      TokensAreConserved(After(b, ops[0]), ops[1..]);
      InflowFacts(b.rate, b.last, ops[0].now, AfterAll(b, ops).last);
    } else {
      InflowFacts(b.rate, b.last, b.last, b.last);
    }
  }

  /** In the window from operation `i` to operation `j`, at most the capacity plus the rate times the
      elapsed time is granted, whatever happened before. */
  lemma {:induction false} WindowBound(b: Bucket, ops: seq<Op>, i: nat, j: nat)
    requires Healthy(b) && Timely(b, ops) && i < j <= |ops|
    ensures Granted(AfterAll(b, ops[..i]), ops[i..j]) <= b.capacity + Inflow(b.rate, ops[i].now, ops[j - 1].now)
  {
    TimelyWindow(b, ops, i, j);
    var window := ops[i..j];
    assert window[0] == ops[i] && window[|window| - 1] == ops[j - 1];
    FreshWindow(AfterAll(b, ops[..i]), window);
  }

  lemma {:induction false} TimelyWindow(b: Bucket, ops: seq<Op>, i: nat, j: nat)
    requires Healthy(b) && Timely(b, ops) && i < j <= |ops|
    ensures var s := AfterAll(b, ops[..i]);
            Healthy(s) && Timely(s, ops[i..j]) && s.capacity == b.capacity && s.rate == b.rate
  {
    assert Timely(b, ops[..i]);
    TokensStayInRange(b, ops[..i]);
    var s, window := AfterAll(b, ops[..i]), ops[i..j];
    forall k | 0 <= k < |window| ensures window[k].cost >= 0.0 && s.last <= window[k].now {
      assert window[k] == ops[i + k];
      if i > 0 { assert ops[..i][i - 1] == ops[i - 1]; }
    }
  }

  // ---------- Does a lone wait return? ----------

  /** `wait` returns within `n` turns when every sleep lasts exactly as long as asked. */
  predicate Returns(b: Bucket, now: real, cost: real, n: nat)
    decreases n
  {
    n > 0 && (Refilled(b, now).tokens >= cost ||
              Returns(After(b, Wait(now, cost)), now + Sleep(Refilled(b, now), cost), cost, n - 1))
  }

  lemma {:induction false} Brings(missing: real, rate: real)
    requires missing > 0.0 && rate > 0.0
    ensures 0.0 < missing / MaxReal(rate, TINY) * rate <= missing
    ensures rate >= TINY ==> missing / MaxReal(rate, TINY) * rate == missing
    ensures rate < TINY ==> missing / MaxReal(rate, TINY) * rate < missing
  {
    var r := MaxReal(rate, TINY);
    var q := missing / r;
    assert q * r == missing && q > 0.0;
    if rate < TINY { assert q * (r - rate) > 0.0; }
  }

  lemma {:induction false} AfterSleep(b: Bucket, sleep: real)
    requires b.tokens == 0.0 && sleep > 0.0
    ensures Refilled(b, b.last + sleep).tokens == MinReal(b.capacity, sleep * b.rate)
  {
  }

  /** What a wait in vain leaves. */
  lemma {:induction false} WaitedInVain(b: Bucket, now: real, cost: real)
    requires Healthy(b) && b.last <= now && Refilled(b, now).tokens < cost
    ensures After(b, Wait(now, cost)) == Bucket(b.capacity, b.rate, 0.0, now)
    ensures Sleep(Refilled(b, now), cost) == (cost - Refilled(b, now).tokens) / MaxReal(b.rate, TINY)
  {
    RefillGain(b, now);
  }

  /** The tokens found on waking are what the sleep brought: the partial tokens are gone. */
  lemma {:induction false} NextTurn(b: Bucket, now: real, cost: real) returns (brought: real)
    requires Healthy(b) && b.last <= now && Refilled(b, now).tokens < cost
    ensures var p := Refilled(b, now).tokens;
            var b' := After(b, Wait(now, cost));
            var now' := now + Sleep(Refilled(b, now), cost);
            Healthy(b') && b'.last <= now' && Refilled(b', now').tokens == MinReal(b.capacity, brought) &&
            0.0 < brought <= cost - p &&
            (b.rate >= TINY ==> brought == cost - p) && (b.rate < TINY ==> brought < cost - p)
  {
    WaitedInVain(b, now, cost);
    brought := Slept(Bucket(b.capacity, b.rate, 0.0, now), cost - Refilled(b, now).tokens);
  }

  /** An empty bucket holds after a sleep what the sleep has brought, up to the capacity. */
  lemma {:induction false} Slept(b: Bucket, missing: real) returns (brought: real)
    requires b.tokens == 0.0 && b.rate > 0.0 && missing > 0.0
    ensures b.last <= b.last + missing / MaxReal(b.rate, TINY)
    ensures Refilled(b, b.last + missing / MaxReal(b.rate, TINY)).tokens == MinReal(b.capacity, brought)
    ensures 0.0 < brought <= missing
    ensures (b.rate >= TINY ==> brought == missing) && (b.rate < TINY ==> brought < missing)
  {
    SleepIsPositive(missing, b.rate);
    Brings(missing, b.rate);
    brought := missing / MaxReal(b.rate, TINY) * b.rate;
    AfterSleep(b, missing / MaxReal(b.rate, TINY));
  }

  /** From a partly filled bucket, or an empty one too small or too slow, the next turn finds a partly filled one. */
  lemma {:induction false} StaysPartlyFilled(b: Bucket, now: real, cost: real)
    requires Healthy(b) && b.last <= now && 0.0 <= Refilled(b, now).tokens < cost
    requires Refilled(b, now).tokens == 0.0 ==> b.capacity < cost || b.rate < TINY
    ensures var b' := After(b, Wait(now, cost));
            var now' := now + Sleep(Refilled(b, now), cost);
            Healthy(b') && b'.last <= now' && 0.0 < Refilled(b', now').tokens < cost
  {
    var brought := NextTurn(b, now, cost);
  }

  /** From a partly filled bucket the loop goes on for ever. */
  lemma {:induction false} PartlyFilledNeverReturns(b: Bucket, now: real, cost: real, n: nat)
    requires Healthy(b) && b.last <= now && 0.0 < Refilled(b, now).tokens < cost
    ensures !Returns(b, now, cost, n)
    decreases n
  {
    if n > 0 {
      StaysPartlyFilled(b, now, cost);
      PartlyFilledNeverReturns(After(b, Wait(now, cost)), now + Sleep(Refilled(b, now), cost), cost, n - 1);
    }
  }

  /** From an empty bucket that is large and fast enough, the second turn takes the cost. */
  lemma {:induction false} OneSleepSuffices(b: Bucket, now: real, cost: real)
    requires Healthy(b) && b.last <= now && Refilled(b, now).tokens == 0.0 < cost <= b.capacity && b.rate >= TINY
    ensures Returns(b, now, cost, 2)
  {
    var brought := NextTurn(b, now, cost);
    assert Returns(After(b, Wait(now, cost)), now + Sleep(Refilled(b, now), cost), cost, 1);
  }

  lemma {:induction false} ReturnsWithin(b: Bucket, now: real, cost: real, n: nat)
    requires Returns(b, now, cost, n)
    ensures exists m: nat :: Returns(b, now, cost, m)
  {
  }

  /** With exact sleeps and no competitor, `wait` returns iff the tokens suffice at once, or the bucket
      is empty, large enough, and not slower than the rate the sleep is computed with. */
  lemma {:induction false} WaitReturnsIff(b: Bucket, now: real, cost: real)
    requires Healthy(b) && b.last <= now
    ensures (exists n: nat :: Returns(b, now, cost, n)) <==>
            var p := Refilled(b, now).tokens;
            p >= cost || (p == 0.0 && cost <= b.capacity && b.rate >= TINY)
  {
    var p := Refilled(b, now).tokens;
    RefillGain(b, now);
    if p >= cost {
      ReturnsWithin(b, now, cost, 1);
    } else if p == 0.0 && cost <= b.capacity && b.rate >= TINY {
      OneSleepSuffices(b, now, cost);
      ReturnsWithin(b, now, cost, 2);
    } else {
      StaysPartlyFilled(b, now, cost);
      forall n: nat ensures !Returns(b, now, cost, n) {
        if n > 0 {
          PartlyFilledNeverReturns(After(b, Wait(now, cost)), now + Sleep(Refilled(b, now), cost), cost, n - 1);
        }
      }
    }
  }
}
