/**
The bound on admissions needs an idle bucket to refill before it is evicted and its
token asks again: for every other pair of limits and skew some run exceeds it.
*/
module AgentBurst {
  import opened AgentLimiter
  import opened AgentRate

  // ---------- Putting runs together ----------

  predicate Fits(events: seq<Event>, l: Limits, from: real, to: real) {
    forall e | e in events :: e.token == 0 && (e.Request? ==> e.limits == l && from <= e.now <= to)
  }

  lemma {:induction false} Joined(t: Table, a: seq<Event>, b: seq<Event>, skew: real, top: real)
    requires Skewed(a, top, skew) && Skewed(b, TopAfter(a, top), skew)
    ensures Skewed(a + b, top, skew) && TopAfter(a + b, top) == TopAfter(b, TopAfter(a, top))
    ensures Run(t, a + b) == Run(Run(t, a), b)
    ensures Admissions(t, a + b, 0) == Admissions(t, a, 0) + Admissions(Run(t, a), b, 0)
    decreases |a|
  {
    hide Next, Admits;
    if a == [] {
      assert a + b == b;
    } else {
      assert (a + b)[0] == a[0] && (a + b)[1..] == a[1..] + b;
      Joined(Next(t, a[0]), a[1..], b, skew, Top(a[0], top));
    }
  }

  lemma Single(t: Table, e: Event, skew: real, top: real)
    requires e.Request? ==> e.now >= top - skew
    ensures Skewed([e], top, skew) && TopAfter([e], top) == Top(e, top) && Run(t, [e]) == Next(t, e)
    ensures Admissions(t, [e], 0) == if Admits(t, e, 0) then 1 else 0
  {
    hide Next, Admits;
    assert [e][1..] == [];
    assert Run(Next(t, e), []) == Next(t, e) && Admissions(Next(t, e), [], 0) == 0;
  }

  // ---------- Spending ----------

  /** What a request of this token would find. */
  function Level(t: Table, l: Limits, now: real): real {
    if 0 in t then Refilled(t[0], l, now) else l.burst as real
  }

  function Pair(l: Limits, now: real, id: nat): seq<Event> {
    [Request(0, l, now, true)] + [Ended(0, id)]
  }

  function NextId(t: Table): nat {
    if 0 in t then t[0].next + 1 else 1
  }

  /** One request that is admitted and ends at once. */
  lemma One(t: Table, l: Limits, now: real, skew: real, top: real)
    requires if 0 in t then t[0].active == {} else |Evicted(t, now)| < MAX_BUCKETS
    requires 1.0 <= Level(t, l, now) && top - skew <= now && skew >= 0.0
    ensures var events := Pair(l, now, NextId(t));
            && Skewed(events, top, skew) && TopAfter(events, top) == Max(top, now) && Admissions(t, events, 0) == 1
            && 0 in Run(t, events) && Run(t, events)[0] == Bucket(Level(t, l, now) - 1.0, now, {}, NextId(t))
  {
    hide Evicted, RetryAfter, Rate, Skewed, TopAfter, Run, Admissions;
    var ask, end := Request(0, l, now, true), Ended(0, NextId(t));
    if 0 !in t {
      EvictedFrom(t, now, 0);
      JustRefilled(Bucket(l.burst as real, now, {}, 0), l, now);
    }
    var first := Next(t, ask);
    assert Admits(t, ask, 0) && first[0] == Bucket(Level(t, l, now) - 1.0, now, {NextId(t)}, NextId(t));
    assert {NextId(t)} - {NextId(t)} == {};
    Single(t, ask, skew, top);
    Single(first, end, skew, Max(top, now));
    Joined(t, [ask], [end], skew, top);
  }

  /** A bucket that holds n tokens is spent to nothing at one instant. */
  lemma {:induction false} Spend(t: Table, l: Limits, now: real, skew: real, top: real, n: nat) returns (events: seq<Event>)
    requires 0 in t && t[0] == Bucket(n as real, now, {}, t[0].next) && n <= l.burst && skew >= 0.0 && top - skew <= now <= top
    ensures Skewed(events, top, skew) && TopAfter(events, top) == top && Admissions(t, events, 0) == n && Fits(events, l, now, now)
    ensures 0 in Run(t, events) && Run(t, events)[0] == Bucket(0.0, now, {}, Run(t, events)[0].next)
    decreases n
  {
    if n == 0 {
      events := [];
    } else {
      var pair := Pair(l, now, NextId(t));
      JustRefilled(t[0], l, now);
      One(t, l, now, skew, top);
      var after := Run(t, pair);
      assert after[0].tokens == (n - 1) as real;
      var rest := Spend(after, l, now, skew, top, n - 1);
      Joined(t, pair, rest, skew, top);
      events := pair + rest;
    }
  }

  /** A token without a bucket spends a whole burst at one instant. */
  lemma SpendBurst(t: Table, l: Limits, now: real, skew: real, top: real) returns (events: seq<Event>)
    requires 0 !in t && |Evicted(t, now)| < MAX_BUCKETS && top - skew <= now && skew >= 0.0
    ensures Skewed(events, top, skew) && TopAfter(events, top) == Max(top, now) && Admissions(t, events, 0) == l.burst
    ensures Fits(events, l, now, now)
    ensures 0 in Run(t, events) && Run(t, events)[0] == Bucket(0.0, now, {}, Run(t, events)[0].next)
  {
    var pair := Pair(l, now, NextId(t));
    One(t, l, now, skew, top);
    var after := Run(t, pair);
    assert after[0].tokens == (l.burst - 1) as real;
    var rest := Spend(after, l, now, skew, Max(top, now), l.burst - 1);
    Joined(t, pair, rest, skew, top);
    events := pair + rest;
  }

  /** The instant by which the rate has given n tokens. */
  function Instant(l: Limits, n: nat): real {
    n as real * 60.0 / l.perMinute as real
  }

  lemma Instants(l: Limits, n: nat)
    ensures Rate(l) * Instant(l, n) == n as real && Instant(l, n) >= 0.0
    ensures (Instant(l, n + 1) - Instant(l, n)) * Rate(l) == 1.0 && Instant(l, n) < Instant(l, n + 1)
  {
    var p := l.perMinute as real;
    Cancels(n as real, p);
    Cancels((n + 1) as real, p);
    assert (n + 1) as real == n as real + 1.0;
    Distributes(Rate(l), Instant(l, n + 1) - Instant(l, n), Instant(l, n));
    Positive(n as real * 60.0, p);
    Less(n as real * 60.0, (n + 1) as real * 60.0, p);
  }

  lemma Positive(x: real, p: real)
    requires x >= 0.0 && p > 0.0
    ensures x / p >= 0.0
  {
  }

  lemma Less(x: real, y: real, p: real)
    requires x < y && p > 0.0
    ensures x / p < y / p
  {
  }

  /** An empty bucket holds one token when the rate has given one. */
  lemma OneMore(b: Bucket, l: Limits, n: nat)
    requires b.tokens == 0.0 && b.last == Instant(l, n)
    ensures Refilled(b, l, Instant(l, n + 1)) == 1.0
  {
    Instants(l, n);
    hide Rate, Instant;
    var gain := (Instant(l, n + 1) - b.last) * Rate(l);
    assert gain == 1.0 && l.burst as real >= 1.0;
    assert Refilled(b, l, Instant(l, n + 1)) == Min(l.burst as real, b.tokens + gain);
  }

  /** An empty bucket admits one request each time the rate has given a token. */
  lemma {:induction false} Drip(t: Table, l: Limits, skew: real, n: nat, more: nat) returns (events: seq<Event>)
    requires 0 in t && t[0] == Bucket(0.0, Instant(l, n), {}, t[0].next) && skew >= 0.0
    ensures Skewed(events, Instant(l, n), skew) && TopAfter(events, Instant(l, n)) == Instant(l, n + more)
    ensures Admissions(t, events, 0) == more
    ensures Instant(l, n) <= Instant(l, n + more) && Fits(events, l, Instant(l, n), Instant(l, n + more))
    ensures 0 in Run(t, events) && Run(t, events)[0] == Bucket(0.0, Instant(l, n + more), {}, Run(t, events)[0].next)
    decreases more
  {
    if more == 0 {
      events := [];
    } else {
      hide Rate, Instant;
      Instants(l, n);
      var now := Instant(l, n + 1);
      var pair := Pair(l, now, NextId(t));
      OneMore(t[0], l, n);
      One(t, l, now, skew, Instant(l, n));
      var after := Run(t, pair);
      var rest := Drip(after, l, skew, n + 1, more - 1);
      Joined(t, pair, rest, skew, Instant(l, n));
      events := pair + rest;
    }
  }

  // ---------- A bucket evicted too soon ----------

  /** An empty bucket refuses a request that read the clock earlier, and goes back with it. */
  lemma LateRequest(t: Table, l: Limits, at: real, skew: real)
    requires 0 in t && t[0].tokens == 0.0 && t[0].last == at && t[0].active == {} && skew >= 0.0
    ensures var e := Request(0, l, at - skew, true);
            && !Admits(t, e, 0) && 0 in Next(t, e) && Next(t, e)[0].last == at - skew && Next(t, e)[0].active == {}
  {
    NothingGained(t[0], l, at, skew);
    hide Rate, RetryAfter, Refilled;
  }

  lemma NothingGained(b: Bucket, l: Limits, at: real, skew: real)
    requires b.tokens == 0.0 && b.last == at && skew >= 0.0
    ensures Refilled(b, l, at - skew) < 1.0
  {
    hide Rate;
    RatePositive(l);
    Product(skew, Rate(l));
    Distributes(Rate(l), at - skew - b.last, skew);
    Nothing(at - skew - b.last + skew, Rate(l));
    var gain := (at - skew - b.last) * Rate(l);
    assert gain + skew * Rate(l) == 0.0;
    assert Refilled(b, l, at - skew) <= b.tokens + gain;
  }

  /** Another token's request evicts the idle bucket. */
  lemma OtherEvicts(t: Table, l: Limits, now: real)
    requires t.Keys == {0} && t[0].active == {} && now - t[0].last > IDLE
    ensures var e := Request(1, l, now, true);
            !Admits(t, e, 0) && Next(t, e).Keys <= {1}
  {
    hide Rate, RetryAfter, Refilled;
    assert Evicted(t, now) == map[];
  }

  lemma FewKeys(t: Table, now: real)
    requires t.Keys <= {1}
    ensures |Evicted(t, now)| < MAX_BUCKETS
  {
    var keys := Evicted(t, now).Keys;
    assert keys <= {1};
    assert keys == {} || keys == {1};
    assert |Evicted(t, now)| == |keys|;
  }

  lemma {:induction false} KeysStay(t: Table, events: seq<Event>, l: Limits, from: real, to: real)
    requires t.Keys <= {0} && Fits(events, l, from, to)
    ensures Run(t, events).Keys <= {0}
    decreases |events|
  {
    if events != [] {
      assert events[0] in events;
      assert Next(t, events[0]).Keys <= {0};
      KeysStay(Next(t, events[0]), events[1..], l, from, to);
    }
  }

  /** A burst at once, and then one request each time the rate gives a token, until the skew has passed. */
  lemma SpendAlong(l: Limits, skew: real, n: nat) returns (events: seq<Event>)
    requires skew >= 0.0
    ensures Skewed(events, 0.0, skew) && TopAfter(events, 0.0) == Instant(l, n) && Admissions(map[], events, 0) == l.burst + n
    ensures Fits(events, l, 0.0, Instant(l, n))
    ensures var end := Run(map[], events);
            end.Keys == {0} && end[0] == Bucket(0.0, Instant(l, n), {}, end[0].next)
  {
    assert Evicted(map[], 0.0) == map[];
    var first := SpendBurst(map[], l, 0.0, skew, 0.0);
    assert Instant(l, 0) == 0.0;
    hide Instant;
    var rest := Drip(Run(map[], first), l, skew, 0, n);
    Joined(map[], first, rest, skew, 0.0);
    events := first + rest;
    KeysStay(map[], events, l, 0.0, Instant(l, n));
  }

  /**
  When the other token asks. Half of what the bucket lacks after five idle minutes is
  left to spare.
  */
  function Spare(l: Limits, skew: real): real {
    (l.burst as real - Rate(l) * (IDLE - 2.0 * skew)) / (2.0 * Rate(l))
  }

  lemma SpareSplits(l: Limits, skew: real)
    requires !RefillsWhenIdle(l, skew)
    ensures Spare(l, skew) > 0.0 && Rate(l) * (IDLE - 2.0 * skew + Spare(l, skew)) < l.burst as real
  {
    hide Rate;
    RatePositive(l);
    var lacks := l.burst as real - Rate(l) * (IDLE - 2.0 * skew);
    Halves(lacks, Rate(l));
    Distributes(Rate(l), IDLE - 2.0 * skew, Spare(l, skew));
  }

  lemma Halves(x: real, r: real)
    requires x > 0.0 && r > 0.0
    ensures x / (2.0 * r) > 0.0 && r * (x / (2.0 * r)) == x / 2.0
  {
    var q := x / (2.0 * r);
    assert q * (2.0 * r) == x;
    assert q * (2.0 * r) == 2.0 * (r * q);
    if q <= 0.0 {
      Product(-q, 2.0 * r);
    }
  }

  /** The rate has given this many tokens by the time the skew has passed. */
  lemma Enough(l: Limits, skew: real) returns (n: nat)
    requires skew >= 0.0
    ensures skew <= Instant(l, n)
  {
    RatePositive(l);
    Product(Rate(l), skew);
    n := (Rate(l) * skew).Floor + 1;
    Instants(l, n);
    hide Rate, Instant;
    var late := Instant(l, n) - skew;
    if late < 0.0 {
      Product(Rate(l), -late);
      Distributes(Rate(l), skew, late);
    }
  }

  /**
  If an idle bucket is evicted before it would be full whenever its token can next
  ask, some run exceeds the bound: a burst and a steady trickle; a refused request
  that read the clock long before and takes the bucket's time back; another token's
  request, which evicts it; and a second burst by requests that read the clock before
  that one.
  */
  lemma BoundExceeded(l: Limits, skew: real) returns (events: seq<Event>, to: real)
    requires skew >= 0.0 && !RefillsWhenIdle(l, skew)
    ensures Skewed(events, 0.0, skew) && 0.0 <= to && Between(events, 0, l, 0.0, to)
    ensures Admissions(map[], events, 0) as real > Allowance(l, 0.0, to)
  {
    hide Rate, Run, Admissions, Skewed, TopAfter, Evicted, Instant, Next, Admits, RefillsWhenIdle, Allowance, Spare;
    SpareSplits(l, skew);
    var n := Enough(l, skew);
    var at := Instant(l, n);
    var asks := Max(at, at - skew + IDLE + Spare(l, skew));
    var again := asks - skew;
    to := Max(at, again);
    var along := SpendAlong(l, skew, n);
    var t := Run(map[], along);
    var late := Request(0, l, at - skew, true);
    LateRequest(t, l, at, skew);
    Single(t, late, skew, at);
    Joined(map[], along, [late], skew, 0.0);
    var back := Next(t, late);
    StillOne(t, late);
    var other := Request(1, l, asks, true);
    OtherEvicts(back, l, asks);
    Single(back, other, skew, at);
    Joined(map[], along + [late], [other], skew, 0.0);
    var gone := Next(back, other);
    FewKeys(gone, again);
    var second := SpendBurst(gone, l, again, skew, asks);
    Joined(map[], along + [late] + [other], second, skew, 0.0);
    events := along + [late] + [other] + second;
    assert Admissions(map[], events, 0) == l.burst + n + l.burst;
    Exceeds(l, skew, n, at, again, to);
  }

  lemma StillOne(t: Table, e: Event)
    requires t.Keys == {0} && e.token == 0 && 0 in Next(t, e)
    ensures Next(t, e).Keys == {0}
  {
    hide Rate, RetryAfter, Refilled;
  }

  lemma Exceeds(l: Limits, skew: real, n: nat, at: real, again: real, to: real)
    requires skew >= 0.0 && at == Instant(l, n) && to == Max(at, again)
    requires again == Max(at, at - skew + IDLE + Spare(l, skew)) - skew
    requires Rate(l) * (IDLE - 2.0 * skew + Spare(l, skew)) < l.burst as real
    ensures (l.burst + n + l.burst) as real > Allowance(l, 0.0, to)
  {
    Instants(l, n);
    hide Rate, Instant, Spare;
    var gained := IDLE - 2.0 * skew + Spare(l, skew);
    if to != at {
      assert to == at + gained;
      Distributes(Rate(l), at, gained);
    }
    assert to - 0.0 == to;
  }
}
