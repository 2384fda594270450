/**
How many requests of a token are admitted. A request reads the clock before it takes
the lock, so requests can reach the buckets out of clock order; `skew` bounds by how
much one is behind the latest clock seen before it.
*/
module AgentRate {
  import opened AgentLimiter

  // ---------- What is said of a stretch of a run ----------

  function Max(a: real, b: real): real {
    if a >= b then a else b
  }

  /** The latest clock seen so far. */
  function Top(e: Event, top: real): real {
    if e.Request? then Max(top, e.now) else top
  }

  function TopAfter(events: seq<Event>, top: real): real
    decreases |events|
  {
    if events == [] then top else TopAfter(events[1..], Top(events[0], top))
  }

  /** No request is more than `skew` behind the latest clock seen before it; with none, they come in order. */
  ghost predicate Skewed(events: seq<Event>, top: real, skew: real)
    decreases |events|
  {
    events == [] || ((events[0].Request? ==> events[0].now >= top - skew) && Skewed(events[1..], Top(events[0], top), skew))
  }

  /** This token's requests carry these limits and have read the clock between two instants. */
  predicate Between(events: seq<Event>, token: nat, l: Limits, from: real, to: real) {
    forall e | e in events && Own(e, token) :: e.limits == l && from <= e.now <= to
  }

  /** A burst and what the rate gives between two instants. */
  function Allowance(l: Limits, from: real, to: real): real {
    l.burst as real + Rate(l) * (to - from)
  }

  /** A bucket evicted as idle would have been full whenever its token can next ask. */
  predicate RefillsWhenIdle(l: Limits, skew: real) {
    l.burst as real <= Rate(l) * (IDLE - 2.0 * skew)
  }

  // ---------- What the rate gives ----------

  /** What the rate gives in some time. */
  function Given(l: Limits, time: real): real {
    Rate(l) * time
  }

  lemma GivenAdds(l: Limits, a: real, b: real)
    ensures Given(l, a + b) == Given(l, a) + Given(l, b)
    ensures Given(l, a - b) == Given(l, a) - Given(l, b)
  {
    hide Rate;
    Distributes(Rate(l), a, b);
    Distributes(Rate(l), a - b, b);
    assert a - b + b == a;
  }

  lemma GivenGrows(l: Limits, a: real, b: real)
    requires a <= b
    ensures Given(l, a) <= Given(l, b)
  {
    hide Rate, Given;
    GivenAdds(l, b, a);
    GivenSome(l, b - a);
  }

  lemma GivenSome(l: Limits, a: real)
    requires a >= 0.0
    ensures Given(l, a) >= 0.0
  {
    hide Rate;
    RatePositive(l);
    Product(Rate(l), a);
  }

  lemma AllowanceAt(l: Limits, from: real, now: real, to: real)
    requires from <= now <= to
    ensures l.burst as real - Given(l, now) + Given(l, to) <= Allowance(l, from, to)
    ensures 1.0 <= l.burst as real <= Allowance(l, from, to)
  {
    hide Rate;
    GivenAdds(l, to, from);
    GivenGrows(l, from, now);
    GivenGrows(l, from, to);
    assert Allowance(l, from, to) == l.burst as real + Given(l, to - from);
  }

  // ---------- The line of a bucket ----------

  /** The tokens of a bucket less what the rate gave up to its last instant: no order of clocks raises it. */
  function Line(b: Bucket, l: Limits): real {
    b.tokens - Given(l, b.last)
  }

  lemma RefillKeepsLine(b: Bucket, l: Limits, now: real)
    ensures Refilled(b, l, now) == Min(l.burst as real, Line(b, l) + Given(l, now))
  {
    hide Rate;
    GivenAdds(l, now, b.last);
    assert (now - b.last) * Rate(l) == Given(l, now - b.last);
  }

  function Spent(t: Table, e: Event, token: nat): real {
    if Admits(t, e, token) then 1.0 else 0.0
  }

  /** A token's own request takes an admission off the line, whatever the clock says. */
  lemma OwnRequest(t: Table, e: Event, token: nat)
    requires Own(e, token)
    ensures var after, l, spent := Next(t, e), e.limits, Spent(t, e, token);
            && (token in t ==> token in after)
            && (token in after ==>
                  && after[token].last == e.now
                  && after[token].tokens ==
                     Min(l.burst as real, if token in t then Line(t[token], l) + Given(l, e.now) else l.burst as real) - spent)
            && (Admits(t, e, token) ==> token in after && after[token].tokens >= 0.0)
  {
    hide Rate, RetryAfter, Given, Line;
    if token in t {
      RefillKeepsLine(t[token], e.limits, e.now);
    } else {
      JustRefilled(Bucket(e.limits.burst as real, e.now, {}, 0), e.limits, e.now);
      EvictedFrom(t, e.now, token);
    }
  }

  /** Any other event leaves the bucket's line alone or evicts it as idle. */
  lemma OtherEvent(t: Table, e: Event, token: nat)
    requires !Own(e, token)
    ensures var after := Next(t, e);
            && !Admits(t, e, token)
            && (token in after ==> token in t && after[token].tokens == t[token].tokens && after[token].last == t[token].last)
            && (token in t && token !in after ==> e.Request? && e.now - t[token].last > IDLE)
  {
    hide Rate, RetryAfter, Refilled;
    if e.Request? {
      OthersLeaveAlone(t, e.token, e.limits, e.now, e.funded, token);
    }
  }

  lemma NotAdmitted(t: Table, e: Event, token: nat)
    requires Own(e, token) ==> token !in Next(t, e)
    ensures !Admits(t, e, token)
  {
    hide Rate, RetryAfter, Refilled, Evicted;
  }

  // ---------- While the bucket is not evicted ----------

  /** No step of the run evicts this token's bucket. */
  ghost predicate NeverEvicted(t: Table, events: seq<Event>, token: nat)
    decreases |events|
  {
    events == [] || ((token in t ==> token in Next(t, events[0])) && NeverEvicted(Next(t, events[0]), events[1..], token))
  }

  lemma {:induction false} LineBounds(t: Table, events: seq<Event>, token: nat, l: Limits, from: real, to: real)
    requires token in t && NeverEvicted(t, events, token) && Between(events, token, l, from, to)
    ensures var n := Admissions(t, events, token);
            n == 0 || n as real <= Line(t[token], l) + Given(l, to)
    decreases |events|
  {
    hide Rate, Next, Admit, Admits, Given;
    if events != [] {
      var e := events[0];
      assert e in events;
      LineBounds(Next(t, e), events[1..], token, l, from, to);
      if Own(e, token) {
        OwnRequest(t, e, token);
        GivenGrows(l, e.now, to);
      } else {
        OtherEvent(t, e, token);
      }
    }
  }

  /** From the first request that finds or makes the bucket on. */
  lemma FromFirst(t: Table, events: seq<Event>, token: nat, l: Limits, from: real, to: real)
    requires events != [] && Own(events[0], token) && token in Next(t, events[0])
    requires NeverEvicted(t, events, token) && Between(events, token, l, from, to)
    ensures Admissions(t, events, token) as real <= Allowance(l, from, to)
  {
    hide Rate, Next, Admit, Admits, Given, Allowance;
    var e := events[0];
    assert e in events;
    OwnRequest(t, e, token);
    LineBounds(Next(t, e), events[1..], token, l, from, to);
    AllowanceAt(l, from, e.now, to);
  }

  /**
  In any stretch of a run in which its bucket is not evicted, whatever the order of
  the clocks its requests read, a token is admitted at most its burst plus what its
  rate gives between the first and the last of them.
  */
  lemma {:induction false} BoundedInAnyOrder(t: Table, events: seq<Event>, token: nat, l: Limits, from: real, to: real)
    requires from <= to && NeverEvicted(t, events, token) && Between(events, token, l, from, to)
    ensures Admissions(t, events, token) as real <= Allowance(l, from, to)
    decreases |events|
  {
    hide Rate, Next, Admits, Allowance;
    if events == [] {
      AllowanceAt(l, from, from, to);
    } else if Own(events[0], token) && token in Next(t, events[0]) {
      FromFirst(t, events, token, l, from, to);
    } else {
      NotAdmitted(t, events[0], token);
      BoundedInAnyOrder(Next(t, events[0]), events[1..], token, l, from, to);
    }
  }

  // ---------- Across evictions ----------

  /** A bucket is in debt by no more than what the clocks that reached it were out of order. */
  predicate Sound(b: Bucket, l: Limits, skew: real, top: real) {
    b.tokens + Given(l, skew) >= 0.0 && Line(b, l) + Given(l, top) >= 0.0
  }

  predicate SoundFor(t: Table, token: nat, l: Limits, skew: real, top: real) {
    token in t ==> Sound(t[token], l, skew, top)
  }

  /** The line of the bucket, or the highest one a new bucket can have. */
  function Reserve(t: Table, token: nat, l: Limits, skew: real, top: real): real {
    if token in t then Line(t[token], l) else l.burst as real - Given(l, top - skew)
  }

  lemma OwnKeepsSound(t: Table, e: Event, token: nat, l: Limits, skew: real, top: real)
    requires Own(e, token) && e.limits == l && skew >= 0.0 && e.now >= top - skew && SoundFor(t, token, l, skew, top)
    ensures SoundFor(Next(t, e), token, l, skew, Top(e, top))
    ensures Reserve(Next(t, e), token, l, skew, Top(e, top)) <= Reserve(t, token, l, skew, top) - Spent(t, e, token)
    ensures Admits(t, e, token) ==> Reserve(Next(t, e), token, l, skew, Top(e, top)) + Given(l, e.now) >= 0.0
  {
    hide Rate, Next, Admit, Admits, Given;
    OwnRequest(t, e, token);
    NotAdmittedUnless(t, e, token);
    GivenGrows(l, top, Top(e, top));
    GivenGrows(l, e.now, Top(e, top));
    GivenGrows(l, top - skew, e.now);
    GivenGrows(l, top - skew, Top(e, top) - skew);
    GivenAdds(l, top, skew);
    GivenSome(l, skew);
  }

  lemma NotAdmittedUnless(t: Table, e: Event, token: nat)
    requires Own(e, token)
    ensures token !in Next(t, e) ==> !Admits(t, e, token)
  {
    if token !in Next(t, e) {
      NotAdmitted(t, e, token);
    }
  }

  lemma OtherKeepsSound(t: Table, e: Event, token: nat, l: Limits, skew: real, top: real)
    requires !Own(e, token) && skew >= 0.0 && RefillsWhenIdle(l, skew) && SoundFor(t, token, l, skew, top)
    ensures SoundFor(Next(t, e), token, l, skew, Top(e, top))
    ensures Reserve(Next(t, e), token, l, skew, Top(e, top)) <= Reserve(t, token, l, skew, top)
  {
    hide Rate, Next, Admit, Admits, Given;
    OtherEvent(t, e, token);
    GivenGrows(l, top, Top(e, top));
    GivenGrows(l, top - skew, Top(e, top) - skew);
    if token in t && token !in Next(t, e) {
      EvictionGainsNothing(t[token], l, skew, Top(e, top));
    }
  }

  /** What a new bucket can hold after an idle one was evicted, the old one would have held. */
  lemma EvictionGainsNothing(b: Bucket, l: Limits, skew: real, top: real)
    requires RefillsWhenIdle(l, skew) && top - b.last > IDLE && b.tokens + Given(l, skew) >= 0.0
    ensures l.burst as real - Given(l, top - skew) <= Line(b, l)
  {
    assert l.burst as real <= Given(l, IDLE - 2.0 * skew);
    hide Rate, Given;
    GivenGrows(l, b.last + IDLE - skew, top - skew);
    GivenAdds(l, b.last, IDLE - skew);
    GivenAdds(l, IDLE - skew, skew);
    assert b.last + IDLE - skew == b.last + (IDLE - skew) && IDLE - skew - skew == IDLE - 2.0 * skew;
  }

  lemma {:induction false} ReserveBounds(t: Table, events: seq<Event>, token: nat, l: Limits, skew: real, top: real, from: real, to: real)
    requires skew >= 0.0 && RefillsWhenIdle(l, skew) && SoundFor(t, token, l, skew, top)
    requires Skewed(events, top, skew) && Between(events, token, l, from, to)
    ensures var n := Admissions(t, events, token);
            n == 0 || n as real <= Reserve(t, token, l, skew, top) + Given(l, to)
    decreases |events|
  {
    hide Rate, Next, Admit, Admits, Given, RefillsWhenIdle, SoundFor, Reserve;
    if events != [] {
      var e := events[0];
      assert e in events;
      if Own(e, token) {
        OwnKeepsSound(t, e, token, l, skew, top);
        GivenGrows(l, e.now, to);
      } else {
        OtherKeepsSound(t, e, token, l, skew, top);
        OtherEvent(t, e, token);
      }
      ReserveBounds(Next(t, e), events[1..], token, l, skew, Top(e, top), from, to);
    }
  }

  /**
  In any stretch of a run whose requests are at most `skew` out of order, whatever
  other tokens do and however often buckets are evicted, a token whose limits stay the
  same is admitted at most its burst plus what its rate gives.
  */
  lemma {:induction false} AdmissionsBounded(t: Table, events: seq<Event>, token: nat, l: Limits, skew: real, top: real,
                                             from: real, to: real)
    requires skew >= 0.0 && RefillsWhenIdle(l, skew) && SoundFor(t, token, l, skew, top)
    requires from <= to && Skewed(events, top, skew) && Between(events, token, l, from, to)
    ensures Admissions(t, events, token) as real <= Allowance(l, from, to)
    decreases |events|
  {
    hide Rate, Next, Admit, Admits, Given, RefillsWhenIdle, SoundFor, Allowance;
    if events == [] {
      AllowanceAt(l, from, from, to);
    } else {
      var e := events[0];
      assert e in events;
      if Own(e, token) {
        OwnKeepsSound(t, e, token, l, skew, top);
      } else {
        OtherKeepsSound(t, e, token, l, skew, top);
      }
      if Own(e, token) && token in Next(t, e) {
        OwnRequest(t, e, token);
        ReserveBounds(Next(t, e), events[1..], token, l, skew, Top(e, top), from, to);
        AllowanceAt(l, from, e.now, to);
      } else {
        NotAdmitted(t, e, token);
        AdmissionsBounded(Next(t, e), events[1..], token, l, skew, Top(e, top), from, to);
      }
    }
  }

  /** Every run keeps a token's bucket sound while its limits stay the same, so each stretch of it starts so. */
  lemma {:induction false} RunKeepsSound(t: Table, events: seq<Event>, token: nat, l: Limits, skew: real, top: real, from: real, to: real)
    requires skew >= 0.0 && RefillsWhenIdle(l, skew) && SoundFor(t, token, l, skew, top)
    requires Skewed(events, top, skew) && Between(events, token, l, from, to)
    ensures SoundFor(Run(t, events), token, l, skew, TopAfter(events, top))
    decreases |events|
  {
    hide Rate, Next, Admit, Admits, Given, RefillsWhenIdle, SoundFor, Reserve;
    if events != [] {
      var e := events[0];
      assert e in events;
      if Own(e, token) {
        OwnKeepsSound(t, e, token, l, skew, top);
      } else {
        OtherKeepsSound(t, e, token, l, skew, top);
      }
      RunKeepsSound(Next(t, e), events[1..], token, l, skew, Top(e, top), from, to);
    }
  }
}
