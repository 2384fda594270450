/**
Admission of agent requests: one bucket per token, refilled with time, made on
demand and evicted when idle. Times are seconds. The float arithmetic is taken
over the reals.
*/
module AgentLimiter {
  const IDLE := 300.0
  const MAX_BUCKETS := 10000

  datatype Settings = Settings(perMinute: nat, burst: nat, concurrent: nat)

  /** Limits are checked when they are set. */
  type Limits = l: Settings | 1 <= l.perMinute <= 60000 && 1 <= l.burst <= 10000 && 1 <= l.concurrent <= 32
    witness Settings(1, 1, 1)

  datatype Bucket = Bucket(tokens: real, last: real, active: set<nat>, next: nat)

  type Table = map<nat, Bucket>

  function Rate(l: Limits): real {
    l.perMinute as real / 60.0
  }

  function Min(a: real, b: real): real {
    if a <= b then a else b
  }

  function Refilled(b: Bucket, l: Limits, now: real): real {
    Min(l.burst as real, b.tokens + (now - b.last) * Rate(l))
  }

  function Ceil(x: real): int {
    -((-x).Floor)
  }

  /** Whole seconds until the bucket holds a token again, at least one. */
  function RetryAfter(tokens: real, l: Limits): int {
    var wait := Ceil((1.0 - tokens) * 60.0 / l.perMinute as real);
    if wait < 1 then 1 else wait
  }

  predicate Evictable(b: Bucket, now: real) {
    b.active == {} && now - b.last > IDLE
  }

  function Evicted(t: Table, now: real): Table {
    map k | k in t && !Evictable(t[k], now) :: t[k]
  }

  lemma EvictedFrom(t: Table, now: real, token: nat)
    ensures token in Evicted(t, now) ==> token in t
  {
  }

  datatype Verdict = Admitted(id: nat) | Limited(retry: int) | NoQuota | NoCapacity

  /** `funded` says the daily quota has room. */
  function Admit(t: Table, token: nat, l: Limits, now: real, funded: bool): (Table, Verdict) {
    var kept := if token in t then t else Evicted(t, now);
    if token !in t && |kept| >= MAX_BUCKETS then (kept, NoCapacity)
    else
      var b := if token in t then t[token] else Bucket(l.burst as real, now, {}, 0);
      var tokens := Refilled(b, l, now);
      var refilled := b.(tokens := tokens, last := now);
      if tokens < 1.0 || |b.active| >= l.concurrent then (kept[token := refilled], Limited(RetryAfter(tokens, l)))
      else if !funded then (kept[token := refilled], NoQuota)
      else
        (kept[token := refilled.(tokens := tokens - 1.0, next := b.next + 1, active := b.active + {b.next + 1})], Admitted(b.next + 1))
  }

  function Done(t: Table, token: nat, id: nat): Table {
    if token in t then t[token := t[token].(active := t[token].active - {id})] else t
  }

  class Agents {
    var table: Table

    constructor ()
      ensures table == map[]
    {
      table := map[];
    }

    method EvictIdle(now: real)
      modifies this
      ensures table == Evicted(old(table), now)
    {
      var keys := table.Keys;
      ghost var done: set<nat> := {};
      while keys != {}
        invariant keys !! done && keys + done == old(table).Keys
        invariant forall k :: k in table <==> k in old(table) && (k in keys || !Evictable(old(table)[k], now))
        invariant forall k :: k in table ==> table[k] == old(table)[k]
        decreases |keys|
      {
        var key :| key in keys;
        if key in table && table[key].active == {} && now - table[key].last > IDLE {
          table := table - {key};
        }
        keys, done := keys - {key}, done + {key};
      }
    }

    method Serve(token: nat, l: Limits, now: real, funded: bool) returns (verdict: Verdict)
      modifies this
      ensures (table, verdict) == Admit(old(table), token, l, now, funded)
    {
      hide Rate, Evicted, Ceil;
      if token !in table {
        EvictIdle(now);
        if |table| >= MAX_BUCKETS {
          return NoCapacity;
        }
      }
      ghost var kept := table;
      var b := if token in table then table[token] else Bucket(l.burst as real, now, {}, 0);
      assert token in table ==> token in old(table) by {
        EvictedFrom(old(table), now, token);
      }
      b := b.(tokens := Refilled(b, l, now), last := now);
      table := table[token := b];
      if b.tokens < 1.0 || |b.active| >= l.concurrent {
        return Limited(RetryAfter(b.tokens, l));
      }
      if !funded {
        return NoQuota;
      }
      var id := b.next + 1;
      b := b.(tokens := b.tokens - 1.0, next := id, active := b.active + {id});
      table := table[token := b];
      assert table == kept[token := b];
      return Admitted(id);
    }

    method Finish(token: nat, id: nat)
      modifies this
      ensures table == Done(old(table), token, id)
    {
      if token in table {
        table := table[token := table[token].(active := table[token].active - {id})];
      }
    }
  }

  // ---------- Runs ----------

  /** A request carries the limits its token has at that moment. */
  datatype Event = Request(token: nat, limits: Limits, now: real, funded: bool) | Ended(token: nat, id: nat)

  function Next(t: Table, e: Event): Table {
    match e
    case Request(token, limits, now, funded) => Admit(t, token, limits, now, funded).0
    case Ended(token, id) => Done(t, token, id)
  }

  predicate Own(e: Event, token: nat) {
    e.Request? && e.token == token
  }

  predicate Admits(t: Table, e: Event, token: nat) {
    Own(e, token) && Admit(t, token, e.limits, e.now, e.funded).1.Admitted?
  }

  ghost function Run(t: Table, events: seq<Event>): Table
    decreases |events|
  {
    if events == [] then t else Run(Next(t, events[0]), events[1..])
  }

  ghost function Admissions(t: Table, events: seq<Event>, token: nat): nat
    decreases |events|
  {
    if events == [] then 0
    else (if Admits(t, events[0], token) then 1 else 0) + Admissions(Next(t, events[0]), events[1..], token)
  }

  lemma OthersLeaveAlone(t: Table, other: nat, l: Limits, now: real, funded: bool, token: nat)
    requires other != token
    ensures var after := Admit(t, other, l, now, funded).0;
            var kept := if other in t then t else Evicted(t, now);
            (token in after <==> token in kept) && (token in kept ==> after[token] == kept[token])
  {
    hide Rate, Refilled, Evicted, RetryAfter;
  }

  // ---------- The verdict ----------

  /** A bucket stays unless it has been idle for more than five minutes with nothing under way. */
  lemma EvictedExactly(t: Table, now: real, token: nat)
    ensures token in Evicted(t, now) <==> token in t && (t[token].active != {} || now - t[token].last <= 300.0)
    ensures token in Evicted(t, now) ==> Evicted(t, now)[token] == t[token]
  {
  }

  /** What the token's request finds: what was left and what the rate gave since, at most a burst. */
  function Found(t: Table, token: nat, l: Limits, now: real): real {
    var burst := l.burst as real;
    if token !in t then burst
    else
      var filled := t[token].tokens + (now - t[token].last) * (l.perMinute as real / 60.0);
      if filled > burst then burst else filled
  }

  lemma FoundIsRefilled(t: Table, token: nat, l: Limits, now: real)
    ensures Found(t, token, l, now) == Refilled(if token in t then t[token] else Bucket(l.burst as real, now, {}, 0), l, now)
  {
    if token !in t {
      JustRefilled(Bucket(l.burst as real, now, {}, 0), l, now);
    } else {
      assert Rate(l) == l.perMinute as real / 60.0;
      var gain := (now - t[token].last) * Rate(l);
      assert gain == (now - t[token].last) * (l.perMinute as real / 60.0);
    }
  }

  /** Each verdict is given exactly when its reason holds and none before it does. */
  lemma VerdictExactly(t: Table, token: nat, l: Limits, now: real, funded: bool)
    ensures var verdict := Admit(t, token, l, now, funded).1;
            var room := token in t || |Evicted(t, now)| < 10000;
            var able := Found(t, token, l, now) >= 1.0 && (token in t ==> |t[token].active| < l.concurrent);
            && (verdict == NoCapacity <==> !room)
            && (verdict.Limited? <==> room && !able)
            && (verdict == NoQuota <==> room && able && !funded)
            && (verdict.Admitted? <==> room && able && funded)
            && (verdict.Admitted? ==> verdict.id == if token in t then t[token].next + 1 else 1)
  {
    FoundIsRefilled(t, token, l, now);
    hide RetryAfter, Evicted, Rate, Refilled, Found;
    if token !in t {
      EvictedFrom(t, now, token);
    }
  }

  /** What it leaves of the bucket: one token less if admitted, with one more under way, and the time it was seen. */
  lemma BucketAfter(t: Table, token: nat, l: Limits, now: real, funded: bool)
    ensures var (after, verdict) := Admit(t, token, l, now, funded);
            var before := if token in t then t[token] else Bucket(0.0, now, {}, 0);
            var found := Found(t, token, l, now);
            && (verdict == NoCapacity ==> after == Evicted(t, now))
            && (verdict != NoCapacity ==> token in after)
            && (verdict.Admitted? ==>
                  after[token] == Bucket(found - 1.0, now, before.active + {verdict.id}, verdict.id))
            && (verdict.Limited? || verdict == NoQuota ==> after[token] == Bucket(found, now, before.active, before.next))
  {
    FoundIsRefilled(t, token, l, now);
    hide RetryAfter, Evicted, Rate, Refilled, Found;
    if token !in t {
      EvictedFrom(t, now, token);
    }
  }

  /** A request that ends leaves its own bucket, with everything else as it was. */
  lemma EndedExactly(t: Table, token: nat, id: nat, other: nat, n: nat)
    ensures var after := Done(t, token, id);
            && (other in after <==> other in t)
            && (other in t ==>
                  && after[other] == t[other].(active := after[other].active)
                  && (n in after[other].active <==> n in t[other].active && !(other == token && n == id)))
  {
  }

  // ---------- Requests under way ----------

  /** Only an admission adds to what is under way, and never beyond the cap it was made with. */
  lemma UnderWay(t: Table, e: Event, token: nat)
    ensures var after := Next(t, e);
            token in after ==>
              if Admits(t, e, token) then |after[token].active| <= e.limits.concurrent
              else after[token].active == {} || (token in t && |after[token].active| <= |t[token].active|)
  {
    hide Rate, Refilled, RetryAfter;
    match e
    case Request(other, l, now, funded) =>
      if other != token {
        OthersLeaveAlone(t, other, l, now, funded, token);
      }
    case Ended(other, id) =>
      if token in t {
        SubsetSize(t[token].active - {id}, t[token].active);
      }
  }

  lemma SubsetSize(a: set<nat>, b: set<nat>)
    requires a <= b
    ensures |a| <= |b|
  {
    assert b == a + (b - a);
  }

  /**
  However its limits are changed meanwhile, a token never has more requests under way
  than the largest cap it was admitted with.
  */
  lemma {:induction false} ActiveBounded(t: Table, events: seq<Event>, token: nat, cap: nat)
    requires token in t ==> |t[token].active| <= cap
    requires forall e | e in events && Own(e, token) :: e.limits.concurrent <= cap
    ensures var end := Run(t, events);
            token in end ==> |end[token].active| <= cap
    decreases |events|
  {
    hide Next, Admits;
    if events != [] {
      assert events[0] in events;
      UnderWay(t, events[0], token);
      OwnIfAdmits(t, events[0], token);
      ActiveBounded(Next(t, events[0]), events[1..], token, cap);
    }
  }

  lemma OwnIfAdmits(t: Table, e: Event, token: nat)
    ensures Admits(t, e, token) ==> Own(e, token)
  {
  }

  // ---------- Arithmetic of refills ----------

  lemma Product(a: real, b: real)
    requires a >= 0.0 && b >= 0.0
    ensures a * b >= 0.0
  {
  }

  lemma RatePositive(l: Limits)
    ensures Rate(l) > 0.0
  {
  }

  lemma Distributes(r: real, x: real, y: real)
    ensures (x + y) * r == x * r + y * r
    ensures r * (x + y) == r * x + r * y
  {
  }

  /** A bucket seen at this instant gains nothing more. */
  lemma JustRefilled(b: Bucket, l: Limits, now: real)
    requires b.last == now && b.tokens <= l.burst as real
    ensures Refilled(b, l, now) == b.tokens
  {
    var gain := (now - b.last) * Rate(l);
    Nothing(now - b.last, Rate(l));
    assert gain == 0.0;
    assert Refilled(b, l, now) == Min(l.burst as real, b.tokens + gain);
  }

  lemma Nothing(x: real, r: real)
    requires x == 0.0
    ensures x * r == 0.0
  {
  }

  /** After a refusal for rate, waiting as told finds a token. */
  lemma RetrySuffices(t: Table, token: nat, l: Limits, now: real, funded: bool)
    requires Admit(t, token, l, now, funded).1.Limited?
    requires Admit(t, token, l, now, funded).0[token].tokens < 1.0
    ensures var (after, verdict) := Admit(t, token, l, now, funded);
            Refilled(after[token], l, now + verdict.retry as real) >= 1.0
  {
    hide Rate, Refilled, RetryAfter, Evicted;
    var (after, verdict) := Admit(t, token, l, now, funded);
    WaitRefills(after[token], l, now, verdict.retry);
  }

  /** The seconds told are enough for the part of a token that is missing. */
  lemma WaitRefills(b: Bucket, l: Limits, now: real, retry: int)
    requires b.last == now && b.tokens < 1.0 && retry == RetryAfter(b.tokens, l)
    ensures Refilled(b, l, now + retry as real) >= 1.0
  {
    var missing := (1.0 - b.tokens) * 60.0 / l.perMinute as real;
    CeilReaches(missing);
    assert retry as real >= missing;
    Cancels(1.0 - b.tokens, l.perMinute as real);
    assert missing * Rate(l) == 1.0 - b.tokens;
    hide Rate;
    RatePositive(l);
    Product(retry as real - missing, Rate(l));
    Distributes(Rate(l), missing, retry as real - missing);
    var gain := (now + retry as real - b.last) * Rate(l);
    assert now + retry as real - b.last == retry as real;
    assert gain == retry as real * Rate(l) >= 1.0 - b.tokens;
  }

  lemma CeilReaches(x: real)
    ensures Ceil(x) as real >= x
  {
    assert (-x).Floor as real <= -x;
  }

  lemma Cancels(x: real, p: real)
    requires p > 0.0
    ensures x * 60.0 / p * (p / 60.0) == x
  {
  }

  /** The seconds told are the fewest whole ones that suffice, and never none. */
  lemma RetryIsLeast(b: Bucket, l: Limits, now: real)
    requires b.last == now && b.tokens < 1.0
    ensures RetryAfter(b.tokens, l) >= 1
    ensures RetryAfter(b.tokens, l) > 1 ==> Refilled(b, l, now + (RetryAfter(b.tokens, l) - 1) as real) < 1.0
  {
    var retry := RetryAfter(b.tokens, l);
    if retry > 1 {
      var missing := (1.0 - b.tokens) * 60.0 / l.perMinute as real;
      CeilIsLeast(missing);
      Cancels(1.0 - b.tokens, l.perMinute as real);
      assert missing * Rate(l) == 1.0 - b.tokens;
      var waited := (retry - 1) as real;
      RatePositive(l);
      TooShort(b, l, now, waited, missing);
    }
  }

  lemma TooShort(b: Bucket, l: Limits, now: real, waited: real, missing: real)
    requires b.last == now && waited < missing && missing * Rate(l) == 1.0 - b.tokens
    ensures Refilled(b, l, now + waited) < 1.0
  {
    hide Rate;
    RatePositive(l);
    Positive(missing - waited, Rate(l));
    Distributes(Rate(l), waited, missing - waited);
    var given, rest := waited * Rate(l), (missing - waited) * Rate(l);
    assert waited + (missing - waited) == missing;
    assert given + rest == 1.0 - b.tokens && rest > 0.0;
    assert now + waited - b.last == waited;
    assert Refilled(b, l, now + waited) <= b.tokens + given;
  }

  lemma CeilIsLeast(x: real)
    ensures (Ceil(x) - 1) as real < x
  {
    assert ((-x).Floor + 1) as real > -x;
  }

  lemma Positive(a: real, b: real)
    requires a > 0.0 && b > 0.0
    ensures a * b > 0.0
  {
  }
}
