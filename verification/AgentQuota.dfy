/**
The daily bytes of one agent token: charged before a response starts, given back
when it ends, and counted as the response is written.
*/
module AgentQuota {
  import opened Wrappers

  const MIN_BUDGET := 1024

  /** A response that was cut off by a crash, or whose refund failed, stays charged in full. */
  datatype Phase = Open | Refunded

  datatype Response = Response(budget: nat, written: nat, phase: Phase)

  function Held(r: Response): nat {
    if r.phase.Refunded? then r.written else r.budget
  }

  function TotalHeld(rs: seq<Response>): nat {
    if rs == [] then 0 else TotalHeld(rs[..|rs| - 1]) + Held(rs[|rs| - 1])
  }

  function TotalWritten(rs: seq<Response>): nat {
    if rs == [] then 0 else TotalWritten(rs[..|rs| - 1]) + rs[|rs| - 1].written
  }

  predicate Bounded(rs: seq<Response>) {
    forall i | 0 <= i < |rs| :: rs[i].written <= rs[i].budget
  }

  lemma {:induction false} HeldAfter(rs: seq<Response>, at: nat, r: Response)
    requires at < |rs|
    ensures TotalHeld(rs[at := r]) == TotalHeld(rs) - Held(rs[at]) + Held(r)
    ensures TotalHeld(rs) >= Held(rs[at])
    decreases |rs|
  {
    var last := |rs| - 1;
    if at < last {
      HeldAfter(rs[..last], at, r);
      assert rs[at := r][..last] == rs[..last][at := r];
    } else {
      assert rs[at := r][..last] == rs[..last];
    }
  }

  lemma {:induction false} WrittenWithinHeld(rs: seq<Response>)
    requires Bounded(rs)
    ensures TotalWritten(rs) <= TotalHeld(rs)
    ensures (forall i | 0 <= i < |rs| :: rs[i].phase.Refunded?) ==> TotalWritten(rs) == TotalHeld(rs)
    decreases |rs|
  {
    if rs != [] {
      WrittenWithinHeld(rs[..|rs| - 1]);
    }
  }

  /** One token's usage on one day. */
  class Usage {
    const daily: nat
    var charged: int
    var responses: seq<Response>

    ghost predicate Valid()
      reads this
    {
      charged == TotalHeld(responses) && charged <= daily && Bounded(responses)
    }

    constructor (daily: nat)
      ensures Valid() && this.daily == daily && responses == []
    {
      this.daily, charged, responses := daily, 0, [];
    }

    method Reserve(requested: nat) returns (budget: Option<nat>)
      requires Valid()
      modifies this
      ensures Valid()
      ensures budget.None? <==> daily - old(charged) < MIN_BUDGET
      ensures budget.None? ==> charged == old(charged) && responses == old(responses)
      ensures budget.Some? ==>
                && budget.value <= requested && (budget.value == requested || charged == daily)
                && charged == old(charged) + budget.value
                && responses == old(responses) + [Response(budget.value, 0, Open)]
    {
      var remaining := daily - charged;
      if remaining < MIN_BUDGET {
        return None;
      }
      var amount := requested;
      if amount > remaining {
        amount := remaining;
      }
      charged := charged + amount;
      responses := responses + [Response(amount, 0, Open)];
      assert responses[..|responses| - 1] == old(responses);
      return Some(amount);
    }

    method Count(at: nat, bytes: nat)
      requires Valid() && at < |responses| && responses[at].phase.Open? && responses[at].written + bytes <= responses[at].budget
      modifies `responses
      ensures Valid() && responses == old(responses)[at := old(responses)[at].(written := old(responses)[at].written + bytes)]
    {
      HeldAfter(responses, at, responses[at].(written := responses[at].written + bytes));
      responses := responses[at := responses[at].(written := responses[at].written + bytes)];
    }

    /** The refund is what the response did not use, never more than was charged. */
    method Refund(at: nat)
      requires Valid() && at < |responses| && responses[at].phase.Open?
      modifies this
      ensures Valid()
      ensures responses == old(responses)[at := old(responses)[at].(phase := Refunded)]
      ensures charged == old(charged) - (responses[at].budget - responses[at].written)
    {
      HeldAfter(responses, at, responses[at].(phase := Refunded));
      var amount := responses[at].budget - responses[at].written;
      if amount > 0 {
        charged := if charged - amount < 0 then 0 else charged - amount;
      }
      responses := responses[at := responses[at].(phase := Refunded)];
    }
  }

  /**
  At any time what was written is at most what is charged, and that at most the
  daily bytes; once every response is refunded the charge is what was written.
  */
  lemma ChargeCoversWriting(rs: seq<Response>, charged: int, daily: nat)
    requires Bounded(rs) && charged == TotalHeld(rs) && charged <= daily
    ensures TotalWritten(rs) <= charged <= daily
    ensures (forall i | 0 <= i < |rs| :: rs[i].phase.Refunded?) ==> charged == TotalWritten(rs)
  {
    WrittenWithinHeld(rs);
  }

  datatype Reason = NoReason | Cancelled | Quota | Transport

  /** What goes out of one response. */
  class Writer {
    const limit: nat
    var written: nat
    var aborted: bool
    var reason: Reason

    constructor (limit: nat)
      ensures this.limit == limit && written == 0 && !aborted && reason == NoReason
    {
      this.limit, written, aborted, reason := limit, 0, false, NoReason;
    }

    /** `taken` is what the connection accepts if it fails; one that does not fail accepts all it is given. */
    method Write(length: nat, cancelled: bool, fails: bool, taken: nat) returns (n: nat, error: bool)
      requires written <= limit
      modifies this
      ensures written == old(written) + n && written <= limit
      ensures var offered := if length <= limit - old(written) then length else limit - old(written);
              n == if cancelled then 0 else if fails && taken < offered then taken else offered
      ensures error <==> cancelled || length > limit - old(written) || fails || old(aborted)
      ensures aborted <==> error
      ensures if cancelled then reason == Cancelled
              else if length > limit - old(written) then reason == Quota
              else if fails && old(!aborted) then reason == Transport
              else reason == old(reason)
    {
      if cancelled {
        aborted, reason := true, Cancelled;
        return 0, true;
      }
      var remaining := limit - written;
      var offered := length;
      if offered > remaining {
        aborted, reason := true, Quota;
        if remaining <= 0 {
          return 0, true;
        }
        offered := remaining;
      }
      n := if !fails then offered else if taken < offered then taken else offered;
      written := written + n;
      error := fails;
      if error && !aborted {
        aborted, reason := true, Transport;
      }
      if aborted && !error {
        error := true;
      }
    }
  }

  /** One write: how long it is and how the connection takes it. */
  datatype Chunk = Chunk(length: nat, cancelled: bool, fails: bool, taken: nat)

  /** Writes until one fails; each byte the writer counts is counted in the usage. */
  method WriteAll(usage: Usage, at: nat, writer: Writer, chunks: seq<Chunk>)
    requires usage.Valid() && at < |usage.responses| && writer.written <= writer.limit
    requires usage.responses[at] == Response(writer.limit, writer.written, Open)
    modifies usage, writer
    ensures usage.Valid() && usage.charged == old(usage.charged) && old(writer.written) <= writer.written <= writer.limit
    ensures usage.responses == old(usage.responses)[at := Response(writer.limit, writer.written, Open)]
  {
    hide TotalHeld, Bounded;
    var i, broken := 0, false;
    while i < |chunks| && !broken
      invariant usage.Valid() && usage.charged == old(usage.charged) && old(writer.written) <= writer.written <= writer.limit
      invariant usage.responses == old(usage.responses)[at := Response(writer.limit, writer.written, Open)]
      decreases |chunks| - i
    {
      var n, error := writer.Write(chunks[i].length, chunks[i].cancelled, chunks[i].fails, chunks[i].taken);
      usage.Count(at, n);
      i, broken := i + 1, error;
    }
  }

  /** A whole response: reserved, written, and refunded unless that is lost. */
  method Respond(usage: Usage, requested: nat, chunks: seq<Chunk>, refunded: bool) returns (served: bool, writer: Writer)
    requires usage.Valid()
    modifies usage
    ensures usage.Valid() && fresh(writer) && writer.written <= writer.limit
    ensures served <==> usage.daily - old(usage.charged) >= MIN_BUDGET
    ensures !served ==> writer.written == 0 && usage.responses == old(usage.responses) && usage.charged == old(usage.charged)
    ensures served ==>
              usage.responses == old(usage.responses) + [Response(writer.limit, writer.written, if refunded then Refunded else Open)]
    ensures served ==> usage.charged == old(usage.charged) + if refunded then writer.written else writer.limit
  {
    hide TotalHeld, Bounded;
    var budget := usage.Reserve(requested);
    served := budget.Some?;
    writer := new Writer(if served then budget.value else 0);
    if served {
      var at := |usage.responses| - 1;
      WriteAll(usage, at, writer, chunks);
      if refunded {
        usage.Refund(at);
      }
    }
  }
}
