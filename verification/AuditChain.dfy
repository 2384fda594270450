/**
Checking an exported audit log against a checkpoint: every event's chain data
names the hash before it, hashes to the hash given, and says what the event says.
The hash is any injective function; a hash is a number. Of an ideal hash it is also
assumed where said so that no chain of events comes back to a hash it started from.
*/
module AuditChain {
  import opened Wrappers

  /** A detail that is missing and one that is empty read the same. */
  datatype Detail = NoDetail | EmptyDetail | Detail(value: nat)

  datatype Content = Content(fields: seq<string>, policies: seq<string>, detail: Detail)

  datatype Payload = Payload(previous: nat, id: int, content: Content)

  /** A line that does not parse, or whose chain data does not, is malformed. */
  datatype Line = Malformed | Event(payload: Payload, hash: nat, id: int, content: Content)

  predicate SameDetail(a: Detail, b: Detail) {
    a == b || (!a.Detail? && !b.Detail?)
  }

  predicate SameContent(a: Content, b: Content) {
    a.fields == b.fields && a.policies == b.policies && SameDetail(a.detail, b.detail)
  }

  predicate Continues(line: Line, hash: Payload -> nat, previous: nat, last: int) {
    && line.Event?
    && line.payload.previous == previous
    && line.hash == hash(line.payload)
    && line.payload.id == line.id
    && line.payload.id > last
    && SameContent(line.payload.content, line.content)
  }

  datatype Checkpoint = Checkpoint(hash: nat, id: int)

  /** The checkpoint an export ends at, if it is accepted. */
  function Check(lines: seq<Line>, hash: Payload -> nat, from: Checkpoint): (r: Option<Checkpoint>)
  {
    if lines == [] then Some(from)
    else
      var last := lines[|lines| - 1];
      match Check(lines[..|lines| - 1], hash, from)
      case None => None
      case Some(at) =>
        if Continues(last, hash, at.hash, at.id) then Some(Checkpoint(hash(last.payload), last.payload.id)) else None
  }

  method Verify(lines: seq<Line>, hash: Payload -> nat, from: Checkpoint) returns (r: Option<Checkpoint>, count: nat)
    ensures r == Check(lines, hash, from)
    ensures r.Some? ==> count == |lines|
    ensures r.None? ==> count < |lines| && Check(lines[..count], hash, from).Some? && Check(lines[..count + 1], hash, from).None?
  {
    var previous, last := from.hash, from.id;
    count := 0;
    for i := 0 to |lines|
      invariant count == i
      invariant Check(lines[..i], hash, from) == Some(Checkpoint(previous, last))
    {
      var line := lines[i];
      assert lines[..i + 1][..i] == lines[..i];
      if line.Malformed? {
        Stays(lines, hash, from, i + 1);
        return None, count;
      }
      if line.payload.previous != previous || hash(line.payload) != line.hash || line.payload.id != line.id || line.payload.id <= last
         || !SameContent(line.payload.content, line.content) {
        Stays(lines, hash, from, i + 1);
        return None, count;
      }
      previous, last, count := hash(line.payload), line.payload.id, count + 1;
    }
    assert lines[..|lines|] == lines;
    r := Some(Checkpoint(previous, last));
  }

  /** An export refused at some line is refused. */
  lemma {:induction false} Stays(lines: seq<Line>, hash: Payload -> nat, from: Checkpoint, n: nat)
    requires n <= |lines| && Check(lines[..n], hash, from).None?
    ensures Check(lines, hash, from).None?
    decreases |lines|
  {
    if n < |lines| {
      assert lines[..|lines| - 1][..n] == lines[..n];
      Stays(lines[..|lines| - 1], hash, from, n);
    } else {
      assert lines[..n] == lines;
    }
  }

  // ---------- Parts ----------

  /** Checking two exports one after the other is checking them as one. */
  lemma {:induction false} CheckedInParts(a: seq<Line>, b: seq<Line>, hash: Payload -> nat, from: Checkpoint)
    ensures Check(a + b, hash, from) ==
              match Check(a, hash, from)
              case None => None
              case Some(mid) => Check(b, hash, mid)
    decreases |b|
  {
    if b == [] {
      assert a + b == a;
    } else {
      var last := |b| - 1;
      assert (a + b)[..|a + b| - 1] == a + b[..last];
      CheckedInParts(a, b[..last], hash, from);
    }
  }

  // ---------- Tampering ----------

  ghost predicate Injective(hash: Payload -> nat) {
    forall p, q :: hash(p) == hash(q) ==> p == q
  }

  /** The checkpoint's hash is that of the event it names, or of none. */
  ghost predicate Honest(hash: Payload -> nat, from: Checkpoint) {
    forall p :: hash(p) == from.hash ==> p.id == from.id
  }

  lemma {:induction false} LaterIds(lines: seq<Line>, hash: Payload -> nat, from: Checkpoint)
    requires Check(lines, hash, from).Some?
    ensures Check(lines, hash, from).value.id >= from.id
    ensures lines != [] ==> Check(lines, hash, from).value.id > from.id
    decreases |lines|
  {
    if lines != [] {
      LaterIds(lines[..|lines| - 1], hash, from);
    }
  }

  /** Events of an accepted export say, line by line, the same as those of another. */
  predicate SameEvents(a: seq<Line>, b: seq<Line>) {
    |a| == |b| && forall i | 0 <= i < |a| ::
      a[i].Event? && b[i].Event? && a[i].payload == b[i].payload && a[i].hash == b[i].hash && a[i].id == b[i].id
      && SameContent(a[i].content, b[i].content)
  }

  /** Some event of the export hashes to the checkpoint it started from. */
  predicate Returns(lines: seq<Line>, hash: Payload -> nat, from: Checkpoint) {
    exists i :: 0 <= i < |lines| && lines[i].Event? && hash(lines[i].payload) == from.hash
  }

  /**
  Two accepted exports from one checkpoint that end in the same hash hold the same
  events exactly if they are equally long; otherwise the longer comes back to the
  hash it started from.
  */
  lemma {:induction false} SameEndSameEvents(a: seq<Line>, b: seq<Line>, hash: Payload -> nat, from: Checkpoint)
    requires Injective(hash)
    requires Check(a, hash, from).Some? && Check(b, hash, from).Some?
    requires Check(a, hash, from).value.hash == Check(b, hash, from).value.hash
    ensures SameEvents(a, b) <==> |a| == |b|
    ensures |a| > |b| ==> Returns(a, hash, from)
    ensures |a| < |b| ==> Returns(b, hash, from)
    decreases |a| + |b|
  {
    if a == [] && b == [] {
    } else if a == [] {
      assert hash(b[|b| - 1].payload) == from.hash;
    } else if b == [] {
      assert hash(a[|a| - 1].payload) == from.hash;
    } else {
      var p, q := a[..|a| - 1], b[..|b| - 1];
      assert a[|a| - 1].payload == b[|b| - 1].payload;
      SameEndSameEvents(p, q, hash, from);
      if |a| > |b| {
        var i :| 0 <= i < |p| && p[i].Event? && hash(p[i].payload) == from.hash;
        assert a[i] == p[i];
      } else if |a| < |b| {
        var i :| 0 <= i < |q| && q[i].Event? && hash(q[i].payload) == from.hash;
        assert b[i] == q[i];
      } else {
        ExtendSame(a, b);
      }
    }
  }

  lemma ExtendSame(a: seq<Line>, b: seq<Line>)
    requires |a| == |b| > 0 && SameEvents(a[..|a| - 1], b[..|b| - 1])
    requires var x, y := a[|a| - 1], b[|b| - 1];
             x.Event? && y.Event? && x.payload == y.payload && x.hash == y.hash && x.id == y.id && SameContent(x.content, y.content)
    ensures SameEvents(a, b)
  {
    forall i | 0 <= i < |a| - 1
      ensures a[i].Event? && b[i].Event? && a[i].payload == b[i].payload && a[i].hash == b[i].hash && a[i].id == b[i].id
              && SameContent(a[i].content, b[i].content)
    {
      assert a[..|a| - 1][i] == a[i] && b[..|b| - 1][i] == b[i];
    }
  }

  /** An export whose events do not come back to the checkpoint is fixed by its last hash. */
  lemma LastHashFixesExport(a: seq<Line>, b: seq<Line>, hash: Payload -> nat, from: Checkpoint)
    requires Injective(hash) && !Returns(a, hash, from) && !Returns(b, hash, from)
    requires Check(a, hash, from).Some? && Check(b, hash, from).Some?
    requires Check(a, hash, from).value.hash == Check(b, hash, from).value.hash
    ensures SameEvents(a, b)
  {
    SameEndSameEvents(a, b, hash, from);
  }

  lemma {:induction false} IdsAbove(lines: seq<Line>, hash: Payload -> nat, from: Checkpoint, i: nat)
    requires Check(lines, hash, from).Some? && i < |lines|
    ensures lines[i].Event? && lines[i].payload.id > from.id
    decreases |lines|
  {
    if i < |lines| - 1 {
      IdsAbove(lines[..|lines| - 1], hash, from, i);
    } else {
      LaterIds(lines[..|lines| - 1], hash, from);
    }
  }

  /** That is so whenever the checkpoint's hash is that of the event it names, or of none. */
  lemma HonestNeverReturns(lines: seq<Line>, hash: Payload -> nat, from: Checkpoint)
    requires Honest(hash, from) && Check(lines, hash, from).Some?
    ensures !Returns(lines, hash, from)
  {
    if Returns(lines, hash, from) {
      var i :| 0 <= i < |lines| && lines[i].Event? && hash(lines[i].payload) == from.hash;
      IdsAbove(lines, hash, from, i);
    }
  }

  /** Payloads that name one another's hashes in turn. */
  predicate Linked(chain: seq<Payload>, hash: Payload -> nat) {
    forall i | 0 < i < |chain| :: chain[i].previous == hash(chain[i - 1])
  }

  /** No chain of events comes back to the hash it started from. */
  ghost predicate Acyclic(hash: Payload -> nat) {
    forall chain: seq<Payload> | chain != [] && Linked(chain, hash) :: hash(chain[|chain| - 1]) != chain[0].previous
  }

  lemma {:induction false} AcceptedIsLinked(lines: seq<Line>, hash: Payload -> nat, from: Checkpoint) returns (chain: seq<Payload>)
    requires Check(lines, hash, from).Some?
    ensures |chain| == |lines| && Linked(chain, hash)
    ensures forall i | 0 <= i < |lines| :: lines[i].Event? && lines[i].payload == chain[i]
    ensures lines != [] ==> chain[0].previous == from.hash && Check(lines, hash, from).value.hash == hash(chain[|chain| - 1])
    ensures lines == [] ==> Check(lines, hash, from).value.hash == from.hash
    decreases |lines|
  {
    if lines == [] {
      chain := [];
    } else {
      var most := AcceptedIsLinked(lines[..|lines| - 1], hash, from);
      chain := most + [lines[|lines| - 1].payload];
    }
  }

  lemma {:induction false} AcceptedBefore(lines: seq<Line>, hash: Payload -> nat, from: Checkpoint, n: nat)
    requires Check(lines, hash, from).Some? && n <= |lines|
    ensures Check(lines[..n], hash, from).Some?
  {
    if Check(lines[..n], hash, from).None? {
      Stays(lines, hash, from, n);
    }
  }

  lemma AcyclicNeverReturns(lines: seq<Line>, hash: Payload -> nat, from: Checkpoint)
    requires Acyclic(hash) && Check(lines, hash, from).Some?
    ensures !Returns(lines, hash, from)
  {
    forall i | 0 <= i < |lines| && lines[i].Event?
      ensures hash(lines[i].payload) != from.hash
    {
      AcceptedBefore(lines, hash, from, i + 1);
      var chain := AcceptedIsLinked(lines[..i + 1], hash, from);
      assert lines[..i + 1][i] == lines[i];
    }
  }

  /** Under an ideal hash the last hash of an accepted export fixes its events, whatever the checkpoint. */
  lemma LastHashFixesEvents(a: seq<Line>, b: seq<Line>, hash: Payload -> nat, from: Checkpoint)
    requires Injective(hash) && Acyclic(hash)
    requires Check(a, hash, from).Some? && Check(b, hash, from).Some?
    requires Check(a, hash, from).value.hash == Check(b, hash, from).value.hash
    ensures SameEvents(a, b)
  {
    AcyclicNeverReturns(a, hash, from);
    AcyclicNeverReturns(b, hash, from);
    LastHashFixesExport(a, b, hash, from);
  }

  /** Being injective is not enough: an event that named its own hash would let an export and nothing at all end alike. */
  lemma CheckpointMatters(hash: Payload -> nat, p: Payload)
    requires p.previous == hash(p)
    ensures var from := Checkpoint(hash(p), p.id - 1);
            var line := Event(p, hash(p), p.id, p.content);
            && !Honest(hash, from) && Returns([line], hash, from)
            && Check([], hash, from).Some? && Check([line], hash, from).Some?
            && Check([], hash, from).value.hash == Check([line], hash, from).value.hash
            && !SameEvents([], [line])
    ensures !Acyclic(hash)
  {
    assert Linked([p], hash) && [p][0] == p;
    var from := Checkpoint(hash(p), p.id - 1);
    var line := Event(p, hash(p), p.id, p.content);
    assert [line][..0] == [];
    assert Check([], hash, from) == Some(from);
    assert Continues(line, hash, from.hash, from.id);
    assert [line][0] == line;
  }

  // ---------- What an accepted line says ----------

  /** The checkpoint a line has to continue. */
  function Before(lines: seq<Line>, i: nat, hash: Payload -> nat, from: Checkpoint): Checkpoint
    requires i < |lines|
  {
    if i == 0 || lines[i - 1].Malformed? then from else Checkpoint(hash(lines[i - 1].payload), lines[i - 1].payload.id)
  }

  /** A line that says what its chain data says, which hashes to the hash given and names the hash before it. */
  predicate SaysItsData(line: Line, hash: Payload -> nat, before: Checkpoint) {
    && line.Event?
    && line.payload.previous == before.hash && line.hash == hash(line.payload)
    && line.id == line.payload.id && line.id > before.id
    && line.content.fields == line.payload.content.fields
    && line.content.policies == line.payload.content.policies
    && (|| line.content.detail == line.payload.content.detail
        || (line.content.detail in {NoDetail, EmptyDetail} && line.payload.content.detail in {NoDetail, EmptyDetail}))
  }

  lemma ContinuesExactly(line: Line, hash: Payload -> nat, before: Checkpoint)
    ensures Continues(line, hash, before.hash, before.id) <==> SaysItsData(line, hash, before)
    ensures Continues(line, hash, before.hash, before.id) ==> line.Event?
  {
  }

  /** An export is accepted exactly if every line does, and ends at the checkpoint of its last. */
  lemma {:induction false} AcceptedExactly(lines: seq<Line>, hash: Payload -> nat, from: Checkpoint)
    ensures Check(lines, hash, from).Some? <==>
              forall i | 0 <= i < |lines| :: SaysItsData(lines[i], hash, Before(lines, i, hash, from))
    ensures Check(lines, hash, from).Some? && lines != [] ==>
              lines[|lines| - 1].Event? &&
              Check(lines, hash, from).value == Checkpoint(hash(lines[|lines| - 1].payload), lines[|lines| - 1].payload.id)
    ensures lines == [] ==> Check(lines, hash, from) == Some(from)
    decreases |lines|
  {
    if lines != [] {
      hide Continues, SaysItsData;
      var last := |lines| - 1;
      var most := lines[..last];
      AcceptedExactly(most, hash, from);
      SameBefore(lines, hash, from, last);
      ContinuesExactly(lines[last], hash, Before(lines, last, hash, from));
    }
  }

  lemma SameBefore(lines: seq<Line>, hash: Payload -> nat, from: Checkpoint, n: nat)
    requires n <= |lines|
    ensures forall i | 0 <= i < n :: lines[..n][i] == lines[i] && Before(lines[..n], i, hash, from) == Before(lines, i, hash, from)
  {
  }
}
