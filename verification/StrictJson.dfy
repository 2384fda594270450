/**
The strict reading of JSON: no object may repeat a name, ignoring case, and
nesting is bounded. The reader consumes the tokens of a decoder one at a time.
*/
module StrictJson {
  import opened FileTypes

  const MAX_DEPTH := 64

  datatype Json = Text(text: string) | Scalar | Array(items: seq<Json>) | Object(members: seq<Member>)
  datatype Member = Member(name: string, value: Json)

  datatype Token = OpenObject | CloseObject | OpenArray | CloseArray | TextToken(text: string) | ScalarToken

  function Tokens(j: Json): (r: seq<Token>)
    ensures r != [] && r[0] != CloseObject && r[0] != CloseArray
    ensures j.Text? || j.Scalar? <==> r[0] != OpenObject && r[0] != OpenArray
    ensures j.Object? <==> r[0] == OpenObject
    decreases j
  {
    match j
    case Text(text) => [TextToken(text)]
    case Scalar => [ScalarToken]
    case Array(items) => [OpenArray] + ItemTokens(items) + [CloseArray]
    case Object(members) => [OpenObject] + MemberTokens(members) + [CloseObject]
  }

  function ItemTokens(items: seq<Json>): seq<Token>
    decreases items
  {
    if items == [] then [] else Tokens(items[0]) + ItemTokens(items[1..])
  }

  function MemberTokens(members: seq<Member>): seq<Token>
    decreases members
  {
    if members == [] then [] else [TextToken(members[0].name)] + Tokens(members[0].value) + MemberTokens(members[1..])
  }

  // ---------- What is accepted ----------

  predicate DistinctNames(members: seq<Member>) {
    forall i, j | 0 <= i < j < |members| :: Lower(members[i].name) != Lower(members[j].name)
  }

  /** Names are distinct in every object, however deep. */
  predicate Unique(j: Json)
    decreases j
  {
    match j
    case Text(_) => true
    case Scalar => true
    case Array(items) => forall i | 0 <= i < |items| :: Unique(items[i])
    case Object(members) => DistinctNames(members) && forall i | 0 <= i < |members| :: Unique(members[i].value)
  }

  /** Every value lies at most this many levels below. */
  predicate Within(j: Json, levels: int)
    decreases j
  {
    levels >= 0 &&
    match j
    case Text(_) => true
    case Scalar => true
    case Array(items) => forall i | 0 <= i < |items| :: Within(items[i], levels - 1)
    case Object(members) => forall i | 0 <= i < |members| :: Within(members[i].value, levels - 1)
  }

  predicate Accepted(j: Json, depth: int) {
    Within(j, MAX_DEPTH - depth) && Unique(j)
  }

  // ---------- The reader ----------

  class Decoder {
    const tokens: seq<Token>
    var pos: nat

    constructor (tokens: seq<Token>)
      ensures this.tokens == tokens && pos == 0
    {
      this.tokens := tokens;
      pos := 0;
    }

    predicate More()
      reads this
    {
      pos < |tokens| && tokens[pos] != CloseObject && tokens[pos] != CloseArray
    }

    /** Reads one value and exactly its tokens, or fails just when it is not acceptable here. */
    method ReadValue(depth: int, ghost j: Json, ghost rest: seq<Token>) returns (ok: bool)
      requires pos <= |tokens| && tokens[pos..] == Tokens(j) + rest
      modifies `pos
      ensures ok <==> Accepted(j, depth)
      ensures ok ==> pos <= |tokens| && tokens[pos..] == rest
      decreases |tokens| - pos, 1
    {
      if depth > MAX_DEPTH {
        return false;
      }
      assert tokens[pos] == tokens[pos..][0] == Tokens(j)[0];
      var token := tokens[pos];
      pos := pos + 1;
      assert tokens[pos..] == (Tokens(j) + rest)[1..];
      match token
      case TextToken(_) => return true;
      case ScalarToken => return true;
      case OpenObject =>
        assert (Tokens(j) + rest)[1..] == MemberTokens(j.members) + [CloseObject] + rest;
        ok := ReadMembers(depth, j.members, rest);
      case OpenArray =>
        assert (Tokens(j) + rest)[1..] == ItemTokens(j.items) + [CloseArray] + rest;
        ok := ReadItems(depth, j.items, rest);
    }

    method ReadItems(depth: int, ghost items: seq<Json>, ghost rest: seq<Token>) returns (ok: bool)
      requires pos <= |tokens| && tokens[pos..] == ItemTokens(items) + [CloseArray] + rest && depth <= MAX_DEPTH
      modifies `pos
      ensures ok <==> forall i | 0 <= i < |items| :: Accepted(items[i], depth + 1)
      ensures ok ==> pos <= |tokens| && tokens[pos..] == rest
      decreases |tokens| - pos, 2
    {
      ghost var k := 0;
      assert items[0..] == items;
      while More()
        invariant k <= |items| && old(pos) <= pos <= |tokens|
        invariant tokens[pos..] == ItemTokens(items[k..]) + [CloseArray] + rest
        invariant forall i | 0 <= i < k :: Accepted(items[i], depth + 1)
        decreases |tokens| - pos
      {
        assert tokens[pos] == tokens[pos..][0];
        assert items[k..][1..] == items[k + 1..];
        ghost var left := ItemTokens(items[k + 1..]) + [CloseArray] + rest;
        assert tokens[pos..] == Tokens(items[k]) + left;
        ok := ReadValue(depth + 1, items[k], left);
        if !ok {
          return;
        }
        k := k + 1;
      }
      CloseItems(items[k..], [CloseArray] + rest);
      assert tokens[pos..][0] == tokens[pos];
      assert tokens[pos..][1..] == tokens[pos + 1..];
      pos := pos + 1;
      ok := true;
    }

    method ReadMembers(depth: int, ghost members: seq<Member>, ghost rest: seq<Token>) returns (ok: bool)
      requires pos <= |tokens| && tokens[pos..] == MemberTokens(members) + [CloseObject] + rest && depth <= MAX_DEPTH
      modifies `pos
      ensures ok <==> DistinctNames(members) && forall i | 0 <= i < |members| :: Accepted(members[i].value, depth + 1)
      ensures ok ==> pos <= |tokens| && tokens[pos..] == rest
      decreases |tokens| - pos, 2
    {
      hide Lower, Accepted, Tokens, MemberTokens, DistinctNames;
      NoNames(members);
      ghost var k := 0;
      var seen: set<string> := {};
      assert members[0..] == members;
      while More()
        invariant k <= |members| && old(pos) <= pos <= |tokens|
        invariant tokens[pos..] == MemberTokens(members[k..]) + [CloseObject] + rest
        invariant forall i | 0 <= i < k :: Accepted(members[i].value, depth + 1)
        invariant DistinctNames(members[..k])
        invariant forall n :: n in seen <==> exists i :: 0 <= i < k && Lower(members[i].name) == n
        decreases |tokens| - pos
      {
        assert tokens[pos] == tokens[pos..][0];
        MembersLeft(members, k, rest);
        ghost var left := MemberTokens(members[k + 1..]) + [CloseObject] + rest;
        NextName(members, k, seen);
        var name := Lower(tokens[pos].text);
        if name in seen {
          return false;
        }
        seen := seen + {name};
        assert tokens[pos + 1..] == tokens[pos..][1..];
        pos := pos + 1;
        ok := ReadValue(depth + 1, members[k].value, left);
        if !ok {
          return;
        }
        k := k + 1;
      }
      MembersLeft(members, k, rest);
      assert members[..|members|] == members;
      assert tokens[pos..][0] == tokens[pos];
      assert tokens[pos..][1..] == tokens[pos + 1..];
      pos := pos + 1;
      ok := true;
    }

    /** One acceptable value and nothing after it. */
    method Validate(ghost j: Json, ghost rest: seq<Token>) returns (ok: bool)
      requires pos == 0 && tokens == Tokens(j) + rest
      modifies `pos
      ensures ok <==> Within(j, MAX_DEPTH) && Unique(j) && rest == []
    {
      assert tokens[0..] == tokens;
      ok := ReadValue(0, j, rest);
      if ok {
        ok := pos == |tokens|;
      }
    }
  }

  lemma CloseItems(items: seq<Json>, after: seq<Token>)
    ensures items != [] ==> (ItemTokens(items) + after)[0] != CloseObject && (ItemTokens(items) + after)[0] != CloseArray
  {
  }

  lemma NoNames(members: seq<Member>)
    ensures DistinctNames(members[..0])
  {
  }

  /** The next name is new exactly if it is not among those seen. */
  lemma NextName(members: seq<Member>, k: nat, seen: set<string>)
    requires k < |members| && DistinctNames(members[..k])
    requires forall n :: n in seen <==> exists i :: 0 <= i < k && Lower(members[i].name) == n
    ensures if Lower(members[k].name) in seen then !DistinctNames(members) else DistinctNames(members[..k + 1])
  {
    hide Lower;
    if Lower(members[k].name) in seen {
      var i :| 0 <= i < k && Lower(members[i].name) == Lower(members[k].name);
    }
  }

  /** What is left to read of an object: its next name and value, or its end. */
  lemma MembersLeft(members: seq<Member>, k: nat, rest: seq<Token>)
    requires k <= |members|
    ensures var left := MemberTokens(members[k..]) + [CloseObject] + rest;
            if k == |members| then left == [CloseObject] + rest
            else
              left == [TextToken(members[k].name)] + (Tokens(members[k].value) + (MemberTokens(members[k + 1..]) + [CloseObject] + rest))
  {
    if k < |members| {
      assert members[k..][1..] == members[k + 1..];
    }
  }

  // ---------- However deep ----------

  function Children(j: Json): seq<Json> {
    match j
    case Text(_) => []
    case Scalar => []
    case Array(items) => items
    case Object(members) => seq(|members|, i requires 0 <= i < |members| => members[i].value)
  }

  /** A value found inside another, so many levels down. */
  predicate Inside(j: Json, v: Json, levels: nat)
    decreases levels
  {
    if levels == 0 then v == j else exists i :: 0 <= i < |Children(j)| && Inside(Children(j)[i], v, levels - 1)
  }

  ghost predicate Shallow(j: Json, levels: int) {
    forall v: Json, n: nat | Inside(j, v, n) :: n <= levels
  }

  /** No object found inside repeats a name, ignoring case. */
  ghost predicate NoRepeats(j: Json) {
    forall v: Json, n: nat | Inside(j, v, n) && v.Object? :: NamesApart(v)
  }

  predicate NamesApart(v: Json)
    requires v.Object?
  {
    forall a, b | 0 <= a < |v.members| && 0 <= b < |v.members| && a != b :: Lower(v.members[a].name) != Lower(v.members[b].name)
  }

  /** What lies inside a value is the value itself and what lies inside its children. */
  lemma InsideChild(j: Json, i: nat, v: Json, n: nat)
    requires i < |Children(j)| && Inside(Children(j)[i], v, n)
    ensures Inside(j, v, n + 1)
  {
  }

  lemma ShallowChildren(j: Json, levels: int)
    ensures Shallow(j, levels) <==> levels >= 0 && forall i | 0 <= i < |Children(j)| :: Shallow(Children(j)[i], levels - 1)
  {
    assert Inside(j, j, 0);
    if Shallow(j, levels) {
      forall i, v: Json, n: nat | 0 <= i < |Children(j)| && Inside(Children(j)[i], v, n)
        ensures n <= levels - 1
      {
        InsideChild(j, i, v, n);
      }
    }
    if levels >= 0 && forall i | 0 <= i < |Children(j)| :: Shallow(Children(j)[i], levels - 1) {
      forall v: Json, n: nat | Inside(j, v, n)
        ensures n <= levels
      {
        if n > 0 {
          var i :| 0 <= i < |Children(j)| && Inside(Children(j)[i], v, n - 1);
          assert Shallow(Children(j)[i], levels - 1);
        }
      }
    }
  }

  /** A tree is within so many levels exactly if nothing is found deeper. */
  lemma {:induction false} WithinExactly(j: Json, levels: int)
    ensures Within(j, levels) <==> Shallow(j, levels)
    decreases j
  {
    hide Shallow;
    ShallowChildren(j, levels);
    match j
    case Text(_) =>
    case Scalar =>
    case Array(items) =>
      forall i | 0 <= i < |items|
        ensures Within(items[i], levels - 1) <==> Shallow(Children(j)[i], levels - 1)
      {
        WithinExactly(items[i], levels - 1);
      }
    case Object(members) =>
      forall i | 0 <= i < |members|
        ensures Within(members[i].value, levels - 1) <==> Shallow(Children(j)[i], levels - 1)
      {
        WithinExactly(members[i].value, levels - 1);
      }
  }

  lemma NoRepeatsChildren(j: Json)
    ensures NoRepeats(j) <==> (j.Object? ==> NamesApart(j)) && forall i | 0 <= i < |Children(j)| :: NoRepeats(Children(j)[i])
  {
    hide NamesApart;
    assert Inside(j, j, 0);
    if NoRepeats(j) {
      forall i, v: Json, n: nat | 0 <= i < |Children(j)| && Inside(Children(j)[i], v, n) && v.Object?
        ensures NamesApart(v)
      {
        InsideChild(j, i, v, n);
      }
    }
    if (j.Object? ==> NamesApart(j)) && forall i | 0 <= i < |Children(j)| :: NoRepeats(Children(j)[i]) {
      forall v: Json, n: nat | Inside(j, v, n) && v.Object?
        ensures NamesApart(v)
      {
        if n > 0 {
          var i :| 0 <= i < |Children(j)| && Inside(Children(j)[i], v, n - 1);
          assert NoRepeats(Children(j)[i]);
        }
      }
    }
  }

  /** Names are distinct exactly if no object found inside, however deep, repeats one. */
  lemma {:induction false} UniqueExactly(j: Json)
    ensures Unique(j) <==> NoRepeats(j)
    decreases j
  {
    hide NoRepeats, Lower;
    NoRepeatsChildren(j);
    match j
    case Text(_) =>
    case Scalar =>
    case Array(items) =>
      forall i | 0 <= i < |items|
        ensures Unique(items[i]) <==> NoRepeats(Children(j)[i])
      {
        UniqueExactly(items[i]);
      }
    case Object(members) =>
      forall i | 0 <= i < |members|
        ensures Unique(members[i].value) <==> NoRepeats(Children(j)[i])
      {
        UniqueExactly(members[i].value);
      }
  }
}
