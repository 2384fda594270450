/**
Rotation of the token the Control Tower and a node share. The Control Tower
saves the candidate before it tells the node; the node stages it and switches on
commit. Tokens are numbers, and a new one is above every one before it.
*/
module NodeToken {
  import opened Wrappers

  // ---------- The node ----------

  /** `env` is the token the node was configured with, good until a commit turns it off. */
  datatype Node = Node(recorded: bool, active: Option<nat>, staged: Option<nat>, env: nat, envDisabled: bool)

  predicate Accepts(n: Node, token: nat) {
    if !n.recorded then token == n.env
    else n.staged == Some(token) || n.active == Some(token) || (!n.envDisabled && token == n.env)
  }

  /** The token the node works with now. */
  function InUse(n: Node): nat {
    if n.active.Some? then n.active.value else n.env
  }

  datatype Request = Prepare(auth: nat, token: nat) | Commit(auth: nat)

  datatype Answer = Done | Unauthorized | Conflict | BadRequest

  function Prepared(n: Node, auth: nat, token: nat): (Node, Answer) {
    if token == auth then (n, BadRequest)
    else if n.staged.Some? && n.staged.value != token then (n, Conflict)
    else (n.(recorded := true, staged := Some(token)), Done)
  }

  function Committed(n: Node, auth: nat): (Node, Answer) {
    if !n.recorded then (n, Conflict)
    else if n.active == Some(auth) && n.staged.None? then (n, Done)
    else if n.staged != Some(auth) then (n, Conflict)
    else (n.(active := Some(auth), staged := None, envDisabled := true), Done)
  }

  function Served(n: Node, r: Request): (Node, Answer) {
    if !Accepts(n, r.auth) then (n, Unauthorized)
    else
      match r
      case Prepare(auth, token) => Prepared(n, auth, token)
      case Commit(auth) => Committed(n, auth)
  }

  /**
  What the node answers and does. It lets in the staged and the active token, and its
  configured one until a commit turns that off; it stages one token at a time and never
  the one it was asked with, and switches exactly to the staged one.
  */
  lemma ServedExactly(n: Node, r: Request)
    ensures var (after, answer) := Served(n, r);
            var known := n.recorded && (n.staged == Some(r.auth) || n.active == Some(r.auth));
            var configured := r.auth == n.env && (!n.recorded || !n.envDisabled);
            && (answer == Unauthorized <==> !known && !configured)
            && (answer == BadRequest <==> (known || configured) && r.Prepare? && r.token == r.auth)
            && (answer == Conflict <==>
                  && (known || configured)
                  && (if r.Prepare? then r.token != r.auth && n.staged.Some? && n.staged != Some(r.token)
                      else !n.recorded || (n.staged != Some(r.auth) && (n.active != Some(r.auth) || n.staged.Some?))))
            && (answer != Done ==> after == n)
            && (answer == Done && r.Prepare? ==> after == n.(recorded := true, staged := Some(r.token)))
            && (answer == Done && r.Commit? ==>
                  after == if n.staged == Some(r.auth) then Node(true, Some(r.auth), None, n.env, true) else n)
  {
  }

  // ---------- Runs ----------

  /** `sent` holds every request ever sent: any of them may arrive, late or more than once. */
  datatype State = State(stored: nat, candidate: Option<nat>, node: Node, sent: set<Request>, unused: nat)

  datatype Step =
    | Begin
    | SendCommit
    | SendPrepare
    | Arrive(request: Request)
    | Finish

  /** The Control Tower ends a rotation only on an answer that says the commit is done. */
  predicate Enabled(s: State, step: Step) {
    match step
    case Arrive(request) => request in s.sent
    case Finish => s.candidate.Some? && InUse(s.node) == s.candidate.value && s.node.staged.None?
    case _ => true
  }

  function Next(s: State, step: Step): State
    requires Enabled(s, step)
  {
    match step
    case Begin => if s.candidate.Some? then s else s.(candidate := Some(s.unused), unused := s.unused + 1)
    case SendCommit => if s.candidate.None? then s else s.(sent := s.sent + {Commit(s.candidate.value)})
    case SendPrepare => if s.candidate.None? then s else s.(sent := s.sent + {Prepare(s.stored, s.candidate.value)})
    case Arrive(request) => s.(node := Served(s.node, request).0)
    case Finish => s.(stored := s.candidate.value, candidate := None)
  }

  predicate NodeOk(n: Node) {
    && (n.active.Some? <==> n.envDisabled)
    && (!n.recorded ==> n.active.None? && n.staged.None?)
  }

  predicate Inv(s: State) {
    && NodeOk(s.node)
    && s.stored < s.unused && s.node.env < s.unused
    && (s.candidate.Some? ==> s.stored < s.candidate.value < s.unused && s.candidate.value != s.node.env)
    && (InUse(s.node) == s.stored || s.candidate == Some(InUse(s.node)))
    && (s.node.staged.Some? ==> s.node.staged == s.candidate && InUse(s.node) == s.stored)
    && (forall r | r in s.sent ::
          match r
          case Prepare(auth, token) => auth < token && (token <= s.stored || (auth == s.stored && s.candidate == Some(token)))
          case Commit(auth) => auth <= s.stored || s.candidate == Some(auth))
  }

  lemma NextKeeps(s: State, step: Step)
    requires Inv(s) && Enabled(s, step)
    ensures Inv(Next(s, step))
  {
  }

  ghost predicate Steps(s: State, steps: seq<Step>)
    decreases |steps|
  {
    steps == [] || (Enabled(s, steps[0]) && Steps(Next(s, steps[0]), steps[1..]))
  }

  ghost function Run(s: State, steps: seq<Step>): State
    requires Steps(s, steps)
    decreases |steps|
  {
    if steps == [] then s else Run(Next(s, steps[0]), steps[1..])
  }

  /** A node just registered, with the token that is stored. */
  predicate Registered(s: State) {
    s.candidate.None? && s.node.staged.None? && InUse(s.node) == s.stored && NodeOk(s.node) && s.sent == {}
    && s.stored < s.unused && s.node.env < s.unused
  }

  lemma {:induction false} RunKeeps(s: State, steps: seq<Step>)
    requires Inv(s) && Steps(s, steps)
    ensures Inv(Run(s, steps))
    decreases |steps|
  {
    if steps != [] {
      NextKeeps(s, steps[0]);
      RunKeeps(Next(s, steps[0]), steps[1..]);
    }
  }

  /**
  Whatever is lost, late or repeated, and wherever a rotation stops: the node
  works with the stored token or the saved candidate, and accepts it.
  */
  lemma NeverLockedOut(s: State, steps: seq<Step>)
    requires Registered(s) && Steps(s, steps)
    ensures var end := Run(s, steps);
            && (InUse(end.node) == end.stored || end.candidate == Some(InUse(end.node)))
            && (Accepts(end.node, end.stored) || (end.candidate.Some? && Accepts(end.node, end.candidate.value)))
  {
    RunKeeps(s, steps);
  }

  // ---------- One attempt, in the order of its calls ----------

  datatype Call = RequestLost | AnswerLost | Answered

  /** How the calls of an attempt go, in order. */
  datatype Calls = Calls(first: Call, prepare: Call, commit: Call)

  datatype Outcome = Active | PrepareFailed | CommitPending

  /** What a call leaves, and what the Control Tower learns of it. */
  function Called(s: State, r: Request, how: Call): (State, Option<Answer>) {
    var out := s.(sent := s.sent + {r});
    match how
    case RequestLost => (out, None)
    case AnswerLost => (out.(node := Served(s.node, r).0), None)
    case Answered => (out.(node := Served(s.node, r).0), Some(Served(s.node, r).1))
  }

  function Finished(s: State): (Outcome, State)
    requires s.candidate.Some?
  {
    (Active, s.(stored := s.candidate.value, candidate := None))
  }

  function PreparedAndCommitted(s: State, c: Calls): (Outcome, State)
    requires s.candidate.Some?
  {
    var (staged, prepared) := Called(s, Prepare(s.stored, s.candidate.value), c.prepare);
    if prepared != Some(Done) then (PrepareFailed, staged)
    else
      var (after, committed) := Called(staged, Commit(s.candidate.value), c.commit);
      if committed != Some(Done) then (CommitPending, after) else Finished(after)
  }

  /** A saved candidate is committed first; only a node that does not know it is asked to prepare it. */
  function Rotated(s: State, c: Calls): (Outcome, State) {
    if s.candidate.None? then
      PreparedAndCommitted(Next(s, Begin), c)
    else
      var (after, answer) := Called(s, Commit(s.candidate.value), c.first);
      if answer == Some(Done) then Finished(after)
      else if answer == Some(Unauthorized) || answer == Some(Conflict) then PreparedAndCommitted(after, c)
      else (CommitPending, after)
  }

  class Rotation {
    var stored: nat
    var candidate: Option<nat>
    var node: Node
    var sent: set<Request>
    var unused: nat

    constructor (stored: nat, node: Node)
      requires InUse(node) == stored && node.staged.None? && NodeOk(node)
      ensures Registered(Now()) && this.stored == stored && this.node == node
    {
      this.stored, candidate, this.node, sent, unused := stored, None, node, {}, stored + node.env + 1;
    }

    function Now(): State
      reads this
    {
      State(stored, candidate, node, sent, unused)
    }

    method Ask(r: Request, how: Call) returns (answer: Option<Answer>)
      modifies `node, `sent
      ensures (Now(), answer) == Called(old(Now()), r, how)
    {
      sent := sent + {r};
      if how.RequestLost? {
        return None;
      }
      var (after, said) := Served(node, r);
      node := after;
      return if how.Answered? then Some(said) else None;
    }

    method Rotate(c: Calls) returns (outcome: Outcome)
      modifies this
      ensures (outcome, Now()) == Rotated(old(Now()), c)
    {
      var reused := candidate.Some?;
      if !reused {
        candidate, unused := Some(unused), unused + 1;
      }
      var token := candidate.value;
      var answer := None;
      if reused {
        answer := Ask(Commit(token), c.first);
      }
      if !reused || answer != Some(Done) {
        if reused && answer != Some(Unauthorized) && answer != Some(Conflict) {
          return CommitPending;
        }
        answer := Ask(Prepare(stored, token), c.prepare);
        if answer != Some(Done) {
          return PrepareFailed;
        }
        answer := Ask(Commit(token), c.commit);
        if answer != Some(Done) {
          return CommitPending;
        }
      }
      stored, candidate := token, None;
      return Active;
    }
  }

  // ---------- An attempt is a run ----------

  lemma {:induction false} Extend(s: State, steps: seq<Step>, step: Step)
    requires Steps(s, steps) && Enabled(Run(s, steps), step)
    ensures Steps(s, steps + [step]) && Run(s, steps + [step]) == Next(Run(s, steps), step)
    decreases |steps|
  {
    if steps == [] {
      assert steps + [step] == [step] && [step][1..] == [];
    } else {
      Extend(Next(s, steps[0]), steps[1..], step);
      assert (steps + [step])[1..] == steps[1..] + [step];
    }
  }

  lemma CalledRuns(s: State, steps: seq<Step>, send: Step, r: Request, how: Call) returns (all: seq<Step>)
    requires Steps(s, steps) && (send.SendCommit? || send.SendPrepare?)
    requires Next(Run(s, steps), send) == Run(s, steps).(sent := Run(s, steps).sent + {r})
    ensures Steps(s, all) && Run(s, all) == Called(Run(s, steps), r, how).0
  {
    hide Steps, Run, Served;
    Extend(s, steps, send);
    all := steps + [send];
    if !how.RequestLost? {
      Extend(s, all, Arrive(r));
      all := all + [Arrive(r)];
    }
  }

  /** An answer that says done means the node works with the candidate and has nothing staged. */
  lemma DoneMeansInUse(n: Node, token: nat)
    requires NodeOk(n) && Served(n, Commit(token)).1 == Done
    ensures InUse(Served(n, Commit(token)).0) == token && Served(n, Commit(token)).0.staged.None?
  {
  }

  /** Nothing that arrives late undoes it before the rotation is finished. */
  lemma DoneStays(s: State, late: Request)
    requires Inv(s) && Enabled(s, Finish) && late in s.sent
    ensures Enabled(Next(s, Arrive(late)), Finish)
  {
  }

  /** Whatever its calls do, an attempt only takes steps of the protocol. */
  lemma RotatedRuns(s: State, c: Calls) returns (steps: seq<Step>)
    requires Inv(s)
    ensures Steps(s, steps) && Run(s, steps) == Rotated(s, c).1
  {
    hide Steps, Run, Served, Inv;
    NoSteps(s);
    Extend(s, [], Begin);
    steps := [] + [Begin];
    var begun := Next(s, Begin);
    var token := begun.candidate.value;
    RunKeeps(s, steps);
    if s.candidate.Some? {
      steps := CalledRuns(s, steps, SendCommit, Commit(token), c.first);
    }
    var (asked, answer) := if s.candidate.Some? then Called(begun, Commit(token), c.first) else (begun, None);
    if answer == Some(Done) {
      NodeStands(begun);
      DoneMeansInUse(begun.node, token);
      Extend(s, steps, Finish);
      steps := steps + [Finish];
    } else if s.candidate.None? || answer == Some(Unauthorized) || answer == Some(Conflict) {
      steps := CalledRuns(s, steps, SendPrepare, Prepare(asked.stored, token), c.prepare);
      var (staged, prepared) := Called(asked, Prepare(asked.stored, token), c.prepare);
      if prepared == Some(Done) {
        RunKeeps(s, steps);
        steps := CalledRuns(s, steps, SendCommit, Commit(token), c.commit);
        if Called(staged, Commit(token), c.commit).1 == Some(Done) {
          NodeStands(staged);
          DoneMeansInUse(staged.node, token);
          Extend(s, steps, Finish);
          steps := steps + [Finish];
        }
      }
    }
  }

  lemma NoSteps(s: State)
    ensures Steps(s, []) && Run(s, []) == s
  {
  }

  lemma NodeStands(s: State)
    requires Inv(s)
    ensures NodeOk(s.node)
  {
  }

  /** From any state a run can be in, one attempt that is not disturbed ends the rotation. */
  lemma UndisturbedAttemptEnds(s: State, c: Calls)
    requires Inv(s) && c == Calls(Answered, Answered, Answered)
    ensures var (outcome, end) := Rotated(s, c);
            outcome == Active && end.candidate.None? && InUse(end.node) == end.stored && Accepts(end.node, end.stored)
  {
  }

  // ---------- What an attempt reports ----------

  /** The node has the candidate staged or already works with it. */
  predicate Knows(n: Node, token: nat) {
    n.staged == Some(token) || n.active == Some(token)
  }

  /** The attempt comes to ask the node to prepare the candidate. */
  predicate AsksToPrepare(s: State, c: Calls) {
    s.candidate.None? || (c.first.Answered? && !Knows(s.node, s.candidate.value))
  }

  /**
  From any state of a run and whatever the calls do: the rotation is reported active
  if and only if it is over, and then both sides work with the candidate; otherwise
  nothing is given up, and the call that was not answered says which failure is told.
  */
  lemma OutcomeIsTrue(s: State, c: Calls)
    requires Inv(s)
    ensures var (outcome, end) := Rotated(s, c);
            var token := if s.candidate.Some? then s.candidate.value else s.unused;
            && (outcome == Active <==> end.candidate.None?)
            && (outcome == Active ==> end.stored == token && InUse(end.node) == token && end.node.staged.None?)
            && (outcome != Active ==> end.stored == s.stored && end.candidate == Some(token))
            && (outcome == PrepareFailed <==> AsksToPrepare(s, c) && !c.prepare.Answered?)
            && (outcome == CommitPending <==>
                  || (s.candidate.Some? && !c.first.Answered?)
                  || (AsksToPrepare(s, c) && c.prepare.Answered? && !c.commit.Answered?))
  {
  }
}
