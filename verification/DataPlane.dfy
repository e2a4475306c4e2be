/**
 The data plane as a state machine: runners, the ingress, trigger handles and the result consumer pass
 references to stored payloads through bounded channels. One step is one atomic action of one agent, and
 steps of different agents interleave freely. A message (`ContextRef`) is represented by the DataId it carries.
 */
module DataPlane {
  import opened Prelude
  import opened DataStore

  datatype Policy = Block | DropNewest

  datatype Target = Target(chan: nat, policy: Policy)

  /** `closed`: the receiver is gone. Messages left in the queue then stay there for good. */
  datatype Chan = Chan(capacity: nat, queue: seq<DataId>, closed: bool)

  datatype Kind =
    | Runner(inbox: nat)      // run_node
    | Consumer(inbox: nat)    // the reader of the result stream
    | Submitter               // WorkflowIngress
    | Trigger                 // NodeHandle::emit

  /** Where an agent stands between two of its atomic actions. */
  datatype Pc =
    | Idle
    | Received(id: DataId)                                            // taken from the inbox
    | ReadBack(id: DataId, payload: Option<Value>)                    // payload read, share not yet given back
    | Working                                                         // runner between two outputs
    | Sending(id: DataId, targets: seq<Target>, next: nat)            // targets[..next] are settled
    | FullReleased(id: DataId, targets: seq<Target>, next: nat)       // `Full`: share given back, is_closed() not yet read
    | Unwanted(id: DataId)                                            // emit without downstream
    | Stopping                                                        // runner left its loop
    | Stopped

  datatype Agent = Agent(kind: Kind, pc: Pc)

  /** `written` remembers every payload ever stored. */
  datatype State = State(
    capacity: nat,
    entries: Entries,
    nextId: DataId,
    written: map<DataId, Value>,
    chans: seq<Chan>,
    agents: seq<Agent>)

  datatype Step =
    | Begin(a: nat, payload: Value, targets: seq<Target>)
    | Send(a: nat)
    | AfterFull(a: nat)
    | Finish(a: nat)
    | Recv(a: nat)
    | Read(a: nat)
    | GiveBack(a: nat)
    | EndWork(a: nat)
    | DropInbox(a: nat)

  // ---- Outstanding references ----

  function CountIn(queue: seq<DataId>, id: DataId): nat {
    multiset(queue)[id]
  }

  function Held(pc: Pc, id: DataId): nat {
    match pc
    case Received(i) => if i == id then 1 else 0
    case ReadBack(i, _) => if i == id then 1 else 0
    case Unwanted(i) => if i == id then 1 else 0
    case Sending(i, targets, next) => if i == id && next <= |targets| then |targets| - next else 0
    case FullReleased(i, targets, next) => if i == id && next < |targets| then |targets| - next - 1 else 0
    case _ => 0
  }

  function QueueShare(id: DataId): Chan -> nat {
    (c: Chan) => CountIn(c.queue, id)
  }

  function AgentShare(id: DataId): Agent -> nat {
    (g: Agent) => Held(g.pc, id)
  }

  /** References to `id` in channels and in hands, with the shares a running fan-out has yet to send. */
  function Outstanding(s: State, id: DataId): nat {
    SumBy(QueueShare(id), s.chans) + SumBy(AgentShare(id), s.agents)
  }

  // ---- Steps ----

  predicate InRange(s: State, targets: seq<Target>) {
    forall i :: 0 <= i < |targets| ==> targets[i].chan < |s.chans|
  }

  function Inbox(g: Agent): Option<nat> {
    match g.kind
    case Runner(c) => Some(c)
    case Consumer(c) => Some(c)
    case _ => None
  }

  predicate HasRoom(c: Chan) {
    |c.queue| < c.capacity
  }

  /** Full and DropNewest never waits; Block waits while the channel is full. */
  predicate SendReady(c: Chan, policy: Policy) {
    c.closed || HasRoom(c) || policy == DropNewest
  }

  predicate Enabled(s: State, step: Step) {
    && step.a < |s.agents|
    && var g := s.agents[step.a];
    match step
    case Begin(_, _, targets) =>
      && InRange(s, targets)
      && (match g.kind
          case Runner(_) => g.pc == Working && targets != []
          case Submitter => g.pc == Idle && targets != [] && (forall t :: t in targets ==> t.policy == Block)
          case Trigger => g.pc == Idle && (forall t :: t in targets ==> t.policy == Block)
          case Consumer(_) => false)
    case Send(_) =>
      && g.pc.Sending? && g.pc.next < |g.pc.targets| && InRange(s, g.pc.targets)
      && SendReady(s.chans[g.pc.targets[g.pc.next].chan], g.pc.targets[g.pc.next].policy)
    case AfterFull(_) => g.pc.FullReleased? && g.pc.next < |g.pc.targets| && InRange(s, g.pc.targets)
    case Finish(_) => g.pc.Sending? && g.pc.next >= |g.pc.targets|
    case Recv(_) =>
      && g.pc == Idle && Inbox(g).Some? && Inbox(g).value < |s.chans|
      && !s.chans[Inbox(g).value].closed && s.chans[Inbox(g).value].queue != []
    case Read(_) => g.pc.Received? && Inbox(g).Some?
    case GiveBack(_) => g.pc.ReadBack? || g.pc.Unwanted?
    case EndWork(_) => g.pc == Working
    case DropInbox(_) =>
      && Inbox(g).Some? && Inbox(g).value < |s.chans|
      && (g.pc == Stopping || (g.kind.Consumer? && g.pc == Idle))
  }

  function At(s: State, a: nat, pc: Pc): State
    requires a < |s.agents|
  {
    s.(agents := s.agents[a := s.agents[a].(pc := pc)])
  }

  /** What an agent does after its fan-out: a runner takes its next output, the others return. */
  function Resume(g: Agent): Pc {
    if g.kind.Runner? then Working else Idle
  }

  /** What an agent does after a closed channel ended its fan-out. */
  function Abandon(g: Agent): Pc {
    if g.kind.Runner? then Stopping else Idle
  }

  function DoBegin(s: State, a: nat, payload: Value, targets: seq<Target>): State
    requires a < |s.agents|
  {
    if AtCapacity(s.entries, s.capacity) then At(s, a, Abandon(s.agents[a]))
    else
      var id := s.nextId;
      At(s.(entries := s.entries[id := Entry(payload, Max(|targets|, 1))],
            nextId := id + 1,
            written := s.written[id := payload]),
         a, if targets == [] then Unwanted(id) else Sending(id, targets, 0))
  }

  /** A closed channel: a trigger gives back one share and goes on, the others give back the whole tail and stop. */
  function DoClosed(s: State, a: nat, id: DataId, targets: seq<Target>, next: nat): State
    requires a < |s.agents| && next < |targets|
  {
    if s.agents[a].kind.Trigger? then
      At(s.(entries := Released(s.entries, id)), a, Sending(id, targets, next + 1))
    else
      At(s.(entries := ReleasedTimes(s.entries, id, |targets| - next)), a, Abandon(s.agents[a]))
  }

  function Do(s: State, step: Step): State
    requires Enabled(s, step)
  {
    var a, g := step.a, s.agents[step.a];
    match step
    case Begin(_, payload, targets) => DoBegin(s, a, payload, targets)
    case Send(_) =>
      var c := g.pc.targets[g.pc.next].chan;
      if s.chans[c].closed then DoClosed(s, a, g.pc.id, g.pc.targets, g.pc.next)
      else if HasRoom(s.chans[c]) then
        At(s.(chans := s.chans[c := s.chans[c].(queue := s.chans[c].queue + [g.pc.id])]),
           a, Sending(g.pc.id, g.pc.targets, g.pc.next + 1))
      else
        At(s.(entries := Released(s.entries, g.pc.id)), a, FullReleased(g.pc.id, g.pc.targets, g.pc.next))
    case AfterFull(_) =>
      if s.chans[g.pc.targets[g.pc.next].chan].closed then DoClosed(s, a, g.pc.id, g.pc.targets, g.pc.next)
      else At(s, a, Sending(g.pc.id, g.pc.targets, g.pc.next + 1))
    case Finish(_) => At(s, a, Resume(g))
    case Recv(_) =>
      var c := Inbox(g).value;
      At(s.(chans := s.chans[c := s.chans[c].(queue := s.chans[c].queue[1..])]), a, Received(s.chans[c].queue[0]))
    case Read(_) =>
      if g.pc.id in s.entries then At(s, a, ReadBack(g.pc.id, Some(s.entries[g.pc.id].payload)))
      else if g.kind.Runner? then At(s, a, ReadBack(g.pc.id, None))
      else At(s, a, Idle)
    case GiveBack(_) =>
      At(s.(entries := Released(s.entries, g.pc.id)), a,
         if g.kind.Runner? && g.pc.ReadBack? && g.pc.payload.Some? then Working else Idle)
    case EndWork(_) => At(s, a, Idle)
    case DropInbox(_) =>
      var c := Inbox(g).value;
      At(s.(chans := s.chans[c := s.chans[c].(closed := true)]), a, Stopped)
  }

  // ---- Invariant ----

  /** The store's count of every id is the number of references to it that are still around. */
  ghost predicate Counted(s: State) {
    forall id :: Remaining(s.entries, id) == Outstanding(s, id)
  }

  predicate PayloadsKept(s: State) {
    && (forall id :: id in s.written ==> id < s.nextId)
    && (forall id :: id in s.entries ==> id in s.written && s.written[id] == s.entries[id].payload)
  }

  predicate PcOk(s: State, g: Agent) {
    match g.pc
    case Sending(_, targets, next) =>
      && next <= |targets| && InRange(s, targets)
      && (g.kind.Trigger? ==> forall t :: t in targets ==> t.policy == Block)
    case FullReleased(_, targets, next) => next < |targets| && InRange(s, targets) && !g.kind.Trigger?
    case ReadBack(id, payload) => id in s.written && payload == Some(s.written[id])
    case _ => true
  }

  predicate AgentsOk(s: State) {
    forall i :: 0 <= i < |s.agents| ==> PcOk(s, s.agents[i])
  }

  ghost predicate Inv(s: State) {
    Counted(s) && WellCounted(s.entries) && PayloadsKept(s) && AgentsOk(s)
  }

  predicate Init(s: State) {
    && s.entries == map[] && s.written == map[]
    && (forall i :: 0 <= i < |s.chans| ==> s.chans[i].queue == [] && !s.chans[i].closed)
    && (forall i :: 0 <= i < |s.agents| ==> s.agents[i].pc == Idle)
  }

  /**
   The step that asks is_closed() after `Full` finds the channel closed, while somebody besides this fan-out still
   refers to the payload: it gives back a share that is not its own.
   */
  predicate Harmful(s: State, step: Step) {
    && step.AfterFull? && Enabled(s, step)
    && var pc := s.agents[step.a].pc;
       s.chans[pc.targets[pc.next].chan].closed && Remaining(s.entries, pc.id) != |pc.targets| - pc.next - 1
  }

  // ---- How one step moves references ----

  lemma {:induction false} AgentMoves(s: State, t: State, a: nat, pc: Pc, id: DataId)
    requires a < |s.agents|
    requires t.agents == s.agents[a := s.agents[a].(pc := pc)] && t.chans == s.chans
    ensures Outstanding(t, id) == Outstanding(s, id) - Held(s.agents[a].pc, id) + Held(pc, id)
  {
    SumByUpdate(AgentShare(id), s.agents, a, s.agents[a].(pc := pc));
  }

  lemma {:induction false} ChanMoves(s: State, t: State, a: nat, pc: Pc, c: nat, ch: Chan, id: DataId)
    requires a < |s.agents| && c < |s.chans|
    requires t.agents == s.agents[a := s.agents[a].(pc := pc)] && t.chans == s.chans[c := ch]
    ensures Outstanding(t, id) == Outstanding(s, id) - Held(s.agents[a].pc, id) + Held(pc, id)
                                  - CountIn(s.chans[c].queue, id) + CountIn(ch.queue, id)
  {
    SumByUpdate(AgentShare(id), s.agents, a, s.agents[a].(pc := pc));
    SumByUpdate(QueueShare(id), s.chans, c, ch);
  }

  /** Whoever holds a share of an id keeps its entry alive. */
  lemma {:induction false} HeldIsAlive(s: State, a: nat, id: DataId)
    requires Counted(s) && a < |s.agents|
    ensures Remaining(s.entries, id) >= Held(s.agents[a].pc, id)
  {
    SumByAtLeast(AgentShare(id), s.agents, a);
    assert Remaining(s.entries, id) == Outstanding(s, id);
  }

  // ---- The invariant is inductive ----

  lemma {:induction false} InitInv(s: State)
    requires Init(s)
    ensures Inv(s)
  {
    forall id ensures Remaining(s.entries, id) == Outstanding(s, id) {
      SumByZero(QueueShare(id), s.chans);
      SumByZero(AgentShare(id), s.agents);
    }
  }

  lemma {:induction false} BeginKeeps(s: State, step: Step)
    requires Inv(s) && step.Begin? && Enabled(s, step)
    ensures Inv(Do(s, step))
  {
    var t := Do(s, step);
    var a := step.a;
    forall id ensures Remaining(t.entries, id) == Outstanding(t, id) {
      AgentMoves(s, t, a, t.agents[a].pc, id);
      assert Remaining(s.entries, id) == Outstanding(s, id);
    }
    OthersKeep(s, t, a);
  }

  lemma {:induction false} ClosedKeeps(s: State, a: nat)
    requires Inv(s) && a < |s.agents|
    requires var pc := s.agents[a].pc; pc.Sending? && pc.next < |pc.targets|
    ensures var pc := s.agents[a].pc; Inv(DoClosed(s, a, pc.id, pc.targets, pc.next))
  {
    var pc := s.agents[a].pc;
    var n := if s.agents[a].kind.Trigger? then 1 else |pc.targets| - pc.next;
    var t := DoClosed(s, a, pc.id, pc.targets, pc.next);
    assert t.entries == ReleasedTimes(s.entries, pc.id, n) by {
      assert ReleasedTimes(s.entries, pc.id, 1) == Released(ReleasedTimes(s.entries, pc.id, 0), pc.id);
    }
    ReleasedTimesCounts(s.entries, pc.id, n);
    HeldIsAlive(s, a, pc.id);
    forall id ensures Remaining(t.entries, id) == Outstanding(t, id) {
      AgentMoves(s, t, a, t.agents[a].pc, id);
      assert Remaining(s.entries, id) == Outstanding(s, id);
    }
    OthersKeep(s, t, a);
  }

  /** A send to a channel with room: the share goes with the message. */
  lemma {:induction false} QueuedKeeps(s: State, step: Step)
    requires Inv(s) && step.Send? && Enabled(s, step)
    requires var pc := s.agents[step.a].pc; var c := s.chans[pc.targets[pc.next].chan]; !c.closed && HasRoom(c)
    ensures Inv(Do(s, step))
  {
    var t := Do(s, step);
    var a, pc := step.a, s.agents[step.a].pc;
    var c := pc.targets[pc.next].chan;
    HeldIsAlive(s, a, pc.id);
    forall id ensures Remaining(t.entries, id) == Outstanding(t, id) {
      ChanMoves(s, t, a, t.agents[a].pc, c, t.chans[c], id);
      assert Remaining(s.entries, id) == Outstanding(s, id);
    }
    OthersKeep(s, t, a);
  }

  /** A DropNewest send to a full channel: the share is given back. */
  lemma {:induction false} FullKeeps(s: State, step: Step)
    requires Inv(s) && step.Send? && Enabled(s, step)
    requires var pc := s.agents[step.a].pc; var c := s.chans[pc.targets[pc.next].chan]; !c.closed && !HasRoom(c)
    ensures Inv(Do(s, step))
  {
    var t := Do(s, step);
    var a, pc := step.a, s.agents[step.a].pc;
    HeldIsAlive(s, a, pc.id);
    assert PcOk(s, s.agents[a]);
    forall id ensures Remaining(t.entries, id) == Outstanding(t, id) {
      AgentMoves(s, t, a, t.agents[a].pc, id);
      assert Remaining(s.entries, id) == Outstanding(s, id);
    }
    OthersKeep(s, t, a);
  }

  /** An agent that does not move stays in order as long as the channels keep their number. */
  lemma {:induction false} OthersKeep(s: State, t: State, a: nat)
    requires AgentsOk(s) && a < |s.agents| && |t.agents| == |s.agents| && |t.chans| == |s.chans|
    requires forall id :: id in s.written ==> id in t.written && t.written[id] == s.written[id]
    requires forall i :: 0 <= i < |s.agents| && i != a ==> t.agents[i] == s.agents[i]
    requires PcOk(t, t.agents[a])
    ensures AgentsOk(t)
  {
    forall i | 0 <= i < |t.agents| ensures PcOk(t, t.agents[i]) {
      assert PcOk(s, s.agents[i]);
    }
  }

  lemma {:induction false} SendKeeps(s: State, step: Step)
    requires Inv(s) && step.Send? && Enabled(s, step)
    ensures Inv(Do(s, step))
  {
    var pc := s.agents[step.a].pc;
    var c := s.chans[pc.targets[pc.next].chan];
    if c.closed {
      ClosedKeeps(s, step.a);
    } else if HasRoom(c) {
      QueuedKeeps(s, step);
    } else {
      FullKeeps(s, step);
    }
  }

  lemma {:induction false} RecvKeeps(s: State, step: Step)
    requires Inv(s) && step.Recv? && Enabled(s, step)
    ensures Inv(Do(s, step))
  {
    var t := Do(s, step);
    var a := step.a;
    var c := Inbox(s.agents[a]).value;
    assert s.chans[c].queue == [s.chans[c].queue[0]] + s.chans[c].queue[1..];
    forall id ensures Remaining(t.entries, id) == Outstanding(t, id) {
      ChanMoves(s, t, a, t.agents[a].pc, c, t.chans[c], id);
      assert Remaining(s.entries, id) == Outstanding(s, id);
    }
    OthersKeep(s, t, a);
  }

  lemma {:induction false} DropInboxKeeps(s: State, step: Step)
    requires Inv(s) && step.DropInbox? && Enabled(s, step)
    ensures Inv(Do(s, step))
  {
    var t := Do(s, step);
    var a := step.a;
    var c := Inbox(s.agents[a]).value;
    forall id ensures Remaining(t.entries, id) == Outstanding(t, id) {
      ChanMoves(s, t, a, t.agents[a].pc, c, t.chans[c], id);
      assert Remaining(s.entries, id) == Outstanding(s, id);
    }
    OthersKeep(s, t, a);
  }

  /** Reading gives what was written, and giving back returns the share in hand. */
  lemma {:induction false} ShareKeeps(s: State, step: Step)
    requires Inv(s) && (step.Read? || step.GiveBack?) && Enabled(s, step)
    ensures Inv(Do(s, step))
  {
    var t := Do(s, step);
    var a := step.a;
    assert PcOk(s, s.agents[a]);
    HeldIsAlive(s, a, s.agents[a].pc.id);
    forall id ensures Remaining(t.entries, id) == Outstanding(t, id) {
      AgentMoves(s, t, a, t.agents[a].pc, id);
      assert Remaining(s.entries, id) == Outstanding(s, id);
    }
    OthersKeep(s, t, a);
  }

  lemma {:induction false} LocalKeeps(s: State, step: Step)
    requires Inv(s) && (step.Finish? || step.EndWork?) && Enabled(s, step)
    ensures Inv(Do(s, step))
  {
    var t := Do(s, step);
    var a := step.a;
    forall id ensures Remaining(t.entries, id) == Outstanding(t, id) {
      AgentMoves(s, t, a, t.agents[a].pc, id);
      assert Remaining(s.entries, id) == Outstanding(s, id);
    }
    OthersKeep(s, t, a);
  }

  /** After `Full`: an open channel changes nothing; a closed one gives back one share more than the fan-out holds. */
  lemma {:induction false} AfterFullEntries(s: State, step: Step)
    requires Inv(s) && step.AfterFull? && Enabled(s, step)
    ensures var t, pc := Do(s, step), s.agents[step.a].pc;
            var n := |pc.targets| - pc.next;
            && t.entries == (if s.chans[pc.targets[pc.next].chan].closed then ReleasedTimes(s.entries, pc.id, n) else s.entries)
            && Held(pc, pc.id) == n - 1
            && Held(t.agents[step.a].pc, pc.id) == if s.chans[pc.targets[pc.next].chan].closed then 0 else n - 1
  {
    assert PcOk(s, s.agents[step.a]);
  }

  lemma {:induction false} AfterFullKeeps(s: State, step: Step)
    requires Inv(s) && step.AfterFull? && Enabled(s, step) && !Harmful(s, step)
    ensures Inv(Do(s, step))
  {
    var t, a, pc := Do(s, step), step.a, s.agents[step.a].pc;
    assert PcOk(s, s.agents[a]);
    AfterFullEntries(s, step);
    ReleasedTimesCounts(s.entries, pc.id, |pc.targets| - pc.next);
    forall id ensures Remaining(t.entries, id) == Outstanding(t, id) {
      AgentMoves(s, t, a, t.agents[a].pc, id);
      assert Remaining(s.entries, id) == Outstanding(s, id);
    }
    OthersKeep(s, t, a);
  }

  /**
   Asking is_closed() after `Full` keeps the counts exact iff the channel is still open, or no reference to the
   payload is left besides the shares this fan-out has yet to send.
   */
  lemma {:induction false} WindowIsExact(s: State, step: Step)
    requires Counted(s) && WellCounted(s.entries) && step.AfterFull? && Enabled(s, step) && !s.agents[step.a].kind.Trigger?
    ensures Counted(Do(s, step)) <==> !Harmful(s, step)
  {
    var t, a, pc := Do(s, step), step.a, s.agents[step.a].pc;
    var n := |pc.targets| - pc.next;
    HeldIsAlive(s, a, pc.id);
    ReleasedTimesCounts(s.entries, pc.id, n);
    forall id ensures Outstanding(t, id) == Outstanding(s, id) - Held(pc, id) + Held(t.agents[a].pc, id) {
      AgentMoves(s, t, a, t.agents[a].pc, id);
    }
    assert forall id :: Remaining(s.entries, id) == Outstanding(s, id);
    if Harmful(s, step) {
      assert Remaining(t.entries, pc.id) != Outstanding(t, pc.id);
    }
  }

  /** Every step of every agent keeps the invariant, unless it is harmful. */
  lemma {:induction false} StepKeepsInv(s: State, step: Step)
    requires Inv(s) && Enabled(s, step) && !Harmful(s, step)
    ensures Inv(Do(s, step))
  {
    match step
    case Begin(_, _, _) => BeginKeeps(s, step);
    case Send(_) => SendKeeps(s, step);
    case AfterFull(_) => AfterFullKeeps(s, step);
    case Recv(_) => RecvKeeps(s, step);
    case DropInbox(_) => DropInboxKeeps(s, step);
    case Read(_) => ShareKeeps(s, step);
    case GiveBack(_) => ShareKeeps(s, step);
    case _ => LocalKeeps(s, step);
  }

  lemma {:induction false} StepIsExact(s: State, step: Step)
    requires Inv(s) && Enabled(s, step)
    ensures Counted(Do(s, step)) <==> !Harmful(s, step)
  {
    if Harmful(s, step) {
      assert PcOk(s, s.agents[step.a]);
      WindowIsExact(s, step);
    } else {
      StepKeepsInv(s, step);
    }
  }

  // ---- All runs ----

  ghost predicate IsRun(states: seq<State>, steps: seq<Step>) {
    && |states| == |steps| + 1
    && Init(states[0])
    && forall i :: 0 <= i < |steps| ==> Enabled(states[i], steps[i]) && states[i + 1] == Do(states[i], steps[i])
  }

  /** None of the first n steps is harmful. */
  predicate Harmless(states: seq<State>, steps: seq<Step>, n: nat)
    requires |states| == |steps| + 1 && n <= |steps|
  {
    forall i :: 0 <= i < n ==> !Harmful(states[i], steps[i])
  }

  lemma {:induction false} HarmlessKeepsInv(states: seq<State>, steps: seq<Step>, n: nat)
    requires IsRun(states, steps) && n <= |steps| && Harmless(states, steps, n)
    ensures Inv(states[n])
  {
    if n == 0 {
      InitInv(states[0]);
    } else {
      HarmlessKeepsInv(states, steps, n - 1);
      StepKeepsInv(states[n - 1], steps[n - 1]);
    }
  }

  /** A run keeps the store's counts exact all along iff it takes no harmful step. */
  lemma {:induction false} RunsAreCounted(states: seq<State>, steps: seq<Step>, n: nat)
    requires IsRun(states, steps) && n <= |steps|
    ensures (forall k :: 0 <= k <= n ==> Counted(states[k])) <==> Harmless(states, steps, n)
  {
    if Harmless(states, steps, n) {
      forall k | 0 <= k <= n ensures Counted(states[k]) {
        HarmlessKeepsInv(states, steps, k);
      }
    } else {
      FirstHarm(states, steps, n);
    }
  }

  lemma {:induction false} FirstHarm(states: seq<State>, steps: seq<Step>, n: nat)
    requires IsRun(states, steps) && n <= |steps| && !Harmless(states, steps, n)
    ensures exists k :: 0 <= k <= n && !Counted(states[k])
  {
    if Harmless(states, steps, n - 1) {
      HarmlessKeepsInv(states, steps, n - 1);
      StepIsExact(states[n - 1], steps[n - 1]);
      assert !Counted(states[n]);
    } else {
      FirstHarm(states, steps, n - 1);
    }
  }

  /** A reference taken from a channel always reads back exactly the payload written under its id. */
  lemma {:induction false} ReceivedIsReadable(states: seq<State>, steps: seq<Step>, k: nat)
    requires IsRun(states, steps) && k < |steps| && Harmless(states, steps, k) && steps[k].Read?
    ensures var id := states[k].agents[steps[k].a].pc.id;
            && id in states[k].written
            && states[k + 1].agents[steps[k].a].pc == ReadBack(id, Some(states[k].written[id]))
  {
    HarmlessKeepsInv(states, steps, k);
    HeldIsAlive(states[k], steps[k].a, states[k].agents[steps[k].a].pc.id);
  }

  /** The live entries are exactly the ids somebody still refers to: nothing leaks, nothing is freed early. */
  lemma {:induction false} AliveIffOutstanding(states: seq<State>, steps: seq<Step>, k: nat, id: DataId)
    requires IsRun(states, steps) && k <= |steps| && Harmless(states, steps, k)
    ensures id in states[k].entries <==> Outstanding(states[k], id) > 0
  {
    HarmlessKeepsInv(states, steps, k);
    assert Remaining(states[k].entries, id) == Outstanding(states[k], id);
  }

  predicate HoldsNothing(pc: Pc) {
    pc == Idle || pc == Working || pc == Stopping || pc == Stopped
  }

  lemma {:induction false} QuiescentStoreIsEmpty(states: seq<State>, steps: seq<Step>, k: nat)
    requires IsRun(states, steps) && k <= |steps| && Harmless(states, steps, k)
    requires forall i :: 0 <= i < |states[k].chans| ==> states[k].chans[i].queue == []
    requires forall i :: 0 <= i < |states[k].agents| ==> HoldsNothing(states[k].agents[i].pc)
    ensures states[k].entries == map[]
  {
    forall id ensures id !in states[k].entries {
      AliveIffOutstanding(states, steps, k, id);
      SumByZero(QueueShare(id), states[k].chans);
      SumByZero(AgentShare(id), states[k].agents);
    }
  }

  // ---- The window between `try_send` and `is_closed` ----

  /** Some agent gave a share back on `Full` from channel c and has not yet asked whether c is closed. */
  predicate InWindow(s: State, c: nat) {
    exists i :: 0 <= i < |s.agents| && WindowAt(s.agents[i].pc, c)
  }

  predicate WindowAt(pc: Pc, c: nat) {
    pc.FullReleased? && pc.next < |pc.targets| && pc.targets[pc.next].chan == c
  }

  /** The receiver of a channel goes away between a sender's `try_send` and its `is_closed`. */
  predicate Racy(s: State, step: Step) {
    step.DropInbox? && step.a < |s.agents| && Inbox(s.agents[step.a]).Some? && InWindow(s, Inbox(s.agents[step.a]).value)
  }

  predicate WindowsOpen(s: State) {
    forall c :: 0 <= c < |s.chans| && InWindow(s, c) ==> !s.chans[c].closed
  }

  lemma {:induction false} WindowsStayOpen(s: State, step: Step)
    requires WindowsOpen(s) && Enabled(s, step) && !Racy(s, step)
    ensures WindowsOpen(Do(s, step))
  {
    var t, a := Do(s, step), step.a;
    forall c | 0 <= c < |t.chans| && InWindow(t, c) ensures !t.chans[c].closed {
      var i :| 0 <= i < |t.agents| && WindowAt(t.agents[i].pc, c);
      if i != a {
        assert WindowAt(s.agents[i].pc, c);
      }
    }
  }

  /** Harm takes a race: while no receiver leaves inside a window, no step is harmful. */
  lemma {:induction false} HarmTakesARace(states: seq<State>, steps: seq<Step>, n: nat)
    requires IsRun(states, steps) && n <= |steps| && forall i :: 0 <= i < n ==> !Racy(states[i], steps[i])
    ensures WindowsOpen(states[n]) && Harmless(states, steps, n)
  {
    if n > 0 {
      HarmTakesARace(states, steps, n - 1);
      var s, step := states[n - 1], steps[n - 1];
      WindowsStayOpen(s, step);
      if Harmful(s, step) {
        var pc := s.agents[step.a].pc;
        assert WindowAt(pc, pc.targets[pc.next].chan);
        assert InWindow(s, pc.targets[pc.next].chan);
      }
    }
  }
}
