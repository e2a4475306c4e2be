/** What every run of the data plane keeps besides the counts: order, capacities, policies and stopped runners. */
module DataPlaneOrder {
  import opened Prelude
  import opened DataStore
  import opened DataPlane

  // ---- Order within a channel ----

  /** The step puts this reference into channel c. */
  function Puts(s: State, step: Step, c: nat): seq<DataId>
    requires Enabled(s, step)
  {
    if !step.Send? then []
    else
      var pc := s.agents[step.a].pc;
      var to := pc.targets[pc.next].chan;
      if to == c && !s.chans[to].closed && |s.chans[to].queue| < s.chans[to].capacity then [pc.id] else []
  }

  /** The step takes a reference from channel c: the agent that receives on c then holds it. */
  function Takes(s: State, step: Step, t: State, c: nat): seq<DataId>
    requires Enabled(s, step)
  {
    if !step.Recv? || Inbox(s.agents[step.a]) != Some(c) || step.a >= |t.agents| || !t.agents[step.a].pc.Received? then []
    else [t.agents[step.a].pc.id]
  }

  function PutAll(states: seq<State>, steps: seq<Step>, c: nat, n: nat): seq<DataId>
    requires |states| == |steps| + 1 && n <= |steps| && forall i :: 0 <= i < |steps| ==> Enabled(states[i], steps[i])
  {
    if n == 0 then [] else PutAll(states, steps, c, n - 1) + Puts(states[n - 1], steps[n - 1], c)
  }

  function TakenAll(states: seq<State>, steps: seq<Step>, c: nat, n: nat): seq<DataId>
    requires |states| == |steps| + 1 && n <= |steps| && forall i :: 0 <= i < |steps| ==> Enabled(states[i], steps[i])
  {
    if n == 0 then [] else TakenAll(states, steps, c, n - 1) + Takes(states[n - 1], steps[n - 1], states[n], c)
  }

  lemma {:induction false} QueueNext(s: State, step: Step, t: State, c: nat)
    requires Enabled(s, step) && t == Do(s, step) && c < |s.chans|
    ensures |t.chans| == |s.chans| && t.chans[c].capacity == s.chans[c].capacity
    ensures s.chans[c].queue + Puts(s, step, c) == Takes(s, step, t, c) + t.chans[c].queue
    ensures |s.chans[c].queue| <= s.chans[c].capacity ==> |t.chans[c].queue| <= t.chans[c].capacity
  {
    match step
    case Send(a) =>
    case Recv(a) =>
      if Inbox(s.agents[a]) == Some(c) {
        assert s.chans[c].queue == [s.chans[c].queue[0]] + s.chans[c].queue[1..];
      }
    case _ =>
  }

  lemma {:induction false} Regroup(taken: seq<DataId>, queue: seq<DataId>, puts: seq<DataId>, takes: seq<DataId>, queue': seq<DataId>)
    requires queue + puts == takes + queue'
    ensures (taken + queue) + puts == (taken + takes) + queue'
  {
    assert (taken + queue) + puts == taken + (queue + puts);
  }

  /** First in, first out on every channel, in any run: what was put is what was taken and then what is queued, in order. */
  lemma {:induction false} ChannelsKeepOrder(states: seq<State>, steps: seq<Step>, c: nat, n: nat)
    requires IsRun(states, steps) && n <= |steps| && c < |states[0].chans|
    ensures c < |states[n].chans| && PutAll(states, steps, c, n) == TakenAll(states, steps, c, n) + states[n].chans[c].queue
    ensures |states[n].chans[c].queue| <= states[n].chans[c].capacity == states[0].chans[c].capacity
  {
    if n > 0 {
      ChannelsKeepOrder(states, steps, c, n - 1);
      var s, step, t := states[n - 1], steps[n - 1], states[n];
      QueueNext(s, step, t, c);
      Regroup(TakenAll(states, steps, c, n - 1), s.chans[c].queue, Puts(s, step, c), Takes(s, step, t, c), t.chans[c].queue);
    }
  }

  // ---- The store's limit ----

  lemma {:induction false} StoreNext(s: State, step: Step)
    requires Enabled(s, step) && (s.capacity > 0 ==> |s.entries| <= s.capacity)
    ensures var t := Do(s, step); t.capacity == s.capacity && (t.capacity > 0 ==> |t.entries| <= t.capacity)
  {
    match step
    case Send(a) =>
      var pc := s.agents[a].pc;
      ReleaseShrinks(s.entries, pc.id, 1);
      ReleaseShrinks(s.entries, pc.id, |pc.targets| - pc.next);
    case AfterFull(a) =>
      var pc := s.agents[a].pc;
      ReleaseShrinks(s.entries, pc.id, 1);
      ReleaseShrinks(s.entries, pc.id, |pc.targets| - pc.next);
    case GiveBack(a) => ReleaseShrinks(s.entries, s.agents[a].pc.id, 1);
    case _ =>
  }

  lemma {:induction false} ReleaseShrinks(m: Entries, id: DataId, n: nat)
    ensures |ReleasedTimes(m, id, n)| <= |m| && (n == 1 ==> ReleasedTimes(m, id, n) == Released(m, id))
  {
    if n > 0 {
      ReleaseShrinks(m, id, n - 1);
      var m' := ReleasedTimes(m, id, n - 1);
      if id in m' {
        assert (m' - {id}).Keys == m'.Keys - {id};
        assert m'[id := m'[id].(remaining := Decremented(m'[id].remaining))].Keys == m'.Keys;
      }
      if n == 1 {
        assert m' == m;
      }
    }
  }

  lemma {:induction false} StoreKeepsLimit(states: seq<State>, steps: seq<Step>, n: nat)
    requires IsRun(states, steps) && n <= |steps|
    ensures states[n].capacity == states[0].capacity
    ensures states[0].capacity > 0 ==> |states[n].entries| <= states[0].capacity
  {
    if n > 0 {
      StoreKeepsLimit(states, steps, n - 1);
      StoreNext(states[n - 1], steps[n - 1]);
    }
  }

  // ---- Only DropNewest drops ----

  /** An agent that gave a share back on `Full` was sending under DropNewest, and is a runner. */
  predicate DropsByPolicy(g: Agent) {
    && (g.pc.FullReleased? ==> g.kind.Runner? && g.pc.next < |g.pc.targets| && g.pc.targets[g.pc.next].policy == DropNewest)
    && (g.pc.Sending? && !g.kind.Runner? ==> forall t :: t in g.pc.targets ==> t.policy == Block)
  }

  lemma {:induction false} DropsNext(s: State, step: Step, t: State, i: nat)
    requires Enabled(s, step) && t == Do(s, step) && i < |s.agents| && DropsByPolicy(s.agents[i])
    ensures i < |t.agents| && DropsByPolicy(t.agents[i])
  {
  }

  /** A message on a Block edge is never dropped for want of room, in any run. */
  lemma {:induction false} OnlyDropNewestDrops(states: seq<State>, steps: seq<Step>, n: nat, i: nat)
    requires IsRun(states, steps) && n <= |steps| && i < |states[0].agents|
    ensures i < |states[n].agents| && DropsByPolicy(states[n].agents[i])
  {
    if n > 0 {
      OnlyDropNewestDrops(states, steps, n - 1, i);
      DropsNext(states[n - 1], steps[n - 1], states[n], i);
    }
  }

  // ---- A closed channel ----

  /**
   A send that finds its channel closed: a runner stops, an ingress call ends with an error, and a trigger goes on with
   its next target. Nothing is queued.
   */
  lemma {:induction false} ClosedSend(s: State, step: Step)
    requires Enabled(s, step) && step.Send?
    requires var pc := s.agents[step.a].pc; s.chans[pc.targets[pc.next].chan].closed
    ensures var g, g', pc := s.agents[step.a], Do(s, step).agents[step.a], s.agents[step.a].pc;
            && Do(s, step).chans == s.chans
            && (g.kind.Runner? ==> g'.pc == Stopping)
            && (g.kind.Submitter? ==> g'.pc == Idle)
            && (g.kind.Trigger? ==> g'.pc == Sending(pc.id, pc.targets, pc.next + 1))
  {
  }

  lemma {:induction false} StoppedNext(s: State, step: Step, t: State, i: nat)
    requires Enabled(s, step) && t == Do(s, step) && i < |s.agents|
    requires s.agents[i].kind.Runner? && (s.agents[i].pc == Stopping || s.agents[i].pc == Stopped)
    ensures i < |t.agents| && t.agents[i].kind == s.agents[i].kind
    ensures t.agents[i].pc == Stopping || t.agents[i].pc == Stopped
    ensures step.a == i ==> step.DropInbox?
  {
  }

  /** A runner that left its loop takes, stores and sends nothing any more. */
  lemma {:induction false} StoppedForGood(states: seq<State>, steps: seq<Step>, m: nat, n: nat, i: nat)
    requires IsRun(states, steps) && m <= n <= |steps| && i < |states[m].agents|
    requires states[m].agents[i].kind.Runner? && (states[m].agents[i].pc == Stopping || states[m].agents[i].pc == Stopped)
    ensures i < |states[n].agents| && states[n].agents[i].kind.Runner?
    ensures states[n].agents[i].pc == Stopping || states[n].agents[i].pc == Stopped
    ensures forall k :: m <= k < n && steps[k].a == i ==> steps[k].DropInbox?
    decreases n
  {
    if m < n {
      StoppedForGood(states, steps, m, n - 1, i);
      StoppedNext(states[n - 1], steps[n - 1], states[n], i);
    }
  }
}
