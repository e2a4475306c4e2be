/**
 A run of the data plane in which the window between `try_send` and `is_closed` loses a payload that a
 receiver still refers to (crates/graph/src/runner.rs:286-323).
 */
module DataPlaneRace {
  import opened Prelude
  import opened DataStore
  import opened DataPlane

  /**
   Trigger 0 feeds runners 1 and 3. Runner 1 feeds runner 2 and, dropping when full, runner 3, which has no successor
   and sends its output to the result stream. The store has no limit. The reader of the results goes away, so runner 3
   stops on its next output, while runner 1 stands between `Full` and is_closed() on runner 3's inbox.
   */
  function Snap(entries: Entries, nextId: nat, queues: seq<seq<DataId>>, closed: seq<bool>, pcs: seq<Pc>): State
    requires |queues| == 3 && |closed| == 2 && |pcs| == 5
  {
    State(0, entries, nextId, Written(nextId),
          [Chan(2, queues[0], false), Chan(1, queues[1], false), Chan(1, queues[2], closed[0]), Chan(1, [], closed[1])],
          [Agent(Trigger, pcs[0]), Agent(Runner(0), pcs[1]), Agent(Runner(1), pcs[2]), Agent(Runner(2), pcs[3]),
           Agent(Consumer(3), pcs[4])])
  }

  function Written(n: nat): map<DataId, Value> {
    if n == 0 then map[] else Written(n - 1)[n - 1 := Null]
  }

  const BOTH_OPEN := [false, false]
  const RESULTS_CLOSED := [false, true]
  const BOTH_CLOSED := [true, true]

  const EMITTED := [Target(0, Block), Target(2, Block)]
  const FORWARDED := [Target(1, Block), Target(2, DropNewest)]
  const RESULT := [Target(3, Block)]

  const WINDOW := FullReleased(2, FORWARDED, 1)

  function RaceState(i: nat): State {
    match i
    case 0 => Snap(map[], 0, [[], [], []], BOTH_OPEN, [Idle, Idle, Idle, Idle, Idle])
    // the first payload reaches both runners
    case 1 => Snap(map[0 := Entry(Null, 2)], 1, [[], [], []], BOTH_OPEN, [Sending(0, EMITTED, 0), Idle, Idle, Idle, Idle])
    case 2 => Snap(map[0 := Entry(Null, 2)], 1, [[0], [], []], BOTH_OPEN, [Sending(0, EMITTED, 1), Idle, Idle, Idle, Idle])
    case 3 => Snap(map[0 := Entry(Null, 2)], 1, [[0], [], [0]], BOTH_OPEN, [Sending(0, EMITTED, 2), Idle, Idle, Idle, Idle])
    case 4 => Snap(map[0 := Entry(Null, 2)], 1, [[0], [], [0]], BOTH_OPEN, [Idle, Idle, Idle, Idle, Idle])
    case 5 => Snap(map[0 := Entry(Null, 2)], 1, [[], [], [0]], BOTH_OPEN, [Idle, Received(0), Idle, Idle, Idle])
    case 6 => Snap(map[0 := Entry(Null, 2)], 1, [[], [], []], BOTH_OPEN, [Idle, Received(0), Idle, Received(0), Idle])
    case 7 => Snap(map[0 := Entry(Null, 2)], 1, [[], [], []], BOTH_OPEN, [Idle, ReadBack(0, Some(Null)), Idle, Received(0), Idle])
    case 8 => Snap(map[0 := Entry(Null, 1)], 1, [[], [], []], BOTH_OPEN, [Idle, Working, Idle, Received(0), Idle])
    case 9 => Snap(map[0 := Entry(Null, 1)], 1, [[], [], []], BOTH_OPEN, [Idle, Working, Idle, ReadBack(0, Some(Null)), Idle])
    case 10 => Snap(map[], 1, [[], [], []], BOTH_OPEN, [Idle, Working, Idle, Working, Idle])
    // the second payload fills runner 3's inbox
    case 11 => Snap(map[1 := Entry(Null, 2)], 2, [[], [], []], BOTH_OPEN, [Sending(1, EMITTED, 0), Working, Idle, Working, Idle])
    case 12 => Snap(map[1 := Entry(Null, 2)], 2, [[1], [], []], BOTH_OPEN, [Sending(1, EMITTED, 1), Working, Idle, Working, Idle])
    case 13 => Snap(map[1 := Entry(Null, 2)], 2, [[1], [], [1]], BOTH_OPEN, [Sending(1, EMITTED, 2), Working, Idle, Working, Idle])
    // runner 1 forwards to runner 2, and finds runner 3's inbox full
    case 14 => Snap(map[1 := Entry(Null, 2), 2 := Entry(Null, 2)], 3, [[1], [], [1]], BOTH_OPEN,
                    [Sending(1, EMITTED, 2), Sending(2, FORWARDED, 0), Idle, Working, Idle])
    case 15 => Snap(map[1 := Entry(Null, 2), 2 := Entry(Null, 2)], 3, [[1], [2], [1]], BOTH_OPEN,
                    [Sending(1, EMITTED, 2), Sending(2, FORWARDED, 1), Idle, Working, Idle])
    case 16 => Snap(map[1 := Entry(Null, 2), 2 := Entry(Null, 1)], 3, [[1], [2], [1]], BOTH_OPEN,
                    [Sending(1, EMITTED, 2), WINDOW, Idle, Working, Idle])
    // the results have no reader any more: runner 3 stops and its inbox closes
    case 17 => Snap(map[1 := Entry(Null, 2), 2 := Entry(Null, 1)], 3, [[1], [2], [1]], RESULTS_CLOSED,
                    [Sending(1, EMITTED, 2), WINDOW, Idle, Working, Stopped])
    case 18 => Snap(map[1 := Entry(Null, 2), 2 := Entry(Null, 1), 3 := Entry(Null, 1)], 4, [[1], [2], [1]], RESULTS_CLOSED,
                    [Sending(1, EMITTED, 2), WINDOW, Idle, Sending(3, RESULT, 0), Stopped])
    case 19 => Snap(map[1 := Entry(Null, 2), 2 := Entry(Null, 1)], 4, [[1], [2], [1]], RESULTS_CLOSED,
                    [Sending(1, EMITTED, 2), WINDOW, Idle, Stopping, Stopped])
    case 20 => Snap(map[1 := Entry(Null, 2), 2 := Entry(Null, 1)], 4, [[1], [2], [1]], BOTH_CLOSED,
                    [Sending(1, EMITTED, 2), WINDOW, Idle, Stopped, Stopped])
    // runner 1 now finds the inbox closed and gives back the share that runner 2 holds
    case 21 => Snap(map[1 := Entry(Null, 2)], 4, [[1], [2], [1]], BOTH_CLOSED,
                    [Sending(1, EMITTED, 2), Stopping, Idle, Stopped, Stopped])
    case 22 => Snap(map[1 := Entry(Null, 2)], 4, [[1], [], [1]], BOTH_CLOSED,
                    [Sending(1, EMITTED, 2), Stopping, Received(2), Stopped, Stopped])
    case _ => Snap(map[1 := Entry(Null, 2)], 4, [[1], [], [1]], BOTH_CLOSED,
                   [Sending(1, EMITTED, 2), Stopping, ReadBack(2, None), Stopped, Stopped])
  }

  function RaceStep(i: nat): Step {
    match i
    case 0 => Begin(0, Null, EMITTED)
    case 1 => Send(0)
    case 2 => Send(0)
    case 3 => Finish(0)
    case 4 => Recv(1)
    case 5 => Recv(3)
    case 6 => Read(1)
    case 7 => GiveBack(1)
    case 8 => Read(3)
    case 9 => GiveBack(3)
    case 10 => Begin(0, Null, EMITTED)
    case 11 => Send(0)
    case 12 => Send(0)
    case 13 => Begin(1, Null, FORWARDED)
    case 14 => Send(1)
    case 15 => Send(1)
    case 16 => DropInbox(4)
    case 17 => Begin(3, Null, RESULT)
    case 18 => Send(3)
    case 19 => DropInbox(3)
    case 20 => AfterFull(1)
    case 21 => Recv(2)
    case _ => Read(2)
  }

  predicate Follows(i: nat) {
    Enabled(RaceState(i), RaceStep(i)) && RaceState(i + 1) == Do(RaceState(i), RaceStep(i))
  }

  lemma {:induction false} QueueFacts(x: DataId)
    ensures [] + [x] == [x] && [x][1..] == []
  {
  }

  lemma {:induction false} TriggerStarts(i: nat)
    requires 0 <= i < 2
    ensures Follows(i)
  {
    QueueFacts(0);
    QueueFacts(1);
    QueueFacts(2);
    match i
    case 0 =>
    case _ =>
  }

  lemma {:induction false} TriggerEnds(i: nat)
    requires 2 <= i < 4
    ensures Follows(i)
  {
    QueueFacts(0);
    QueueFacts(1);
    QueueFacts(2);
    match i
    case 2 =>
    case _ =>
  }

  lemma {:induction false} RunnersReceive(i: nat)
    requires 4 <= i < 6
    ensures Follows(i)
  {
    QueueFacts(0);
    QueueFacts(1);
    QueueFacts(2);
    match i
    case 4 =>
    case _ =>
  }

  lemma {:induction false} RunnersRead(i: nat)
    requires 6 <= i < 10
    ensures Follows(i)
  {
    QueueFacts(0);
    QueueFacts(1);
    QueueFacts(2);
    match i
    case 6 =>
    case 7 =>
    case 8 =>
    case _ =>
  }

  lemma {:induction false} TriggerEmitsAgain(i: nat)
    requires 10 <= i < 13
    ensures Follows(i)
  {
    QueueFacts(0);
    QueueFacts(1);
    QueueFacts(2);
    match i
    case 10 =>
    case 11 =>
    case _ =>
  }

  lemma {:induction false} RunnerStarts()
    ensures Follows(13)
  {
    QueueFacts(0);
    QueueFacts(1);
  }

  lemma {:induction false} RunnerSends(i: nat)
    requires 14 <= i < 16
    ensures Follows(i)
  {
    QueueFacts(0);
    QueueFacts(1);
    QueueFacts(2);
    match i
    case 14 =>
    case _ =>
  }

  lemma {:induction false} ReaderLeaves()
    ensures Follows(16)
  {
    QueueFacts(0);
    QueueFacts(1);
  }

  lemma {:induction false} RunnerStops(i: nat)
    requires 17 <= i < 19
    ensures Follows(i)
  {
    QueueFacts(0);
    QueueFacts(1);
    QueueFacts(2);
    match i
    case 17 =>
    case _ =>
  }

  lemma {:induction false} ReceiverLeaves(i: nat)
    requires 19 <= i < 20
    ensures Follows(i)
  {
    QueueFacts(0);
    QueueFacts(1);
    QueueFacts(2);
    match i
    case _ =>
  }

  lemma {:induction false} ShareLostTwice()
    ensures Follows(20)
  {
    var m: Entries := map[1 := Entry(Null, 2), 2 := Entry(Null, 1)];
    assert ReleasedTimes(m, 2, 1) == Released(ReleasedTimes(m, 2, 0), 2);
    assert m - {2} == map[1 := Entry(Null, 2)];
  }

  lemma {:induction false} NothingToRead(i: nat)
    requires 21 <= i < 23
    ensures Follows(i)
  {
    QueueFacts(2);
    match i
    case 21 =>
    case _ =>
  }

  lemma {:induction false} AllFollow(i: nat)
    requires i < 23
    ensures Follows(i)
  {
    if i < 2 { TriggerStarts(i); }
    else if i < 4 { TriggerEnds(i); }
    else if i < 6 { RunnersReceive(i); }
    else if i < 10 { RunnersRead(i); }
    else if i < 13 { TriggerEmitsAgain(i); }
    else if i < 14 { RunnerStarts(); }
    else if i < 16 { RunnerSends(i); }
    else if i < 17 { ReaderLeaves(); }
    else if i < 19 { RunnerStops(i); }
    else if i < 20 { ReceiverLeaves(i); }
    else if i < 21 { ShareLostTwice(); }
    else { NothingToRead(i); }
  }

  lemma {:induction false} RaceIsHarmful()
    ensures Racy(RaceState(19), RaceStep(19)) && Harmful(RaceState(20), RaceStep(20))
  {
    AllFollow(20);
    assert WindowAt(RaceState(19).agents[1].pc, 2);
  }

  lemma {:induction false} RaceEnds()
    ensures var s := RaceState(23); |s.agents| == 5 && s.agents[2].pc == ReadBack(2, None) && 2 in s.written
  {
    assert Written(4) == Written(3)[3 := Null] && Written(3) == Written(2)[2 := Null];
  }

  /** The graph has no cycle and the store no limit; in the end runner 2 has received a reference to nothing. */
  lemma {:induction false} RaceLosesPayload(states: seq<State>, steps: seq<Step>)
    requires |states| == 24 && forall i :: 0 <= i < 24 ==> states[i] == RaceState(i)
    requires |steps| == 23 && forall i :: 0 <= i < 23 ==> steps[i] == RaceStep(i)
    ensures IsRun(states, steps)
    ensures Racy(states[19], steps[19]) && Harmful(states[20], steps[20])
    ensures |states[23].agents| == 5 && states[23].agents[2].pc == ReadBack(2, None) && 2 in states[23].written
  {
    forall i | 0 <= i < 23 ensures Enabled(states[i], steps[i]) && states[i + 1] == Do(states[i], steps[i]) {
      AllFollow(i);
    }
    RaceStarts();
    RaceIsHarmful();
    RaceEnds();
  }

  lemma {:induction false} RaceStarts()
    ensures Init(RaceState(0))
  {
  }
}
