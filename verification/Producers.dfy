/**
 The loops that hand one stored payload to several channels: the runner's fan-out, the ingress and the trigger
 handle, run without interference. Each channel's answer to an attempt is given as an argument.
 Sources: crates/graph/src/runner.rs, crates/graph/src/types.rs, crates/core/src/lifecycle.rs.
 */
module Producers {
  import opened Prelude
  import opened DataStore
  import opened DataPlane

  /** `closedSince`: what is_closed() says when it is asked after `Full`. A Block send is never `Full`. */
  datatype Answer = Accepted | Full(closedSince: bool) | Closed

  predicate Stops(a: Answer) {
    a == Closed || a == Full(true)
  }

  predicate StopsBefore(answers: seq<Answer>, k: nat)
    requires k <= |answers|
  {
    exists j :: 0 <= j < k && Stops(answers[j])
  }

  /** The targets that get the message when the first closed channel ends the loop. */
  function Reached(answers: seq<Answer>): set<nat> {
    set k: nat | k < |answers| && answers[k] == Accepted && !StopsBefore(answers, k)
  }

  /** The targets that get the message when closed channels are skipped. */
  function AllAccepted(answers: seq<Answer>): set<nat> {
    set k: nat | k < |answers| && answers[k] == Accepted
  }

  /** The loop ended on a channel that was full when tried and closed when asked. */
  predicate Raced(answers: seq<Answer>) {
    exists k :: 0 <= k < |answers| && answers[k] == Full(true) && !StopsBefore(answers, k)
  }

  /** A store that holds `payload` for n more readers, and does not hold it for none. */
  function Shared(m: Entries, id: DataId, payload: Value, n: nat): Entries {
    if n == 0 then m else m[id := Entry(payload, n)]
  }

  /** Writing for n readers and giving back k shares leaves the payload for exactly n - k readers. */
  lemma {:induction false} WriteThenRelease(m: Entries, id: DataId, payload: Value, n: nat, k: nat)
    requires id !in m && k <= n && n > 0
    ensures ReleasedTimes(m[id := Entry(payload, n)], id, k) == Shared(m, id, payload, n - k)
  {
    if k > 0 {
      WriteThenRelease(m, id, payload, n, k - 1);
      assert m[id := Entry(payload, n - k + 1)] - {id} == m;
    }
  }

  method ReleaseMany(store: ArenaDataStore, id: DataId, n: nat)
    requires store.Valid()
    modifies store`entries
    ensures store.Valid()
    ensures store.entries == ReleasedTimes(old(store.entries), id, n)
  {
    for i := 0 to n
      invariant store.Valid()
      invariant store.entries == ReleasedTimes(old(store.entries), id, i)
    {
      store.Release(id);
    }
  }

  /** What is settled once the loop meets its first closed channel. */
  lemma {:induction false} StopsAt(answers: seq<Answer>, n: nat)
    requires n < |answers| && !StopsBefore(answers, n) && Stops(answers[n])
    ensures StopsBefore(answers, |answers|)
    ensures Reached(answers) == set k: nat | k < n && answers[k] == Accepted
    ensures Raced(answers) <==> answers[n].Full?
  {
    assert forall k: nat :: n < k <= |answers| ==> StopsBefore(answers, k);
  }

  /**
   The runner's loop over its targets. Everything that is not delivered is given back, once; only a receiver
   that leaves inside the window makes it one share too many.
   */
  method FanOut(store: ArenaDataStore, id: DataId, policies: seq<Policy>, answers: seq<Answer>)
    returns (delivered: set<nat>, failed: bool)
    requires store.Valid() && |answers| == |policies|
    requires forall k :: 0 <= k < |answers| && answers[k].Full? ==> policies[k] == DropNewest
    modifies store`entries
    ensures store.Valid()
    ensures delivered == Reached(answers)
    ensures failed <==> StopsBefore(answers, |answers|)
    ensures |delivered| <= |policies|
    ensures store.entries ==
            ReleasedTimes(old(store.entries), id, |policies| - |delivered| + if Raced(answers) then 1 else 0)
  {
    delivered, failed := {}, false;
    var given := 0;
    var sent := 0;
    while sent < |policies|
      invariant 0 <= sent <= |policies| && store.Valid()
      invariant !StopsBefore(answers, sent)
      invariant delivered == set k: nat | k < sent && answers[k] == Accepted
      invariant |delivered| + given == sent
      invariant store.entries == ReleasedTimes(old(store.entries), id, given)
    {
      var ok := answers[sent] == Accepted;
      if policies[sent] == DropNewest && answers[sent].Full? {
        store.Release(id);
        given := given + 1;
      }
      if !ok {
        var isClosed := Stops(answers[sent]);
        if isClosed {
          label Tail: ReleaseMany(store, id, |policies| - sent);
          ReleasedTimesAdd(old(store.entries), id, given, |policies| - sent);
          StopsAt(answers, sent);
          return delivered, true;
        }
      } else {
        delivered := delivered + {sent};
      }
      sent := sent + 1;
    }
    assert forall k: nat :: k < |answers| ==> !StopsBefore(answers, k);
  }

  /** WorkflowIngress::submit: with no root it refuses before writing; otherwise only delivered shares remain. */
  method Submit(store: ArenaDataStore, payload: Value, answers: seq<Answer>)
    returns (delivered: set<nat>, ok: bool)
    requires store.Valid()
    requires forall k :: 0 <= k < |answers| ==> !answers[k].Full?
    modifies store
    ensures store.Valid()
    ensures ok <==> answers != [] && !AtCapacity(old(store.entries), store.capacity) && Closed !in answers
    ensures answers == [] || AtCapacity(old(store.entries), store.capacity) ==>
              delivered == {} && store.entries == old(store.entries)
    ensures !(answers == [] || AtCapacity(old(store.entries), store.capacity)) ==>
              && delivered == Reached(answers)
              && store.entries == Shared(old(store.entries), old(store.nextId), payload, |delivered|)
  {
    if answers == [] {
      return {}, false;
    }
    var w := store.Write(payload, |answers|);
    if w.Err? {
      return {}, false;
    }
    var failed;
    delivered, failed := FanOut(store, w.value, seq(|answers|, _ => Block), answers);
    WriteThenRelease(old(store.entries), w.value, payload, |answers|, |answers| - |delivered|);
    ok := !failed;
  }

  /** submit_to and blocking_submit_to: the named root either owns the payload or nothing was stored. */
  method SubmitTo(store: ArenaDataStore, known: bool, payload: Value, answer: Answer) returns (ok: bool)
    requires store.Valid() && !answer.Full?
    modifies store
    ensures store.Valid()
    ensures ok <==> known && !AtCapacity(old(store.entries), store.capacity) && answer == Accepted
    ensures store.entries == Shared(old(store.entries), old(store.nextId), payload, if ok then 1 else 0)
  {
    if !known {
      return false;
    }
    var w := store.Write(payload, 1);
    if w.Err? {
      return false;
    }
    if answer == Closed {
      store.Release(w.value);
      assert store.entries == old(store.entries);
      return false;
    }
    return true;
  }

  /** What emit tells the event channel. A summary covers one message on the edge to a target. */
  datatype EmitEvent =
    | EmitStarted
    | EmitSummary(target: nat, queueDepth: nat, bytes: nat)
    | EmitCompleted(metadata: Option<map<string, Value>>)

  function Summaries(answers: seq<Answer>, n: nat, depth: nat -> nat, bytes: nat): seq<EmitEvent>
    requires n <= |answers|
  {
    if n == 0 then []
    else Summaries(answers, n - 1, depth, bytes) + if answers[n - 1] == Accepted then [EmitSummary(n - 1, depth(n - 1), bytes)] else []
  }

  /** One summary for each message that was sent, in the order of the targets, and no other event. */
  lemma {:induction false} SummariesFitDeliveries(answers: seq<Answer>, n: nat, depth: nat -> nat, bytes: nat)
    requires n <= |answers|
    ensures var events := Summaries(answers, n, depth, bytes);
            && (forall e :: e in events ==> e.EmitSummary? && e.target < n && e.target in AllAccepted(answers)
                                            && e == EmitSummary(e.target, depth(e.target), bytes))
            && (forall k :: 0 <= k < n && k in AllAccepted(answers) ==> EmitSummary(k, depth(k), bytes) in events)
            && (forall i, j :: 0 <= i < j < |events| ==>
                  events[i].EmitSummary? && events[j].EmitSummary? && events[i].target < events[j].target)
  {
    if n > 0 {
      SummariesFitDeliveries(answers, n - 1, depth, bytes);
      var front := Summaries(answers, n - 1, depth, bytes);
      assert forall i :: 0 <= i < |front| ==> front[i] in front;
    }
  }

  /** The sending loop of emit: a closed channel costs one share and the loop goes on. */
  method SendEach(store: ArenaDataStore, id: DataId, answers: seq<Answer>, depth: nat -> nat, bytes: nat)
    returns (delivered: set<nat>, events: seq<EmitEvent>)
    requires store.Valid()
    requires forall k :: 0 <= k < |answers| ==> !answers[k].Full?
    modifies store`entries
    ensures store.Valid()
    ensures delivered == AllAccepted(answers) && |delivered| <= |answers|
    ensures events == Summaries(answers, |answers|, depth, bytes)
    ensures store.entries == ReleasedTimes(old(store.entries), id, |answers| - |delivered|)
  {
    delivered, events := {}, [];
    var given := 0;
    for k := 0 to |answers|
      invariant store.Valid()
      invariant delivered == set j: nat | j < k && answers[j] == Accepted
      invariant |delivered| + given == k
      invariant events == Summaries(answers, k, depth, bytes)
      invariant store.entries == ReleasedTimes(old(store.entries), id, given)
    {
      if answers[k] == Closed {
        store.Release(id);
        given := given + 1;
      } else {
        delivered := delivered + {k};
        events := events + [EmitSummary(k, depth(k), bytes)];
      }
    }
  }

  /**
   NodeHandle::emit goes on after a closed channel, and keeps nothing without downstream. Its events are one Started,
   a summary for each message sent, and one Completed; a refused payload has none. `depth` is what a channel holds
   right after the send, `bytes` the length of the payload.
   */
  method Emit(store: ArenaDataStore, payload: Value, metadata: map<string, Value>, answers: seq<Answer>, depth: nat -> nat, bytes: nat)
    returns (delivered: set<nat>, events: seq<EmitEvent>, ok: bool)
    requires store.Valid()
    requires forall k :: 0 <= k < |answers| ==> !answers[k].Full?
    modifies store
    ensures store.Valid()
    ensures ok <==> !AtCapacity(old(store.entries), store.capacity)
    ensures delivered == if ok then AllAccepted(answers) else {}
    ensures store.entries == Shared(old(store.entries), old(store.nextId), payload, |delivered|)
    ensures events == if !ok then []
                      else [EmitStarted] + Summaries(answers, |answers|, depth, bytes)
                           + [EmitCompleted(if metadata == map[] then None else Some(metadata))]
  {
    var w := store.Write(payload, Max(|answers|, 1));
    if w.Err? {
      return {}, [], false;
    }
    if answers == [] {
      store.Release(w.value);
      assert store.entries == old(store.entries);
    }
    var summaries;
    delivered, summaries := SendEach(store, w.value, answers, depth, bytes);
    if answers != [] {
      WriteThenRelease(old(store.entries), w.value, payload, |answers|, |answers| - |delivered|);
    }
    events := [EmitStarted] + summaries + [EmitCompleted(if metadata == map[] then None else Some(metadata))];
    ok := true;
  }

  /** WorkflowStreams::next_result on the queue of the result stream. */
  method NextResult(store: ArenaDataStore, queue: seq<DataId>) returns (r: Option<Value>, rest: seq<DataId>)
    requires store.Valid()
    modifies store`entries
    ensures store.Valid()
    ensures rest == if queue == [] then [] else queue[1..]
    ensures r.Some? <==> queue != [] && queue[0] in old(store.entries)
    ensures r.Some? ==> r.value == old(store.entries)[queue[0]].payload
    ensures store.entries == if r.Some? then Released(old(store.entries), queue[0]) else old(store.entries)
  {
    if queue == [] {
      return None, [];
    }
    var read := store.Read(queue[0]);
    if read.Err? {
      return None, queue[1..];
    }
    store.Release(queue[0]);
    return Some(read.value), queue[1..];
  }
}
