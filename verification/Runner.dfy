/**
 What a node runner does with one received reference: read and give back, pull and transform, then cache, route and
 report every output (crates/graph/src/runner.rs). Transform, data pulls, channel answers and clock readings
 are arguments.
 */
module Runner {
  import opened Prelude
  import opened DataStore
  import opened DataPlane
  import opened Producers
  import Cache = OutputCache
  import Pin

  datatype Dispatch = Broadcast | Route(ports: seq<string>)

  type Metadata = Option<map<string, Value>>

  datatype NodeOutput = NodeOutput(payload: Value, metadata: Metadata, dispatch: Dispatch)

  /** An outgoing edge: the source port it names, if any, and its policy. */
  datatype Downstream = Downstream(port: Option<string>, policy: Policy)

  datatype Shape = Shape(targets: seq<Downstream>, dataPins: set<string>, reactivePins: set<string>, hasNonDataPin: bool)

  datatype Event = Started(trace: nat) | Output(trace: nat) | Completed(trace: nat, metadata: Metadata) | Failed(trace: nat)

  // ---- Cache ----

  function DataCacheValueForPin(pin: string, payload: Value): Value {
    if payload.Object? && pin in payload.fields then payload.fields[pin] else payload
  }

  /** The dispatch reaches this Data or Reactive pin. */
  predicate Addresses(shape: Shape, dispatch: Dispatch, pin: string) {
    pin in shape.dataPins + shape.reactivePins && (dispatch == Broadcast || pin in dispatch.ports)
  }

  function SlotsAfter(shape: Shape, slots: Cache.Slots, out: NodeOutput, trace: nat, now: string -> int): Cache.Slots {
    map pin | pin in slots ::
      if Addresses(shape, out.dispatch, pin)
      then Some(Cache.CachedOutput(DataCacheValueForPin(pin, out.payload), now(pin), trace))
      else slots[pin]
  }

  /** `now` gives the time at which each slot is written. */
  method WriteCache(cache: Cache.OutputCache, shape: Shape, out: NodeOutput, trace: nat, now: string -> int)
    modifies cache
    ensures cache.slots == SlotsAfter(shape, old(cache.slots), out, trace, now)
  {
    ghost var before := cache.slots;
    ghost var goal := SlotsAfter(shape, before, out, trace, now);
    if shape.dataPins == {} && shape.reactivePins == {} {
      assert cache.slots == goal;
      return;
    }
    var todo := shape.dataPins + shape.reactivePins;
    if out.dispatch.Route? {
      todo := set p | p in out.dispatch.ports && (p in shape.dataPins || p in shape.reactivePins);
    }
    assert forall pin :: pin in todo <==> Addresses(shape, out.dispatch, pin);
    while todo != {}
      invariant cache.slots.Keys == before.Keys
      invariant forall pin :: pin in before ==> cache.slots[pin] == if pin in todo then before[pin] else goal[pin]
      invariant forall pin :: pin in todo ==> Addresses(shape, out.dispatch, pin)
      decreases todo
    {
      var pin :| pin in todo;
      var _ := cache.Write(pin, Cache.CachedOutput(DataCacheValueForPin(pin, out.payload), now(pin), trace));
      todo := todo - {pin};
    }
    assert cache.slots == goal;
  }

  datatype OutputPin = OutputPin(id: string, kind: Pin.PinKind)

  /** What a deployment does for one node: a slot for every Data and Reactive output pin, all of them empty. */
  method PrepareSlots(pins: seq<OutputPin>) returns (cache: Cache.OutputCache, dataPins: set<string>, reactivePins: set<string>)
    ensures fresh(cache)
    ensures dataPins == set p | p in pins && p.kind == Pin.Data :: p.id
    ensures reactivePins == set p | p in pins && p.kind == Pin.Reactive :: p.id
    ensures cache.slots.Keys == dataPins + reactivePins && forall pin :: pin in cache.slots ==> cache.slots[pin] == None
  {
    cache := new Cache.OutputCache();
    dataPins, reactivePins := {}, {};
    for i := 0 to |pins|
      invariant fresh(cache)
      invariant dataPins == set p | p in pins[..i] && p.kind == Pin.Data :: p.id
      invariant reactivePins == set p | p in pins[..i] && p.kind == Pin.Reactive :: p.id
      invariant cache.slots.Keys == dataPins + reactivePins && forall pin :: pin in cache.slots ==> cache.slots[pin] == None
    {
      assert pins[..i + 1] == pins[..i] + [pins[i]];
      match pins[i].kind {
        case Data =>
          cache.PrepareSlot(pins[i].id);
          dataPins := dataPins + {pins[i].id};
        case Reactive =>
          cache.PrepareSlot(pins[i].id);
          reactivePins := reactivePins + {pins[i].id};
        case Exec =>
      }
    }
    assert pins[..|pins|] == pins;
  }

  // ---- Routing ----

  /** An edge is pushed to unless it leaves a Data pin; a routed output also has to name its port. */
  predicate Selected(shape: Shape, dispatch: Dispatch, target: Downstream) {
    match dispatch
    case Broadcast => target.port.None? || target.port.value !in shape.dataPins
    case Route(ports) => target.port.Some? && target.port.value !in shape.dataPins && target.port.value in ports
  }

  /** Indices of the selected edges among the first n, in order. */
  function MatchingTargets(shape: Shape, dispatch: Dispatch, n: nat): (r: seq<nat>)
    requires n <= |shape.targets|
    ensures forall i :: 0 <= i < |r| ==> r[i] < n && Selected(shape, dispatch, shape.targets[r[i]])
    ensures forall k :: 0 <= k < n && Selected(shape, dispatch, shape.targets[k]) ==> k in r
    ensures forall i, j :: 0 <= i < j < |r| ==> r[i] < r[j]
  {
    if n == 0 then []
    else if Selected(shape, dispatch, shape.targets[n - 1]) then MatchingTargets(shape, dispatch, n - 1) + [n - 1]
    else MatchingTargets(shape, dispatch, n - 1)
  }

  function Targets(shape: Shape, dispatch: Dispatch): seq<nat> {
    MatchingTargets(shape, dispatch, |shape.targets|)
  }

  predicate OutputIsDataOnly(shape: Shape, dispatch: Dispatch) {
    && Targets(shape, dispatch) == []
    && match dispatch
       case Broadcast => shape.dataPins != {} && shape.reactivePins == {} && !shape.hasNonDataPin
       case Route(ports) => ports != [] && forall p :: p in ports ==> p in shape.dataPins
  }

  // ---- Metadata ----

  function Merge(acc: Metadata, m: Metadata): Metadata {
    if m.None? then acc else Some((if acc.None? then map[] else acc.value) + m.value)
  }

  function MergedMetadata(outs: seq<NodeOutput>): Metadata {
    if outs == [] then None else Merge(MergedMetadata(outs[..|outs| - 1]), outs[|outs| - 1].metadata)
  }

  predicate Mentions(out: NodeOutput, key: string) {
    out.metadata.Some? && key in out.metadata.value
  }

  /** None exactly when no output had metadata; otherwise each key has the value of the last output naming it. */
  lemma {:induction false} MetadataLaterWins(outs: seq<NodeOutput>, key: string)
    ensures MergedMetadata(outs) == None <==> forall i :: 0 <= i < |outs| ==> outs[i].metadata == None
    ensures MergedMetadata(outs).Some? && key in MergedMetadata(outs).value <==>
            exists i :: 0 <= i < |outs| && Mentions(outs[i], key)
    ensures forall i :: 0 <= i < |outs| && Mentions(outs[i], key) && (forall j :: i < j < |outs| ==> !Mentions(outs[j], key)) ==>
              MergedMetadata(outs).Some? && key in MergedMetadata(outs).value
              && MergedMetadata(outs).value[key] == outs[i].metadata.value[key]
  {
    if outs != [] {
      var front := outs[..|outs| - 1];
      MetadataLaterWins(front, key);
      assert forall i :: 0 <= i < |front| ==> front[i] == outs[i];
      assert (exists i :: 0 <= i < |front| && Mentions(front[i], key)) ==> exists i :: 0 <= i < |outs| && Mentions(outs[i], key);
    }
  }

  datatype Message = Message(id: DataId, trace: nat)

  /** What one activation of the node does outside the runner. */
  datatype Activation = Activation(
    pull: Value -> Option<Value>,
    transform: Value -> Option<seq<NodeOutput>>,
    answer: (nat, nat) -> Answer,
    resultOpen: nat -> bool,
    now: nat -> string -> int)

  // ---- What became of an output ----

  datatype Report =
    | CacheOnly
    | Refused                                                        // the store is full
    | ToResult(id: DataId, accepted: bool)
    | ToTargets(id: DataId, targets: seq<nat>, answers: seq<Answer>)

  predicate Failing(r: Report) {
    r == Refused || (r.ToResult? && !r.accepted) || (r.ToTargets? && StopsBefore(r.answers, |r.answers|))
  }

  /** A Block send that finds the channel full waits, and ends accepted or closed. */
  function Settled(policy: Policy, a: Answer): Answer {
    if policy == Block && a.Full? then (if a.closedSince then Closed else Accepted) else a
  }

  function SettledAll(shape: Shape, targets: seq<nat>, index: nat, act: Activation): (r: seq<Answer>)
    requires forall i :: 0 <= i < |targets| ==> targets[i] < |shape.targets|
    ensures |r| == |targets|
    ensures forall i :: 0 <= i < |r| ==> r[i] == Settled(shape.targets[targets[i]].policy, act.answer(index, i))
  {
    seq(|targets|, i requires 0 <= i < |targets| => Settled(shape.targets[targets[i]].policy, act.answer(index, i)))
  }

  /** The report says truly where the output went. */
  predicate Faithful(shape: Shape, out: NodeOutput, r: Report) {
    match r
    case CacheOnly => OutputIsDataOnly(shape, out.dispatch)
    case Refused => !OutputIsDataOnly(shape, out.dispatch)
    case ToResult(_, _) => !OutputIsDataOnly(shape, out.dispatch) && Targets(shape, out.dispatch) == []
    case ToTargets(_, targets, answers) =>
      targets != [] && targets == Targets(shape, out.dispatch) && |answers| == |targets|
  }

  /** The store after an output: only the shares that were delivered remain. */
  function StoreAfter(m: Entries, out: NodeOutput, r: Report): Entries {
    match r
    case ToResult(id, accepted) => Shared(m, id, out.payload, if accepted then 1 else 0)
    case ToTargets(id, targets, answers) =>
      if Raced(answers) then
        ReleasedTimes(m[id := Entry(out.payload, |targets|)], id, Max(0, |targets| - |Reached(answers)|) + 1)
      else Shared(m, id, out.payload, |Reached(answers)|)
    case _ => m
  }

  // ---- What has happened so far ----

  /** A reference was taken and given back; or an output was processed, with its trace and the times of its writes. */
  datatype Happening = Took(id: DataId) | Did(out: NodeOutput, report: Report, trace: nat, now: string -> int)

  type History = seq<Happening>

  /** The store after a history. */
  function StoreOver(m: Entries, h: History): Entries {
    if h == [] then m
    else
      var m' := StoreOver(m, h[..|h| - 1]);
      match h[|h| - 1]
      case Took(id) => Released(m', id)
      case Did(out, report, _, _) => StoreAfter(m', out, report)
  }

  /** The slots after a history. */
  function SlotsOver(shape: Shape, slots: Cache.Slots, h: History): Cache.Slots {
    if h == [] then slots
    else
      var slots' := SlotsOver(shape, slots, h[..|h| - 1]);
      match h[|h| - 1]
      case Took(_) => slots'
      case Did(out, _, trace, now) => SlotsAfter(shape, slots', out, trace, now)
  }

  predicate Writes(shape: Shape, e: Happening, pin: string) {
    e.Did? && Addresses(shape, e.out.dispatch, pin)
  }

  /** The position of the last output that addresses a pin, or -1. */
  function LastAddressing(shape: Shape, h: History, pin: string): (k: int)
    ensures -1 <= k < |h|
    ensures k >= 0 ==> Writes(shape, h[k], pin)
    ensures forall i :: k < i < |h| ==> !Writes(shape, h[i], pin)
  {
    if h == [] then -1
    else if Writes(shape, h[|h| - 1], pin) then |h| - 1
    else LastAddressing(shape, h[..|h| - 1], pin)
  }

  /**
   Each prepared slot holds the pin's value of the last output that addressed it, with that output's trace and the time
   of its write; a slot that no output addressed keeps what it held.
   */
  lemma {:induction false} CacheAgreesWithHistory(shape: Shape, slots: Cache.Slots, h: History, pin: string)
    requires pin in slots
    ensures var k := LastAddressing(shape, h, pin);
            var after := SlotsOver(shape, slots, h);
            && after.Keys == slots.Keys
            && after[pin] == if k < 0 then slots[pin]
                             else
                               var p := h[k].out.payload;
                               Some(Cache.CachedOutput(if p.Object? && pin in p.fields then p.fields[pin] else p, h[k].now(pin), h[k].trace))
  {
    if h != [] {
      CacheAgreesWithHistory(shape, slots, h[..|h| - 1], pin);
    }
  }

  lemma {:induction false} HistoryNext(shape: Shape, slots: Cache.Slots, m: Entries, h: History, e: Happening)
    ensures StoreOver(m, h + [e]) == match e { case Took(id) => Released(StoreOver(m, h), id)
                                               case Did(out, report, _, _) => StoreAfter(StoreOver(m, h), out, report) }
    ensures SlotsOver(shape, slots, h + [e]) == match e { case Took(_) => SlotsOver(shape, slots, h)
                                                          case Did(out, _, trace, now) =>
                                                            SlotsAfter(shape, SlotsOver(shape, slots, h), out, trace, now) }
  {
    assert (h + [e])[..|h|] == h;
  }

  /** A history may be read in two parts. */
  lemma {:induction false} HistoryParts(shape: Shape, slots: Cache.Slots, m: Entries, h: History, h': History)
    ensures StoreOver(m, h + h') == StoreOver(StoreOver(m, h), h')
    ensures SlotsOver(shape, slots, h + h') == SlotsOver(shape, SlotsOver(shape, slots, h), h')
  {
    if h' == [] {
      assert h + h' == h;
    } else {
      var front, e := h'[..|h'| - 1], h'[|h'| - 1];
      assert h + h' == (h + front) + [e] && h' == front + [e];
      HistoryParts(shape, slots, m, h, front);
      HistoryNext(shape, slots, m, h + front, e);
      HistoryNext(shape, SlotsOver(shape, slots, h), StoreOver(m, h), front, e);
    }
  }

  /** The outputs of one activation with their reports. */
  function Processing(outs: seq<NodeOutput>, rs: seq<Report>, trace: nat, act: Activation): History
    requires |rs| <= |outs|
  {
    if rs == [] then []
    else
      var k := |rs| - 1;
      Processing(outs, rs[..k], trace, act) + [Did(outs[k], rs[k], trace, act.now(k))]
  }

  /** What the node makes of a message: nothing if its payload is gone, or the pull or the transform fails. */
  function Yield(m: Entries, msg: Message, act: Activation): Option<seq<NodeOutput>> {
    if msg.id !in m then None
    else
      var pulled := act.pull(m[msg.id].payload);
      if pulled.None? then None else act.transform(pulled.value)
  }

  function YieldedOutputs(m: Entries, msg: Message, act: Activation): seq<NodeOutput> {
    var outs := Yield(m, msg, act);
    if outs.None? then [] else outs.value
  }

  /** The history of the first messages of an inbox: each is taken and given back, then its outputs are processed. */
  function HistoryOf(m: Entries, inbox: seq<Message>, acts: seq<Activation>, reports: seq<seq<Report>>): History
    requires |reports| <= |inbox| == |acts|
    decreases |reports|
  {
    if reports == [] then []
    else
      var k := |reports| - 1;
      var h := HistoryOf(m, inbox, acts, reports[..k]);
      h + TurnOf(StoreOver(m, h), inbox[k], acts[k], reports[k])
  }

  function TurnOf(m: Entries, msg: Message, act: Activation, rs: seq<Report>): History {
    var outs := YieldedOutputs(m, msg, act);
    [Took(msg.id)] + if |rs| <= |outs| then Processing(outs, rs, msg.trace, act) else []
  }

  /** The reports are those of the outputs the node made of each message; only the last message may end early. */
  predicate Lived(shape: Shape, m: Entries, inbox: seq<Message>, acts: seq<Activation>, reports: seq<seq<Report>>, broke: bool)
    requires |reports| <= |inbox| == |acts|
    decreases |reports|
  {
    if reports == [] then !broke
    else
      var k := |reports| - 1;
      && Lived(shape, m, inbox, acts, reports[..k], false)
      && Reported(shape, YieldedOutputs(StoreOver(m, HistoryOf(m, inbox, acts, reports[..k])), inbox[k], acts[k]), reports[k], broke)
  }

  /** Every output has a report, up to one that cannot be sent; each report tells truly where its output went. */
  predicate Reported(shape: Shape, outs: seq<NodeOutput>, rs: seq<Report>, broke: bool) {
    && (if broke then 0 < |rs| <= |outs| && Failing(rs[|rs| - 1]) else |rs| == |outs|)
    && (forall k :: 0 <= k < |rs| ==> Faithful(shape, outs[k], rs[k]))
    && (forall k :: 0 <= k < |rs| - (if broke then 1 else 0) ==> !Failing(rs[k]))
  }

  /** The slots a deployment prepares: one for every Data and Reactive output pin. */
  predicate Prepared(shape: Shape, slots: Cache.Slots) {
    slots.Keys == shape.dataPins + shape.reactivePins
  }

  /**
   No output vanishes: one that was processed without a send error addressed a prepared slot, or was tried on each
   edge its dispatch selects, or went once to the result stream.
   */
  lemma {:induction false} NoOutputVanishes(shape: Shape, slots: Cache.Slots, out: NodeOutput, r: Report)
    requires Prepared(shape, slots) && Faithful(shape, out, r) && !Failing(r)
    ensures || (exists pin :: pin in slots && Addresses(shape, out.dispatch, pin))
            || (r.ToTargets? && |r.answers| == |r.targets|
                && (forall k :: 0 <= k < |shape.targets| && Selected(shape, out.dispatch, shape.targets[k]) ==> k in r.targets))
            || (r.ToResult? && r.accepted)
  {
    if r == CacheOnly {
      if out.dispatch == Broadcast {
        var pin :| pin in shape.dataPins;
        assert Addresses(shape, out.dispatch, pin);
      } else {
        assert out.dispatch.ports[0] in out.dispatch.ports;
        assert Addresses(shape, out.dispatch, out.dispatch.ports[0]);
      }
    }
  }

  // ---- Routing in terms of the node's pins ----

  /** The shape is that of a node with these output pins. */
  ghost predicate Describes(shape: Shape, pins: seq<OutputPin>) {
    && (forall i, j :: 0 <= i < j < |pins| ==> pins[i].id != pins[j].id)
    && shape.dataPins == (set p | p in pins && p.kind == Pin.Data :: p.id)
    && shape.reactivePins == (set p | p in pins && p.kind == Pin.Reactive :: p.id)
    && (shape.hasNonDataPin <==> exists p :: p in pins && p.kind != Pin.Data)
  }

  /** No pin of this name is one that is only read from its slot. */
  predicate TakesPushes(pins: seq<OutputPin>, port: string) {
    forall p :: p in pins && p.id == port ==> Pin.Push in Pin.Deliveries(p.kind)
  }

  predicate KeepsValues(pins: seq<OutputPin>, port: string) {
    exists p :: p in pins && p.id == port && Pin.Cache in Pin.Deliveries(p.kind)
  }

  lemma {:induction false} PushesIff(shape: Shape, pins: seq<OutputPin>, port: string)
    requires Describes(shape, pins)
    ensures TakesPushes(pins, port) <==> port !in shape.dataPins
    ensures KeepsValues(pins, port) <==> port in shape.dataPins + shape.reactivePins
  {
    forall p | p in pins ensures p.kind == Pin.Data <==> Pin.Push !in Pin.Deliveries(p.kind) {
    }
    forall p | p in pins ensures p.kind != Pin.Exec <==> Pin.Cache in Pin.Deliveries(p.kind) {
    }
  }

  /**
   Which edges are tried. A routed output goes to exactly the edges that name one of its ports and take pushes; a
   broadcast to exactly those that name no port or one that takes pushes. Each edge is tried once, in order.
   */
  lemma {:induction false} TriedEdgesIff(shape: Shape, pins: seq<OutputPin>, out: NodeOutput, r: Report)
    requires Describes(shape, pins) && Faithful(shape, out, r) && r.ToTargets?
    ensures forall i, j :: 0 <= i < j < |r.targets| ==> r.targets[i] < r.targets[j]
    ensures forall k :: k in r.targets ==> k < |shape.targets|
    ensures forall k :: 0 <= k < |shape.targets| ==>
              var port := shape.targets[k].port;
              (k in r.targets <==> if out.dispatch.Route? then port.Some? && port.value in out.dispatch.ports && TakesPushes(pins, port.value)
                                   else port.None? || TakesPushes(pins, port.value))
  {
    forall k | 0 <= k < |shape.targets| && shape.targets[k].port.Some?
      ensures TakesPushes(pins, shape.targets[k].port.value) <==> shape.targets[k].port.value !in shape.dataPins
    {
      PushesIff(shape, pins, shape.targets[k].port.value);
    }
  }

  /** The pin an edge leaves: "out" unless it names another. */
  function SourcePin(target: Downstream): string {
    if target.port.Some? then target.port.value else "out"
  }

  /**
   The runner pushes on an edge that leaves a Data pin iff the edge names no port, "out" is a Data pin and the output is
   broadcast. A deployment gives the runner no such edge, because it sorts edges by the kind of the pin they leave.
   */
  lemma {:induction false} PushedFromDataIff(shape: Shape, pins: seq<OutputPin>, out: NodeOutput, r: Report, k: nat)
    requires Describes(shape, pins) && Faithful(shape, out, r) && r.ToTargets? && k < |shape.targets|
    ensures k in r.targets && !TakesPushes(pins, SourcePin(shape.targets[k]))
            <==> shape.targets[k].port.None? && out.dispatch.Broadcast? && !TakesPushes(pins, "out")
  {
    TriedEdgesIff(shape, pins, out, r);
  }

  /** With the edges a deployment hands over, a broadcast is tried on every edge. */
  lemma {:induction false} BroadcastReachesAll(shape: Shape, pins: seq<OutputPin>, out: NodeOutput, r: Report, k: nat)
    requires Describes(shape, pins) && Faithful(shape, out, r) && r.ToTargets? && out.dispatch == Broadcast && k < |shape.targets|
    requires forall t :: t in shape.targets ==> TakesPushes(pins, SourcePin(t))
    ensures k in r.targets
  {
    TriedEdgesIff(shape, pins, out, r);
    assert shape.targets[k] in shape.targets;
  }

  /** An output may be pushed on the k-th edge. */
  predicate MayPush(shape: Shape, pins: seq<OutputPin>, dispatch: Dispatch, k: nat)
    requires k < |shape.targets|
  {
    var port := shape.targets[k].port;
    if dispatch.Route? then port.Some? && port.value in dispatch.ports && TakesPushes(pins, port.value)
    else port.None? || TakesPushes(pins, port.value)
  }

  /**
   An output stays in the slots, without a reference, iff no edge takes it and all pins it is for are Data pins: those
   of the node for a broadcast, those it names for a routed one, at least one in each case. Otherwise, with no edge to
   take it, it goes to the result stream, unless the store refuses it.
   */
  lemma {:induction false} CacheOnlyIff(shape: Shape, pins: seq<OutputPin>, out: NodeOutput, r: Report)
    requires Describes(shape, pins) && Faithful(shape, out, r)
    ensures r == CacheOnly <==>
              && (forall k :: 0 <= k < |shape.targets| ==> !MayPush(shape, pins, out.dispatch, k))
              && match out.dispatch
                 case Broadcast => pins != [] && forall p :: p in pins ==> p.kind == Pin.Data
                 case Route(ports) =>
                   ports != [] && forall q :: q in ports ==> exists p :: p in pins && p.id == q && p.kind == Pin.Data
    ensures r.ToResult? ==> forall k :: 0 <= k < |shape.targets| ==> !MayPush(shape, pins, out.dispatch, k)
  {
    forall k | 0 <= k < |shape.targets|
      ensures MayPush(shape, pins, out.dispatch, k) <==> Selected(shape, out.dispatch, shape.targets[k])
    {
      if shape.targets[k].port.Some? {
        PushesIff(shape, pins, shape.targets[k].port.value);
      }
    }
    NoneSelectedIff(shape, out.dispatch);
    AllDataIff(shape, pins);
    forall q ensures q in shape.dataPins <==> exists p :: p in pins && p.id == q && p.kind == Pin.Data {
    }
  }

  lemma {:induction false} NoneSelectedIff(shape: Shape, dispatch: Dispatch)
    ensures Targets(shape, dispatch) == [] <==> forall k :: 0 <= k < |shape.targets| ==> !Selected(shape, dispatch, shape.targets[k])
  {
    var ts := Targets(shape, dispatch);
    if ts != [] {
      assert Selected(shape, dispatch, shape.targets[ts[0]]);
    }
  }

  lemma {:induction false} AllDataIff(shape: Shape, pins: seq<OutputPin>)
    requires Describes(shape, pins)
    ensures shape.dataPins != {} && shape.reactivePins == {} && !shape.hasNonDataPin
            <==> pins != [] && forall p :: p in pins ==> p.kind == Pin.Data
  {
    if pins != [] && forall p :: p in pins ==> p.kind == Pin.Data {
      assert pins[0] in pins;
      assert pins[0].id in shape.dataPins;
      if q :| q in shape.reactivePins {
        assert false;
      }
    }
    if shape.dataPins != {} && !shape.hasNonDataPin {
      var q :| q in shape.dataPins;
    }
  }

  /** An output writes the slot of a pin iff its dispatch reaches the pin and the pin's kind keeps values. */
  lemma {:induction false} WritesIff(shape: Shape, pins: seq<OutputPin>, e: Happening, pin: string)
    requires Describes(shape, pins)
    ensures Writes(shape, e, pin) <==>
              e.Did? && (e.out.dispatch.Route? ==> pin in e.out.dispatch.ports) && KeepsValues(pins, pin)
  {
    PushesIff(shape, pins, pin);
  }

  /** The transform sees the pulled payload of a message that is still in the store. */
  lemma {:induction false} YieldIff(m: Entries, msg: Message, act: Activation, outs: seq<NodeOutput>)
    ensures Yield(m, msg, act) == Some(outs)
            <==> msg.id in m && act.pull(m[msg.id].payload).Some? && act.transform(act.pull(m[msg.id].payload).value) == Some(outs)
  {
  }

  /** A message on a Block edge is never dropped for want of room. */
  lemma {:induction false} BlockWaits(policy: Policy, a: Answer)
    requires policy == Block
    ensures !Settled(policy, a).Full? && (Settled(policy, a) == Accepted <==> a == Accepted || a == Full(false))
  {
  }

  function Outputs(rs: seq<Report>, trace: nat): seq<Event> {
    if rs == [] then []
    else Outputs(rs[..|rs| - 1], trace) +
         if rs[|rs| - 1].ToResult? && rs[|rs| - 1].accepted then [Output(trace)] else []
  }

  /** Started, then only Output events, then exactly one Completed or Failed. */
  predicate Bracket(events: seq<Event>, trace: nat) {
    && |events| >= 2
    && events[0] == Started(trace)
    && (forall i :: 1 <= i < |events| - 1 ==> events[i] == Output(trace))
    && ((events[|events| - 1].Completed? && events[|events| - 1].trace == trace) || events[|events| - 1] == Failed(trace))
  }

  lemma {:induction false} OutputsAreOutputs(rs: seq<Report>, trace: nat)
    ensures forall i :: 0 <= i < |Outputs(rs, trace)| ==> Outputs(rs, trace)[i] == Output(trace)
  {
    if rs != [] {
      OutputsAreOutputs(rs[..|rs| - 1], trace);
    }
  }

  lemma {:induction false} NextOutput(outs: seq<NodeOutput>, rs: seq<Report>, r: Report, trace: nat, act: Activation)
    requires |rs| < |outs|
    ensures var k := |rs|;
            && Processing(outs, rs + [r], trace, act) == Processing(outs, rs, trace, act) + [Did(outs[k], r, trace, act.now(k))]
            && MergedMetadata(outs[..k + 1]) == Merge(MergedMetadata(outs[..k]), outs[k].metadata)
            && Outputs(rs + [r], trace) == Outputs(rs, trace) + if r.ToResult? && r.accepted then [Output(trace)] else []
  {
    assert outs[..|rs| + 1][..|rs|] == outs[..|rs|];
    assert (rs + [r])[..|rs|] == rs;
  }

  /** What the first |rs| outputs did to the slots, the store, the metadata and the events. */
  ghost predicate Processed(shape: Shape, outs: seq<NodeOutput>, rs: seq<Report>, trace: nat, act: Activation,
                            slots: Cache.Slots, slots': Cache.Slots, m: Entries, m': Entries, metadata: Metadata,
                            emitted: seq<Event>)
  {
    && |rs| <= |outs|
    && (forall i :: 0 <= i < |rs| ==> Faithful(shape, outs[i], rs[i]))
    && metadata == MergedMetadata(outs[..|rs|])
    && slots' == SlotsOver(shape, slots, Processing(outs, rs, trace, act))
    && m' == StoreOver(m, Processing(outs, rs, trace, act))
    && emitted == Outputs(rs, trace)
  }

  lemma {:induction false} ProcessedNext(shape: Shape, outs: seq<NodeOutput>, rs: seq<Report>, trace: nat, act: Activation,
                                         slots: Cache.Slots, slots': Cache.Slots, m: Entries, m': Entries, metadata: Metadata,
                                         emitted: seq<Event>, r: Report)
    requires Processed(shape, outs, rs, trace, act, slots, slots', m, m', metadata, emitted)
    requires |rs| < |outs| && Faithful(shape, outs[|rs|], r)
    ensures Processed(shape, outs, rs + [r], trace, act, slots, SlotsAfter(shape, slots', outs[|rs|], trace, act.now(|rs|)),
                      m, StoreAfter(m', outs[|rs|], r), Merge(metadata, outs[|rs|].metadata),
                      emitted + if r.ToResult? && r.accepted then [Output(trace)] else [])
  {
    NextOutput(outs, rs, r, trace, act);
    HistoryNext(shape, slots, m, Processing(outs, rs, trace, act), Did(outs[|rs|], r, trace, act.now(|rs|)));
  }

  class NodeRunner {
    const shape: Shape
    const store: ArenaDataStore
    const cache: Cache.OutputCache
    var events: seq<Event>

    constructor (shape: Shape, store: ArenaDataStore, cache: Cache.OutputCache)
      ensures this.shape == shape && this.store == store && this.cache == cache && events == []
    {
      this.shape, this.store, this.cache := shape, store, cache;
      events := [];
    }

    /** The selected edges of a stored output. */
    method SendToTargets(out: NodeOutput, id: DataId, targets: seq<nat>, index: nat, act: Activation) returns (answers: seq<Answer>)
      requires store.Valid() && targets != []
      requires forall i :: 0 <= i < |targets| ==> targets[i] < |shape.targets|
      modifies store`entries
      ensures store.Valid()
      ensures answers == SettledAll(shape, targets, index, act)
      ensures forall m :: id !in m && old(store.entries) == m[id := Entry(out.payload, |targets|)] ==>
                store.entries == StoreAfter(m, out, ToTargets(id, targets, answers))
    {
      answers := SettledAll(shape, targets, index, act);
      var policies := seq(|targets|, i requires 0 <= i < |targets| => shape.targets[targets[i]].policy);
      forall k | 0 <= k < |answers| && answers[k].Full? ensures policies[k] == DropNewest {
        assert answers[k] == Settled(policies[k], act.answer(index, k));
      }
      var delivered, failed := FanOut(store, id, policies, answers);
      forall m | id !in m && old(store.entries) == m[id := Entry(out.payload, |targets|)]
        ensures store.entries == StoreAfter(m, out, ToTargets(id, targets, answers))
      {
        WriteThenRelease(m, id, out.payload, |targets|, |targets| - |delivered|);
      }
    }

    /** One output: cache, route, store, send. */
    method ProcessOutput(out: NodeOutput, index: nat, trace: nat, act: Activation) returns (r: Report)
      requires store.Valid()
      modifies store, cache
      ensures store.Valid()
      ensures cache.slots == SlotsAfter(shape, old(cache.slots), out, trace, act.now(index))
      ensures Faithful(shape, out, r)
      ensures r == Refused ==> AtCapacity(old(store.entries), store.capacity)
      ensures r.ToResult? ==> r.accepted == act.resultOpen(index) && r.id !in old(store.entries)
      ensures r.ToTargets? ==> r.answers == SettledAll(shape, Targets(shape, out.dispatch), index, act)
                               && r.id !in old(store.entries)
      ensures store.entries == StoreAfter(old(store.entries), out, r)
    {
      WriteCache(cache, shape, out, trace, act.now(index));
      var targets := Targets(shape, out.dispatch);
      if OutputIsDataOnly(shape, out.dispatch) {
        return CacheOnly;
      }
      var w := store.Write(out.payload, if targets == [] then 1 else |targets|);
      if w.Err? {
        return Refused;
      }
      if targets != [] {
        var answers := SendToTargets(out, w.value, targets, index, act);
        return ToTargets(w.value, targets, answers);
      }
      if !act.resultOpen(index) {
        store.Release(w.value);
        assert store.entries == old(store.entries);
      }
      return ToResult(w.value, act.resultOpen(index));
    }

    /** The outputs in order, up to the first that cannot be sent. */
    method ProcessOutputs(outs: seq<NodeOutput>, trace: nat, act: Activation)
      returns (rs: seq<Report>, metadata: Metadata, failed: bool)
      requires store.Valid()
      modifies this`events, store, cache
      ensures store.Valid()
      ensures if failed then 0 < |rs| <= |outs| && Failing(rs[|rs| - 1]) else |rs| == |outs|
      ensures forall k :: 0 <= k < |rs| - (if failed then 1 else 0) ==> !Failing(rs[k])
      ensures Processed(shape, outs, rs, trace, act, old(cache.slots), cache.slots, old(store.entries), store.entries,
                        metadata, Outputs(rs, trace))
      ensures events == old(events) + Outputs(rs, trace)
    {
      rs, metadata, failed := [], None, false;
      ghost var emitted: seq<Event> := [];
      ghost var slots, m := cache.slots, store.entries;
      for k := 0 to |outs|
        invariant store.Valid() && |rs| == k
        invariant forall i :: 0 <= i < k ==> !Failing(rs[i])
        invariant Processed(shape, outs, rs, trace, act, slots, cache.slots, m, store.entries, metadata, emitted)
        invariant events == old(events) + emitted
      {
        ghost var slots', m' := cache.slots, store.entries;
        var r := ProcessOutput(outs[k], k, trace, act);
        ProcessedNext(shape, outs, rs, trace, act, slots, slots', m, m', metadata, emitted, r);
        metadata := Merge(metadata, outs[k].metadata);
        rs := rs + [r];
        var reported := if r.ToResult? && r.accepted then [Output(trace)] else [];
        assert (old(events) + emitted) + reported == old(events) + (emitted + reported);
        events := events + reported;
        emitted := emitted + reported;
        if Failing(r) {
          return rs, metadata, true;
        }
      }
    }

    /**
     One received reference is one bracket of events, and its share is given back whatever happens. `done` is what
     happened to it.
     */
    method HandleRef(msg: Message, act: Activation) returns (emitted: seq<Event>, rs: seq<Report>, done: History, broke: bool)
      requires store.Valid()
      modifies this`events, store, cache
      ensures store.Valid()
      ensures events == old(events) + emitted && Bracket(emitted, msg.trace)
      ensures emitted[1..|emitted| - 1] == Outputs(rs, msg.trace)
      ensures var outs := YieldedOutputs(old(store.entries), msg, act);
              Reported(shape, outs, rs, broke) && done == TurnOf(old(store.entries), msg, act, rs)
      ensures store.entries == StoreOver(old(store.entries), done)
      ensures cache.slots == SlotsOver(shape, old(cache.slots), done)
      ensures var outs := Yield(old(store.entries), msg, act);
              emitted[|emitted| - 1] == if outs.None? || broke then Failed(msg.trace)
                                        else Completed(msg.trace, MergedMetadata(outs.value))
    {
      ghost var m, slots := store.entries, cache.slots;
      ghost var before := events;
      rs, broke := [], false;
      events := events + [Started(msg.trace)];
      var read := store.Read(msg.id);
      store.Release(msg.id);
      HistoryNext(shape, slots, m, [], Took(msg.id));
      assert [] + [Took(msg.id)] == [Took(msg.id)];
      var outs := None;
      if read.Ok? {
        var pulled := act.pull(read.value);
        if pulled.Some? {
          outs := act.transform(pulled.value);
        }
      }
      if outs.None? {
        events := events + [Failed(msg.trace)];
        return [Started(msg.trace), Failed(msg.trace)], [], [Took(msg.id)], false;
      }
      var metadata;
      rs, metadata, broke := ProcessOutputs(outs.value, msg.trace, act);
      done := [Took(msg.id)] + Processing(outs.value, rs, msg.trace, act);
      HistoryParts(shape, slots, m, [Took(msg.id)], Processing(outs.value, rs, msg.trace, act));
      OutputsAreOutputs(rs, msg.trace);
      assert !broke ==> outs.value[..|rs|] == outs.value;
      var last := if broke then Failed(msg.trace) else Completed(msg.trace, metadata);
      events := events + [last];
      emitted := [Started(msg.trace)] + Outputs(rs, msg.trace) + [last];
      assert events == before + emitted;
    }

    /**
     The receive loop on its own: every reference taken from the inbox is one bracket, a send error ends it, and slots
     and store are what the history of takes and outputs makes of them.
     */
    method RunNode(inbox: seq<Message>, acts: seq<Activation>)
      returns (log: seq<seq<Event>>, reports: seq<seq<Report>>, broke: bool)
      requires store.Valid() && |acts| == |inbox|
      modifies this`events, store, cache
      ensures store.Valid()
      ensures !broke ==> |log| == |inbox|
      ensures Logged(inbox, log, old(events), events)
      ensures broke ==> log != [] && EndsFailed(log[|log| - 1], inbox[|log| - 1].trace)
      ensures |reports| == |log|
      ensures Agrees(shape, inbox, acts, reports, broke, old(store.entries), store.entries, old(cache.slots), cache.slots)
    {
      ghost var m, slots := store.entries, cache.slots;
      log, reports, broke := [], [], false;
      for k := 0 to |inbox|
        invariant store.Valid() && |log| == |reports| == k
        invariant Logged(inbox, log, old(events), events)
        invariant Agrees(shape, inbox, acts, reports, false, m, store.entries, slots, cache.slots)
      {
        ghost var m', slots', events' := store.entries, cache.slots, events;
        var emitted, rs, done, stop := HandleRef(inbox[k], acts[k]);
        AgreesNext(shape, inbox, acts, reports, rs, stop, m, m', slots, slots');
        reports := reports + [rs];
        LoggedNext(inbox, log, old(events), events', emitted);
        log := log + [emitted];
        if stop {
          return log, reports, true;
        }
      }
    }
  }

  /** The store and the slots after the first messages are what their history makes of them. */
  predicate Agrees(shape: Shape, inbox: seq<Message>, acts: seq<Activation>, reports: seq<seq<Report>>, broke: bool,
                   m: Entries, m': Entries, slots: Cache.Slots, slots': Cache.Slots)
    requires |reports| <= |inbox| == |acts|
  {
    && Lived(shape, m, inbox, acts, reports, broke)
    && m' == StoreOver(m, HistoryOf(m, inbox, acts, reports))
    && slots' == SlotsOver(shape, slots, HistoryOf(m, inbox, acts, reports))
  }

  lemma {:induction false} HistoryOfNext(m: Entries, inbox: seq<Message>, acts: seq<Activation>, reports: seq<seq<Report>>, rs: seq<Report>)
    requires |reports| < |inbox| == |acts|
    ensures var h := HistoryOf(m, inbox, acts, reports);
            HistoryOf(m, inbox, acts, reports + [rs]) == h + TurnOf(StoreOver(m, h), inbox[|reports|], acts[|reports|], rs)
  {
    assert (reports + [rs])[..|reports|] == reports;
  }

  lemma {:induction false} LivedNext(shape: Shape, m: Entries, inbox: seq<Message>, acts: seq<Activation>, reports: seq<seq<Report>>,
                                     rs: seq<Report>, broke: bool, m': Entries)
    requires |reports| < |inbox| == |acts| && Lived(shape, m, inbox, acts, reports, false)
    requires m' == StoreOver(m, HistoryOf(m, inbox, acts, reports))
    requires Reported(shape, YieldedOutputs(m', inbox[|reports|], acts[|reports|]), rs, broke)
    ensures Lived(shape, m, inbox, acts, reports + [rs], broke)
  {
    assert (reports + [rs])[..|reports|] == reports;
  }

  lemma {:induction false} AgreesNext(shape: Shape, inbox: seq<Message>, acts: seq<Activation>, reports: seq<seq<Report>>,
                                      rs: seq<Report>, broke: bool, m: Entries, m': Entries, slots: Cache.Slots, slots': Cache.Slots)
    requires |reports| < |inbox| == |acts| && Agrees(shape, inbox, acts, reports, false, m, m', slots, slots')
    requires Reported(shape, YieldedOutputs(m', inbox[|reports|], acts[|reports|]), rs, broke)
    ensures var done := TurnOf(m', inbox[|reports|], acts[|reports|], rs);
            Agrees(shape, inbox, acts, reports + [rs], broke, m, StoreOver(m', done), slots, SlotsOver(shape, slots', done))
  {
    var done := TurnOf(m', inbox[|reports|], acts[|reports|], rs);
    LivedNext(shape, m, inbox, acts, reports, rs, broke, m');
    HistoryOfNext(m, inbox, acts, reports, rs);
    HistoryParts(shape, slots, m, HistoryOf(m, inbox, acts, reports), done);
  }

  /** After the loop each slot holds the value of the last output, over all messages, that addressed it. */
  lemma {:induction false} SlotsAgree(shape: Shape, inbox: seq<Message>, acts: seq<Activation>, reports: seq<seq<Report>>, broke: bool,
                                      m: Entries, m': Entries, slots: Cache.Slots, slots': Cache.Slots, pin: string)
    requires |reports| <= |inbox| == |acts| && Agrees(shape, inbox, acts, reports, broke, m, m', slots, slots') && pin in slots
    ensures var h := HistoryOf(m, inbox, acts, reports);
            var k := LastAddressing(shape, h, pin);
            && slots'.Keys == slots.Keys
            && slots'[pin] == if k < 0 then slots[pin]
                              else
                                var p := h[k].out.payload;
                                Some(Cache.CachedOutput(if p.Object? && pin in p.fields then p.fields[pin] else p, h[k].now(pin), h[k].trace))
  {
    CacheAgreesWithHistory(shape, slots, HistoryOf(m, inbox, acts, reports), pin);
  }

  predicate EndsFailed(events: seq<Event>, trace: nat) {
    events != [] && events[|events| - 1] == Failed(trace)
  }

  /** Each message of the inbox has its bracket, and the events are the brackets one after the other. */
  predicate Logged(inbox: seq<Message>, log: seq<seq<Event>>, before: seq<Event>, events: seq<Event>) {
    && |log| <= |inbox| && events == before + Flatten(log)
    && forall k :: 0 <= k < |log| ==> Bracket(log[k], inbox[k].trace)
  }

  lemma {:induction false} LoggedNext(inbox: seq<Message>, log: seq<seq<Event>>, before: seq<Event>, events: seq<Event>,
                                      emitted: seq<Event>)
    requires Logged(inbox, log, before, events) && |log| < |inbox| && Bracket(emitted, inbox[|log|].trace)
    ensures Logged(inbox, log + [emitted], before, events + emitted)
  {
    assert (log + [emitted])[..|log|] == log;
    assert before + Flatten(log) + emitted == before + (Flatten(log) + emitted);
  }

  function Flatten(log: seq<seq<Event>>): seq<Event> {
    if log == [] then [] else Flatten(log[..|log| - 1]) + log[|log| - 1]
  }
}
