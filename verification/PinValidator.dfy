/** The deploy-time check of all wiring (crates/graph/src/pin_validator.rs). */
module PinValidator {
  import opened Prelude
  import opened Pin

  datatype Node = Node(inputs: seq<Pin>, outputs: seq<Pin>)

  datatype Edge = Edge(from: string, to: string, sourcePort: Option<string>, targetPort: Option<string>)

  datatype Direction = Input | Output

  datatype PinError =
    | DuplicatePinId(node: string, pin: string, direction: Direction)
    | UnknownNode(edge: Edge, node: string)
    | UnknownPin(edge: Edge, node: string, pin: string, direction: Direction)
    | IncompatiblePinTypes(edge: Edge)
    | IncompatiblePinKinds(edge: Edge)
    | MissingInput(node: string, pin: string)
    | ReservedPinId(node: string, pin: string)

  datatype PinIndex = PinIndex(inputs: map<string, Pin>, outputs: map<string, Pin>)

  function SourcePort(e: Edge): string {
    if e.sourcePort.Some? then e.sourcePort.value else "out"
  }

  function TargetPort(e: Edge): string {
    if e.targetPort.Some? then e.targetPort.value else "in"
  }

  // ---- What a deployable graph is ----

  ghost predicate UniqueIds(pins: seq<Pin>) {
    forall i, j :: 0 <= i < j < |pins| ==> pins[i].id != pins[j].id
  }

  ghost predicate IdsUnique(node: Node) {
    UniqueIds(node.inputs) && UniqueIds(node.outputs)
  }

  ghost predicate HasPin(pins: seq<Pin>, id: string) {
    exists p :: p in pins && p.id == id
  }

  ghost predicate Connects(nodes: map<string, Node>, e: Edge, out: Pin, input: Pin) {
    && e.from in nodes && out in nodes[e.from].outputs && out.id == (if e.sourcePort == None then "out" else e.sourcePort.value)
    && e.to in nodes && input in nodes[e.to].inputs && input.id == (if e.targetPort == None then "in" else e.targetPort.value)
  }

  ghost predicate EdgeFits(nodes: map<string, Node>, e: Edge) {
    exists out, input :: Connects(nodes, e, out, input)
                         && TypesCompatible(out.pinType, input.pinType) && KindsCompatible(out.kind, input.kind)
  }

  /** Some edge ends at this input; the input named "in" is fed from outside. */
  ghost predicate Fed(edges: seq<Edge>, node: string, pin: Pin) {
    pin.required && pin.id != "in" ==> exists e :: e in edges && e.to == node && e.targetPort == Some(pin.id)
  }

  ghost predicate Reserved(pin: Pin) {
    pin.kind != Exec && pin.id == "in"
  }

  ghost predicate AllUnique(nodes: map<string, Node>) {
    forall n :: n in nodes ==> IdsUnique(nodes[n])
  }

  ghost predicate AllFit(nodes: map<string, Node>, edges: seq<Edge>) {
    forall e :: e in edges ==> EdgeFits(nodes, e)
  }

  ghost predicate AllFed(nodes: map<string, Node>, edges: seq<Edge>) {
    forall n, p :: n in nodes && p in nodes[n].inputs ==> Fed(edges, n, p)
  }

  ghost predicate NoneReserved(nodes: map<string, Node>) {
    forall n, p :: n in nodes && p in nodes[n].inputs ==> !Reserved(p)
  }

  ghost predicate Deployable(nodes: map<string, Node>, edges: seq<Edge>) {
    AllUnique(nodes) && AllFit(nodes, edges) && AllFed(nodes, edges) && NoneReserved(nodes)
  }

  /** What an error says of an edge: the first fault found along it. */
  ghost predicate EdgeFault(nodes: map<string, Node>, e: Edge, error: PinError) {
    match error
    case UnknownNode(edge, node) =>
      edge == e && node !in nodes && (node == e.from || (node == e.to && e.from in nodes))
    case UnknownPin(edge, node, pin, Output) =>
      && edge == e && node == e.from && pin == SourcePort(e)
      && node in nodes && e.to in nodes && !HasPin(nodes[node].outputs, pin)
    case UnknownPin(edge, node, pin, Input) =>
      && edge == e && node == e.to && pin == TargetPort(e) && e.from in nodes && HasPin(nodes[e.from].outputs, SourcePort(e))
      && node in nodes && !HasPin(nodes[node].inputs, pin)
    case IncompatiblePinTypes(edge) =>
      edge == e && exists out, input :: Connects(nodes, e, out, input) && !TypesCompatible(out.pinType, input.pinType)
    case IncompatiblePinKinds(edge) =>
      edge == e && exists out, input :: Connects(nodes, e, out, input)
                                        && TypesCompatible(out.pinType, input.pinType) && !KindsCompatible(out.kind, input.kind)
    case _ => false
  }

  /** What an error means: its fault is there, and everything checked before it was in order. */
  ghost predicate Explains(nodes: map<string, Node>, edges: seq<Edge>, error: PinError) {
    match error
    case DuplicatePinId(n, pin, direction) =>
      n in nodes && Repeated(if direction.Input? then nodes[n].inputs else nodes[n].outputs, pin)
    case MissingInput(n, pin) =>
      && AllUnique(nodes) && AllFit(nodes, edges)
      && n in nodes && exists p :: p in nodes[n].inputs && p.id == pin && !Fed(edges, n, p)
    case ReservedPinId(n, pin) =>
      && AllUnique(nodes) && AllFit(nodes, edges) && AllFed(nodes, edges)
      && n in nodes && exists p :: p in nodes[n].inputs && p.id == pin && Reserved(p)
    case _ =>
      && AllUnique(nodes)
      && exists i :: 0 <= i < |edges| && EdgeFault(nodes, edges[i], error) && forall k :: 0 <= k < i ==> EdgeFits(nodes, edges[k])
  }

  ghost predicate Repeated(pins: seq<Pin>, id: string) {
    exists i, j :: 0 <= i < j < |pins| && pins[i].id == id && pins[j].id == id
  }

  // ---- The index of a node's pins ----

  ghost predicate Indexes(m: map<string, Pin>, pins: seq<Pin>) {
    && (forall p :: p in pins ==> p.id in m && m[p.id] == p)
    && (forall id :: id in m ==> m[id] in pins && m[id].id == id)
  }

  method IndexPins(pins: seq<Pin>) returns (r: Result<map<string, Pin>, string>)
    ensures r.Ok? <==> UniqueIds(pins)
    ensures r.Ok? ==> Indexes(r.value, pins)
    ensures r.Err? ==> Repeated(pins, r.error)
  {
    var m: map<string, Pin> := map[];
    for i := 0 to |pins|
      invariant UniqueIds(pins[..i]) && Indexes(m, pins[..i])
    {
      var pin := pins[i];
      if pin.id in m {
        var k :| 0 <= k < i && pins[..i][k] == m[pin.id];
        assert pins[k].id == pins[i].id;
        return Err(pin.id);
      }
      assert pins[..i + 1] == pins[..i] + [pin];
      m := m[pin.id := pin];
    }
    assert pins[..|pins|] == pins;
    return Ok(m);
  }

  ghost predicate IndexesNode(index: PinIndex, node: Node) {
    Indexes(index.inputs, node.inputs) && Indexes(index.outputs, node.outputs)
  }

  method BuildPinIndex(id: string, node: Node) returns (r: Result<PinIndex, PinError>)
    ensures r.Ok? <==> IdsUnique(node)
    ensures r.Ok? ==> IndexesNode(r.value, node)
    ensures r.Err? ==> r.error.DuplicatePinId? && r.error.node == id
                       && Repeated(if r.error.direction.Input? then node.inputs else node.outputs, r.error.pin)
  {
    var inputs := IndexPins(node.inputs);
    if inputs.Err? {
      return Err(DuplicatePinId(id, inputs.error, Input));
    }
    var outputs := IndexPins(node.outputs);
    if outputs.Err? {
      return Err(DuplicatePinId(id, outputs.error, Output));
    }
    return Ok(PinIndex(inputs.value, outputs.value));
  }

  ghost predicate IndexesAll(indexes: map<string, PinIndex>, nodes: map<string, Node>) {
    indexes.Keys == nodes.Keys && forall n :: n in nodes ==> IndexesNode(indexes[n], nodes[n])
  }

  // ---- The four passes ----

  method IndexNodes(nodes: map<string, Node>) returns (r: Result<map<string, PinIndex>, PinError>)
    ensures r.Ok? <==> AllUnique(nodes)
    ensures r.Ok? ==> IndexesAll(r.value, nodes)
    ensures r.Err? ==> Explains(nodes, [], r.error) && r.error.DuplicatePinId?
  {
    var indexes: map<string, PinIndex> := map[];
    var todo := nodes.Keys;
    while todo != {}
      invariant todo <= nodes.Keys && indexes.Keys == nodes.Keys - todo
      invariant forall n :: n in indexes ==> IdsUnique(nodes[n]) && IndexesNode(indexes[n], nodes[n])
      decreases |todo|
    {
      var n :| n in todo;
      var index := BuildPinIndex(n, nodes[n]);
      if index.Err? {
        return Err(index.error);
      }
      indexes := indexes[n := index.value];
      todo := todo - {n};
    }
    return Ok(indexes);
  }

  method CheckEdge(nodes: map<string, Node>, indexes: map<string, PinIndex>, e: Edge) returns (r: Result<(), PinError>)
    requires IndexesAll(indexes, nodes)
    ensures r.Ok? <==> EdgeFits(nodes, e)
    ensures r.Err? ==> EdgeFault(nodes, e, r.error)
  {
    if e.from !in indexes {
      return Err(UnknownNode(e, e.from));
    }
    if e.to !in indexes {
      return Err(UnknownNode(e, e.to));
    }
    var fromIndex, toIndex := indexes[e.from], indexes[e.to];
    assert IndexesNode(fromIndex, nodes[e.from]) && IndexesNode(toIndex, nodes[e.to]);
    if SourcePort(e) !in fromIndex.outputs {
      return Err(UnknownPin(e, e.from, SourcePort(e), Output));
    }
    var fromPin := fromIndex.outputs[SourcePort(e)];
    assert HasPin(nodes[e.from].outputs, SourcePort(e));
    if TargetPort(e) !in toIndex.inputs {
      return Err(UnknownPin(e, e.to, TargetPort(e), Input));
    }
    var toPin := toIndex.inputs[TargetPort(e)];
    assert Connects(nodes, e, fromPin, toPin);
    assert forall out, input :: Connects(nodes, e, out, input) ==> out == fromPin && input == toPin;
    if !TypesCompatible(fromPin.pinType, toPin.pinType) {
      return Err(IncompatiblePinTypes(e));
    }
    if !KindsCompatible(fromPin.kind, toPin.kind) {
      return Err(IncompatiblePinKinds(e));
    }
    return Ok(());
  }

  method FindUnfed(edges: seq<Edge>, covered: set<(string, string)>, n: string, node: Node, index: PinIndex)
    returns (unfed: Option<string>)
    requires IndexesNode(index, node)
    requires forall to, pin :: (to, pin) in covered <==> exists e :: e in edges && e.to == to && TargetPort(e) == pin
    ensures unfed.None? <==> forall p :: p in node.inputs ==> Fed(edges, n, p)
    ensures unfed.Some? ==> exists p :: p in node.inputs && p.id == unfed.value && !Fed(edges, n, p)
  {
    var todo := index.inputs.Keys;
    while todo != {}
      invariant todo <= index.inputs.Keys
      invariant forall id :: id in index.inputs.Keys - todo ==> Fed(edges, n, index.inputs[id])
      decreases |todo|
    {
      var id :| id in todo;
      var pin := index.inputs[id];
      if pin.required && id != "in" && (n, id) !in covered {
        return Some(id);
      }
      todo := todo - {id};
    }
    return None;
  }

  method FindReserved(node: Node, index: PinIndex) returns (reserved: Option<string>)
    requires IndexesNode(index, node)
    ensures reserved.None? <==> forall p :: p in node.inputs ==> !Reserved(p)
    ensures reserved.Some? ==> exists p :: p in node.inputs && p.id == reserved.value && Reserved(p)
  {
    var todo := index.inputs.Keys;
    while todo != {}
      invariant todo <= index.inputs.Keys
      invariant forall id :: id in index.inputs.Keys - todo ==> !Reserved(index.inputs[id])
      decreases |todo|
    {
      var id :| id in todo;
      var pin := index.inputs[id];
      if (pin.kind == Data || pin.kind == Reactive) && id == "in" {
        return Some(id);
      }
      todo := todo - {id};
    }
    return None;
  }

  method CheckEdges(nodes: map<string, Node>, indexes: map<string, PinIndex>, edges: seq<Edge>) returns (r: Result<(), PinError>)
    requires AllUnique(nodes) && IndexesAll(indexes, nodes)
    ensures r.Ok? <==> AllFit(nodes, edges)
    ensures r.Err? ==> Explains(nodes, edges, r.error)
  {
    for i := 0 to |edges|
      invariant forall k :: 0 <= k < i ==> EdgeFits(nodes, edges[k])
    {
      var checked := CheckEdge(nodes, indexes, edges[i]);
      if checked.Err? {
        assert EdgeFault(nodes, edges[i], checked.error);
        return Err(checked.error);
      }
    }
    return Ok(());
  }

  method CoveredInputs(edges: seq<Edge>) returns (covered: set<(string, string)>)
    ensures forall to, pin :: (to, pin) in covered <==> exists e :: e in edges && e.to == to && TargetPort(e) == pin
  {
    covered := {};
    for i := 0 to |edges|
      invariant forall c :: c in covered <==> exists k :: 0 <= k < i && c == (edges[k].to, TargetPort(edges[k]))
    {
      covered := covered + {(edges[i].to, TargetPort(edges[i]))};
    }
  }

  method CheckFed(nodes: map<string, Node>, indexes: map<string, PinIndex>, edges: seq<Edge>) returns (r: Result<(), PinError>)
    requires AllUnique(nodes) && AllFit(nodes, edges) && IndexesAll(indexes, nodes)
    ensures r.Ok? <==> AllFed(nodes, edges)
    ensures r.Err? ==> Explains(nodes, edges, r.error)
  {
    var covered := CoveredInputs(edges);
    var todo := indexes.Keys;
    while todo != {}
      invariant todo <= nodes.Keys
      invariant forall n, p :: n in nodes.Keys - todo && p in nodes[n].inputs ==> Fed(edges, n, p)
      decreases |todo|
    {
      var n :| n in todo;
      var unfed := FindUnfed(edges, covered, n, nodes[n], indexes[n]);
      if unfed.Some? {
        return Err(MissingInput(n, unfed.value));
      }
      todo := todo - {n};
    }
    return Ok(());
  }

  method CheckReserved(nodes: map<string, Node>, indexes: map<string, PinIndex>, ghost edges: seq<Edge>) returns (r: Result<(), PinError>)
    requires AllUnique(nodes) && AllFit(nodes, edges) && AllFed(nodes, edges) && IndexesAll(indexes, nodes)
    ensures r.Ok? <==> NoneReserved(nodes)
    ensures r.Err? ==> Explains(nodes, edges, r.error)
  {
    var todo := indexes.Keys;
    while todo != {}
      invariant todo <= nodes.Keys
      invariant forall n, p :: n in nodes.Keys - todo && p in nodes[n].inputs ==> !Reserved(p)
      decreases |todo|
    {
      var n :| n in todo;
      var reserved := FindReserved(nodes[n], indexes[n]);
      if reserved.Some? {
        return Err(ReservedPinId(n, reserved.value));
      }
      todo := todo - {n};
    }
    return Ok(());
  }

  /** Sound and complete, whatever order the hash maps are walked in; each error names a real fault. */
  method ValidatePinCompatibility(nodes: map<string, Node>, edges: seq<Edge>) returns (r: Result<(), PinError>)
    ensures r.Ok? <==> Deployable(nodes, edges)
    ensures r.Err? ==> Explains(nodes, edges, r.error)
  {
    var built := IndexNodes(nodes);
    if built.Err? {
      return Err(built.error);
    }
    r := CheckEdges(nodes, built.value, edges);
    if r.Ok? {
      r := CheckFed(nodes, built.value, edges);
    }
    if r.Ok? {
      r := CheckReserved(nodes, built.value, edges);
    }
  }
}
