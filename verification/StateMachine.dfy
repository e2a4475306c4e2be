/** The state-machine node: action ports, transition choice, state updates (crates/nodes-flow/src/state_machine.rs). */
module StateMachine {
  import opened Prelude
  import opened WorkflowSpec

  datatype StateConfig = StateConfig(name: string, entryActions: seq<string>, exitActions: seq<string>)

  datatype TransitionConfig = TransitionConfig(from: string, to: string, when: string, priority: nat, actionPort: Option<string>)

  datatype Config = Config(initialState: string, states: seq<StateConfig>, transitions: seq<TransitionConfig>, maxOperations: nat)

  /** The variables a guard script sees and may change. */
  type Scope = map<string, Value>

  /** One evaluation of a guard script. */
  datatype Verdict = Holds(scope: Scope) | Fails(scope: Scope) | Raises

  /** The guard of the i-th transition on a scope. */
  type Guards = (nat, Scope) -> Verdict

  // ---- Order of evaluation ----

  /** Higher priority first, configuration order among equals. */
  predicate Before(ts: seq<TransitionConfig>, i: nat, j: nat)
    requires i < |ts| && j < |ts|
  {
    ts[i].priority > ts[j].priority || (ts[i].priority == ts[j].priority && i < j)
  }

  predicate OrderOf(ts: seq<TransitionConfig>, order: seq<nat>, n: nat)
    requires n <= |ts|
  {
    && (forall p :: 0 <= p < |order| ==> order[p] < n)
    && (forall i :: 0 <= i < n ==> i in order)
    && (forall p, q :: 0 <= p < q < |order| ==> Before(ts, order[p], order[q]))
  }

  /** Where the n-th transition goes among the earlier ones: after all of at least its priority. */
  function Slot(ts: seq<TransitionConfig>, order: seq<nat>, n: nat): (p: nat)
    requires n < |ts| && OrderOf(ts, order, n)
    ensures p <= |order|
    ensures forall q :: 0 <= q < p ==> ts[order[q]].priority >= ts[n].priority
    ensures forall q :: p <= q < |order| ==> ts[order[q]].priority < ts[n].priority
  {
    if order == [] || ts[order[|order| - 1]].priority >= ts[n].priority then |order|
    else
      SlotFrom(ts, order, n, |order| - 1)
  }

  function SlotFrom(ts: seq<TransitionConfig>, order: seq<nat>, n: nat, bound: nat): (p: nat)
    requires n < |ts| && OrderOf(ts, order, n) && bound < |order|
    requires forall q :: bound <= q < |order| ==> ts[order[q]].priority < ts[n].priority
    ensures p <= bound
    ensures forall q :: 0 <= q < p ==> ts[order[q]].priority >= ts[n].priority
    ensures forall q :: p <= q < |order| ==> ts[order[q]].priority < ts[n].priority
  {
    if bound == 0 then 0
    else if ts[order[bound - 1]].priority >= ts[n].priority then
      assert forall q :: 0 <= q < bound - 1 ==> Before(ts, order[q], order[bound - 1]);
      bound
    else SlotFrom(ts, order, n, bound - 1)
  }

  lemma {:induction false} InsertKeeps(front: seq<nat>, p: nat, x: nat)
    requires p <= |front|
    ensures var order := front[..p] + [x] + front[p..];
            x in order && forall i :: i in front ==> i in order
  {
    var order := front[..p] + [x] + front[p..];
    assert order[p] == x;
    forall k | 0 <= k < |front| ensures front[k] in order {
      assert front[k] == order[if k < p then k else k + 1];
    }
  }

  lemma {:induction false} InsertOrdered(ts: seq<TransitionConfig>, front: seq<nat>, p: nat, n: nat)
    requires 0 < n <= |ts| && OrderOf(ts, front, n - 1) && p <= |front|
    requires forall q :: 0 <= q < p ==> ts[front[q]].priority >= ts[n - 1].priority
    requires forall q :: p <= q < |front| ==> ts[front[q]].priority < ts[n - 1].priority
    ensures OrderOf(ts, front[..p] + [n - 1] + front[p..], n)
  {
    var order := front[..p] + [n - 1] + front[p..];
    InsertKeeps(front, p, n - 1);
    forall k, l | 0 <= k < l < |order| ensures order[k] < n && order[l] < n && Before(ts, order[k], order[l]) {
      InsertedBefore(ts, front, p, n, k, l);
    }
    forall k | 0 <= k < |order| ensures order[k] < n {
      InsertedAt(front, p, n - 1, k);
    }
  }

  lemma {:induction false} InsertedAt(front: seq<nat>, p: nat, x: nat, k: nat)
    requires p <= |front| && k <= |front|
    ensures (front[..p] + [x] + front[p..])[k] == if k < p then front[k] else if k == p then x else front[k - 1]
  {
  }

  lemma {:induction false} InsertedBefore(ts: seq<TransitionConfig>, front: seq<nat>, p: nat, n: nat, k: nat, l: nat)
    requires 0 < n <= |ts| && OrderOf(ts, front, n - 1) && p <= |front| && k < l <= |front|
    requires forall q :: 0 <= q < p ==> ts[front[q]].priority >= ts[n - 1].priority
    requires forall q :: p <= q < |front| ==> ts[front[q]].priority < ts[n - 1].priority
    ensures var order := front[..p] + [n - 1] + front[p..];
            order[k] < n && order[l] < n && Before(ts, order[k], order[l])
  {
    InsertedAt(front, p, n - 1, k);
    InsertedAt(front, p, n - 1, l);
  }

  /** The stable sort by descending priority. */
  function EvaluationOrder(ts: seq<TransitionConfig>, n: nat): (order: seq<nat>)
    requires n <= |ts|
    ensures OrderOf(ts, order, n)
  {
    if n == 0 then []
    else
      var front := EvaluationOrder(ts, n - 1);
      var p := Slot(ts, front, n - 1);
      InsertOrdered(ts, front, p, n);
      front[..p] + [n - 1] + front[p..]
  }

  predicate Applicable(t: TransitionConfig, state: string) {
    t.from == "*" || t.from == state
  }

  /** The first applicable candidate from position p whose guard holds; a raising guard ends the search. */
  function Evaluate(ts: seq<TransitionConfig>, order: seq<nat>, p: nat, state: string, scope: Scope, guards: Guards):
      Result<Option<nat>, ()>
    requires OrderOf(ts, order, |ts|) && p <= |order|
    decreases |order| - p
  {
    if p == |order| then Ok(None)
    else if !Applicable(ts[order[p]], state) then Evaluate(ts, order, p + 1, state, scope, guards)
    else
      match guards(order[p], scope)
      case Holds(_) => Ok(Some(order[p]))
      case Raises => Err(())
      case Fails(next) => Evaluate(ts, order, p + 1, state, next, guards)
  }

  function Fired(config: Config, state: string, scope: Scope, guards: Guards): Result<Option<nat>, ()> {
    Evaluate(config.transitions, EvaluationOrder(config.transitions, |config.transitions|), 0, state, scope, guards)
  }

  /** The scope after the first p candidates, if every applicable one evaluated to false. */
  function ScopeAfter(ts: seq<TransitionConfig>, order: seq<nat>, p: nat, state: string, scope: Scope, guards: Guards): Option<Scope>
    requires OrderOf(ts, order, |ts|) && p <= |order|
  {
    if p == 0 then Some(scope)
    else
      var s := ScopeAfter(ts, order, p - 1, state, scope, guards);
      if s.None? || !Applicable(ts[order[p - 1]], state) then s
      else
        match guards(order[p - 1], s.value)
        case Fails(next) => Some(next)
        case _ => None
  }

  lemma {:induction false} EvaluateSkips(ts: seq<TransitionConfig>, order: seq<nat>, p: nat, state: string, scope: Scope, guards: Guards)
    requires OrderOf(ts, order, |ts|) && p <= |order|
    ensures var s := ScopeAfter(ts, order, p, state, scope, guards);
            s.Some? ==> Evaluate(ts, order, 0, state, scope, guards) == Evaluate(ts, order, p, state, s.value, guards)
  {
    if p > 0 {
      EvaluateSkips(ts, order, p - 1, state, scope, guards);
    }
  }

  lemma {:induction false} EvaluateStopsAt(ts: seq<TransitionConfig>, order: seq<nat>, p: nat, state: string, s: Scope, guards: Guards)
    returns (q: nat, t: Scope)
    requires OrderOf(ts, order, |ts|) && p <= |order|
    requires Evaluate(ts, order, p, state, s, guards) != Ok(None)
    ensures p <= q < |order| && Applicable(ts[order[q]], state)
    ensures guards(order[q], t) == Raises <==> Evaluate(ts, order, p, state, s, guards).Err?
    ensures guards(order[q], t).Holds? <==> Evaluate(ts, order, p, state, s, guards) == Ok(Some(order[q]))
    ensures !guards(order[q], t).Fails?
    ensures forall scope :: ScopeAfter(ts, order, p, state, scope, guards) == Some(s) ==>
              ScopeAfter(ts, order, q, state, scope, guards) == Some(t)
    decreases |order| - p
  {
    if !Applicable(ts[order[p]], state) {
      q, t := EvaluateStopsAt(ts, order, p + 1, state, s, guards);
    } else if guards(order[p], s).Fails? {
      q, t := EvaluateStopsAt(ts, order, p + 1, state, guards(order[p], s).scope, guards);
    } else {
      q, t := p, s;
    }
  }

  /** The p-th candidate is transition i, it applies, and its guard holds after all earlier candidates failed. */
  predicate FiresAt(config: Config, state: string, scope: Scope, guards: Guards, i: nat, p: nat)
    requires i < |config.transitions|
  {
    var ts := config.transitions;
    var order := EvaluationOrder(ts, |ts|);
    && p < |order| && order[p] == i && (ts[i].from == "*" || ts[i].from == state)
    && var s := ScopeAfter(ts, order, p, state, scope, guards);
       s.Some? && guards(i, s.value).Holds?
  }

  /**
   A transition fires iff it applies, its guard holds on the scope threaded through the earlier candidates, and each
   applicable transition before it, by priority and then by configuration order, evaluated to false.
   */
  lemma {:induction false} FiresIff(config: Config, state: string, scope: Scope, guards: Guards, i: nat)
    requires i < |config.transitions|
    ensures Fired(config, state, scope, guards) == Ok(Some(i)) <==> exists p: nat :: FiresAt(config, state, scope, guards, i, p)
  {
    var ts := config.transitions;
    var order := EvaluationOrder(ts, |ts|);
    if Fired(config, state, scope, guards) == Ok(Some(i)) {
      var q, t := EvaluateStopsAt(ts, order, 0, state, scope, guards);
      assert ScopeAfter(ts, order, 0, state, scope, guards) == Some(scope);
      assert FiresAt(config, state, scope, guards, i, q);
    }
    forall p: nat | FiresAt(config, state, scope, guards, i, p) ensures Fired(config, state, scope, guards) == Ok(Some(i)) {
      EvaluateSkips(ts, order, p, state, scope, guards);
    }
  }

  /** Every applicable transition that comes before a candidate reached by the search evaluated to false. */
  lemma {:induction false} EarlierOnesFailed(config: Config, state: string, scope: Scope, guards: Guards, p: nat, j: nat)
    requires var ts := config.transitions;
             var order := EvaluationOrder(ts, |ts|);
             && p < |order| && j < |ts| && (ts[j].from == "*" || ts[j].from == state)
             && (ts[j].priority > ts[order[p]].priority || (ts[j].priority == ts[order[p]].priority && j < order[p]))
             && ScopeAfter(ts, order, p, state, scope, guards).Some?
    ensures var ts := config.transitions;
            var order := EvaluationOrder(ts, |ts|);
            exists q :: 0 <= q < p && order[q] == j && ScopeAfter(ts, order, q, state, scope, guards).Some?
                        && guards(j, ScopeAfter(ts, order, q, state, scope, guards).value).Fails?
  {
    EarlierFailed(config.transitions, EvaluationOrder(config.transitions, |config.transitions|), state, scope, guards, p, j);
  }

  lemma {:induction false} EarlierFailed(ts: seq<TransitionConfig>, order: seq<nat>, state: string, scope: Scope, guards: Guards,
                                         p: nat, j: nat)
    requires OrderOf(ts, order, |ts|) && p < |order| && j < |ts| && Before(ts, j, order[p]) && Applicable(ts[j], state)
    requires ScopeAfter(ts, order, p, state, scope, guards).Some?
    ensures exists q :: 0 <= q < p && order[q] == j && ScopeAfter(ts, order, q, state, scope, guards).Some?
                        && guards(j, ScopeAfter(ts, order, q, state, scope, guards).value).Fails?
  {
    assert j in order;
    var q :| 0 <= q < |order| && order[q] == j;
    assert q < p by {
      assert p < q ==> Before(ts, order[p], order[q]);
    }
    ScopeStaysUndefined(ts, order, q + 1, p, state, scope, guards);
  }

  lemma {:induction false} ScopeStaysUndefined(ts: seq<TransitionConfig>, order: seq<nat>, q: nat, p: nat, state: string,
                                               scope: Scope, guards: Guards)
    requires OrderOf(ts, order, |ts|) && q <= p <= |order|
    ensures ScopeAfter(ts, order, p, state, scope, guards).Some? ==> ScopeAfter(ts, order, q, state, scope, guards).Some?
  {
    if q < p {
      ScopeStaysUndefined(ts, order, q, p - 1, state, scope, guards);
    }
  }

  // ---- Ports ----

  /** The port is an entry, exit or transition action somewhere in the configuration. */
  predicate Mentions(config: Config, port: string) {
    || (exists i :: 0 <= i < |config.states| && (port in config.states[i].entryActions || port in config.states[i].exitActions))
    || (exists i :: 0 <= i < |config.transitions| && config.transitions[i].actionPort == Some(port))
  }

  predicate Distinct(ports: seq<string>) {
    forall i, j :: 0 <= i < j < |ports| ==> ports[i] != ports[j]
  }

  method AddPorts(ports: seq<string>, seen: set<string>, more: seq<string>) returns (ports': seq<string>, seen': set<string>)
    requires Distinct(ports) && seen == set p | p in ports
    ensures Distinct(ports') && seen' == set p | p in ports'
    ensures seen' == seen + set p | p in more
  {
    ports', seen' := ports, seen;
    for i := 0 to |more|
      invariant Distinct(ports') && seen' == set p | p in ports'
      invariant seen' == seen + set p | p in more[..i]
    {
      if more[i] !in seen' {
        seen' := seen' + {more[i]};
        ports' := ports' + [more[i]];
      }
      assert more[..i + 1] == more[..i] + [more[i]];
    }
    assert more[..|more|] == more;
  }

  /** The output pins of the node: each mentioned port once. */
  method CollectActionPorts(config: Config) returns (ports: seq<string>)
    ensures Distinct(ports)
    ensures forall p :: p in ports <==> Mentions(config, p)
  {
    var seen: set<string> := {};
    ports := [];
    for i := 0 to |config.states|
      invariant Distinct(ports) && seen == set p | p in ports
      invariant forall p :: p in seen <==>
                  exists k :: 0 <= k < i && (p in config.states[k].entryActions || p in config.states[k].exitActions)
    {
      ports, seen := AddPorts(ports, seen, config.states[i].entryActions);
      ports, seen := AddPorts(ports, seen, config.states[i].exitActions);
    }
    ghost var ofStates := seen;
    for i := 0 to |config.transitions|
      invariant Distinct(ports) && seen == set p | p in ports
      invariant forall p :: p in seen <==>
                  p in ofStates || exists k :: 0 <= k < i && config.transitions[k].actionPort == Some(p)
    {
      if config.transitions[i].actionPort.Some? {
        ports, seen := AddPorts(ports, seen, [config.transitions[i].actionPort.value]);
      }
    }
    assert forall p :: p in ports <==> p in seen;
  }

  function FindState(states: seq<StateConfig>, name: string): (r: Option<StateConfig>)
    ensures r.Some? ==> r.value in states && r.value.name == name
    ensures r.None? <==> forall i :: 0 <= i < |states| ==> states[i].name != name
  {
    if states == [] then None
    else if states[0].name == name then Some(states[0])
    else FindState(states[1..], name)
  }

  function ExitPorts(config: Config, state: string): seq<string> {
    var s := FindState(config.states, state);
    if s.Some? then s.value.exitActions else []
  }

  function EntryPorts(config: Config, state: string): seq<string> {
    var s := FindState(config.states, state);
    if s.Some? then s.value.entryActions else []
  }

  function TransitionPorts(t: TransitionConfig): seq<string> {
    if t.actionPort.Some? then [t.actionPort.value] else []
  }

  /** Exit actions of the old state, then the transition's, then the entry actions of the new state. */
  function RoutedPorts(config: Config, state: string, t: TransitionConfig): seq<string> {
    ExitPorts(config, state) + TransitionPorts(t) + EntryPorts(config, t.to)
  }

  lemma {:induction false} RoutedPortsAreDeclared(config: Config, state: string, i: nat, port: string)
    requires i < |config.transitions| && port in RoutedPorts(config, state, config.transitions[i])
    ensures Mentions(config, port)
  {
    var t := config.transitions[i];
    var from, to := FindState(config.states, state), FindState(config.states, t.to);
    if port in ExitPorts(config, state) {
      var k :| 0 <= k < |config.states| && config.states[k] == from.value;
      assert port in config.states[k].exitActions;
    } else if port in EntryPorts(config, t.to) {
      var k :| 0 <= k < |config.states| && config.states[k] == to.value;
      assert port in config.states[k].entryActions;
    }
  }

  /** The first configured state of a name, or none. */
  predicate IsFirst(states: seq<StateConfig>, name: string, at: Option<nat>) {
    match at
    case None => forall j :: 0 <= j < |states| ==> states[j].name != name
    case Some(k) => k < |states| && states[k].name == name && forall j :: 0 <= j < k ==> states[j].name != name
  }

  lemma {:induction false} FindStateIsFirst(states: seq<StateConfig>, name: string, at: Option<nat>)
    requires IsFirst(states, name, at)
    ensures FindState(states, name) == if at.None? then None else Some(states[at.value])
  {
    if states != [] && states[0].name != name {
      assert forall j :: 0 < j < |states| ==> states[j] == states[1..][j - 1];
      FindStateIsFirst(states[1..], name, if at.None? then None else Some(at.value - 1));
    }
  }

  /** The ports are the old state's exit actions, the transition's action, and the new state's entry actions. */
  ghost predicate PortsInOrder(config: Config, state: string, t: TransitionConfig, ports: seq<string>) {
    forall from: Option<nat>, to: Option<nat> :: IsFirst(config.states, state, from) && IsFirst(config.states, t.to, to) ==>
      ports == (if from.Some? then config.states[from.value].exitActions else [])
               + (if t.actionPort.Some? then [t.actionPort.value] else [])
               + (if to.Some? then config.states[to.value].entryActions else [])
  }

  lemma {:induction false} RoutedPortsAre(config: Config, state: string, t: TransitionConfig)
    ensures PortsInOrder(config, state, t, RoutedPorts(config, state, t))
  {
    forall from: Option<nat>, to: Option<nat> | IsFirst(config.states, state, from) && IsFirst(config.states, t.to, to)
      ensures FindState(config.states, state) == (if from.None? then None else Some(config.states[from.value]))
      ensures FindState(config.states, t.to) == (if to.None? then None else Some(config.states[to.value]))
    {
      FindStateIsFirst(config.states, state, from);
      FindStateIsFirst(config.states, t.to, to);
    }
  }

  /** A name is configured at a first place, or nowhere. */
  lemma {:induction false} FirstExists(states: seq<StateConfig>, name: string) returns (at: Option<nat>)
    ensures IsFirst(states, name, at)
  {
    if states == [] {
      at := None;
    } else if states[0].name == name {
      at := Some(0);
    } else {
      var rest := FirstExists(states[1..], name);
      assert forall j :: 0 < j < |states| ==> states[j] == states[1..][j - 1];
      at := if rest.None? then None else Some(rest.value + 1);
    }
  }

  // ---- The node ----

  datatype Execution = Broadcast | Leaf(from: string, to: string) | Routed(from: string, to: string, ports: seq<string>)

  datatype Error = NoVariables | StateMissing | StateNotText | GuardFailed | WriteRefused

  /** The node's state variable: absent, or declared with a value and a type that may refuse text. */
  datatype Variable = Undeclared | Declared(value: Value, takesText: bool)

  class StateMachineNode {
    const config: Config
    const hasVariables: bool
    const actionPorts: seq<string>
    var variable: Variable

    constructor (config: Config, hasVariables: bool, variable: Variable, actionPorts: seq<string>)
      ensures this.config == config && this.hasVariables == hasVariables && this.variable == variable
      ensures this.actionPorts == actionPorts
    {
      this.config, this.hasVariables, this.variable, this.actionPorts := config, hasVariables, variable, actionPorts;
    }

    /** Pins and scripts are checked once; `compiles` says whether every guard script compiled. */
    static method New(config: Config, hasVariables: bool, variable: Variable, compiles: bool) returns (node: StateMachineNode?)
      ensures node == null <==> config.maxOperations == 0 || !compiles
      ensures node != null ==> fresh(node) && node.config == config && node.hasVariables == hasVariables
                               && node.variable == variable && node.PinsOk()
    {
      if config.maxOperations == 0 {
        return null;
      }
      var ports := CollectActionPorts(config);
      if !compiles {
        return null;
      }
      node := new StateMachineNode(config, hasVariables, variable, ports);
    }

    ghost predicate PinsOk() {
      Distinct(actionPorts) && forall p :: p in actionPorts <==> Mentions(config, p)
    }

    function State(): Result<string, Error>
      reads this
    {
      if !hasVariables then Err(NoVariables)
      else if variable == Undeclared then Err(StateMissing)
      else if !variable.value.Text? then Err(StateNotText)
      else Ok(variable.value.s)
    }

    method EvaluateTransitions(state: string, payload: Value, guards: Guards) returns (r: Result<Option<nat>, ()>)
      ensures r == Fired(config, state, map["payload" := payload], guards)
    {
      var scope: Scope := map["payload" := payload];
      var ts := config.transitions;
      var order := EvaluationOrder(ts, |ts|);
      ghost var goal := Evaluate(ts, order, 0, state, scope, guards);
      for p := 0 to |order|
        invariant Evaluate(ts, order, p, state, scope, guards) == goal
      {
        if !Applicable(ts[order[p]], state) {
          continue;
        }
        match guards(order[p], scope) {
          case Holds(_) => return Ok(Some(order[p]));
          case Raises => return Err(());
          case Fails(next) => scope := next;
        }
      }
      return Ok(None);
    }

    /**
     Without a transition, or after any error, the state is untouched. A fired transition moves the state to its target
     and routes exit, transition and entry ports in this order, all of them output pins.
     */
    method Transform(payload: Value, guards: Guards) returns (r: Result<Execution, Error>)
      requires PinsOk()
      modifies this`variable
      ensures r.Err? || r == Ok(Broadcast) ==> variable == old(variable)
      ensures old(State()).Err? ==> r == Err(old(State()).error)
      ensures old(State()).Ok? ==>
                match Fired(config, old(State()).value, map["payload" := payload], guards) {
                  case Err(_) => r == Err(GuardFailed)
                  case Ok(None) => r == Ok(Broadcast)
                  case Ok(Some(i)) =>
                    i < |config.transitions| &&
                    var t := config.transitions[i];
                    var ports := RoutedPorts(config, old(State()).value, t);
                    if !old(variable).takesText then r == Err(WriteRefused)
                    else && State() == Ok(t.to) && PortsInOrder(config, old(State()).value, t, ports)
                         && r == Ok(if ports == [] then Leaf(old(State()).value, t.to) else Routed(old(State()).value, t.to, ports))
                }
      ensures r.Ok? && r.value.Routed? ==> forall p :: p in r.value.ports ==> p in actionPorts
    {
      var current := State();
      if current.Err? {
        return Err(current.error);
      }
      var fired := EvaluateTransitions(current.value, payload, guards);
      FiredInRange(config, current.value, map["payload" := payload], guards);
      if fired.Err? {
        return Err(GuardFailed);
      }
      if fired.value.None? {
        return Ok(Broadcast);
      }
      var t := config.transitions[fired.value.value];
      var ports := ExitPorts(config, current.value) + TransitionPorts(t);
      if !variable.takesText {
        return Err(WriteRefused);
      }
      variable := variable.(value := Text(t.to));
      ports := ports + EntryPorts(config, t.to);
      RoutedPortsAre(config, current.value, t);
      if ports == [] {
        return Ok(Leaf(current.value, t.to));
      }
      forall p | p in ports ensures p in actionPorts {
        RoutedPortsAreDeclared(config, current.value, fired.value.value, p);
      }
      return Ok(Routed(current.value, t.to, ports));
    }
  }

  lemma {:induction false} EvaluateInRange(ts: seq<TransitionConfig>, order: seq<nat>, p: nat, state: string, scope: Scope, guards: Guards)
    requires OrderOf(ts, order, |ts|) && p <= |order|
    ensures var r := Evaluate(ts, order, p, state, scope, guards); r.Ok? && r.value.Some? ==> r.value.value < |ts|
    decreases |order| - p
  {
    if p < |order| {
      EvaluateInRange(ts, order, p + 1, state, scope, guards);
      if guards(order[p], scope).Fails? {
        EvaluateInRange(ts, order, p + 1, state, guards(order[p], scope).scope, guards);
      }
    }
  }

  lemma {:induction false} FiredInRange(config: Config, state: string, scope: Scope, guards: Guards)
    ensures var r := Fired(config, state, scope, guards); r.Ok? && r.value.Some? ==> r.value.value < |config.transitions|
  {
    EvaluateInRange(config.transitions, EvaluationOrder(config.transitions, |config.transitions|), 0, state, scope, guards);
  }

  // ---- Validated specifications ----

  /** The node's configuration carries the states and transitions of the specification. */
  predicate Compiled(spec: Spec, config: Config) {
    && (forall i :: 0 <= i < |config.states| ==> config.states[i].name in spec.states)
    && (forall name :: name in spec.states ==> exists i :: 0 <= i < |config.states| && config.states[i].name == name)
    && |config.transitions| == |spec.transitions|
    && forall i :: 0 <= i < |spec.transitions| ==>
         var t, u := config.transitions[i], spec.transitions[i];
         t.from == u.from && t.to == u.to && t.when == u.when && t.priority == if u.priority.Some? then u.priority.value else 0
  }

  /** The state after one activation. */
  function NextState(config: Config, state: string, payload: Value, guards: Guards): string {
    var r := Fired(config, state, map["payload" := payload], guards);
    if r.Ok? && r.value.Some? && r.value.value < |config.transitions| then config.transitions[r.value.value].to else state
  }

  function StateAfter(config: Config, state: string, inputs: seq<(Value, Guards)>): string {
    if inputs == [] then state
    else
      var last := inputs[|inputs| - 1];
      NextState(config, StateAfter(config, state, inputs[..|inputs| - 1]), last.0, last.1)
  }

  /** With a validated specification the state is a declared state after any number of activations, and has its actions. */
  lemma {:induction false} StateStaysDeclared(spec: Spec, config: Config, state: string, inputs: seq<(Value, Guards)>)
    requires WellFormed(spec) && Compiled(spec, config) && state in spec.states
    ensures StateAfter(config, state, inputs) in spec.states
    ensures FindState(config.states, StateAfter(config, state, inputs)).Some?
  {
    if inputs != [] {
      var front := inputs[..|inputs| - 1];
      StateStaysDeclared(spec, config, state, front);
      var s, last := StateAfter(config, state, front), inputs[|inputs| - 1];
      FiredInRange(config, s, map["payload" := last.0], last.1);
      var r := Fired(config, s, map["payload" := last.0], last.1);
      if r.Ok? && r.value.Some? {
        assert TransitionOk(spec, r.value.value);
      }
    }
  }
}
