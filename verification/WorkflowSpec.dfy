/** Static validation of a workflow's state machine (crates/dsl-compiler/src/validate.rs). */
module WorkflowSpec {
  import opened Prelude

  datatype TransitionSpec = TransitionSpec(from: string, to: string, when: string, priority: Option<nat>)

  datatype Spec = Spec(states: set<string>, transitions: seq<TransitionSpec>, timeouts: set<string>, onTimeout: Option<string>)

  datatype SpecError =
    | NoStates
    | UnknownFrom(i: nat)
    | UnknownTo(i: nat)
    | WildcardWithoutPriority(i: nat)
    | DuplicateTransition(i: nat)
    | UnknownTimeoutState(state: string)
    | UnknownOnTimeout

  predicate SameTriple(a: TransitionSpec, b: TransitionSpec) {
    a.from == b.from && a.to == b.to && a.when == b.when
  }

  predicate TransitionOk(spec: Spec, i: nat)
    requires i < |spec.transitions|
  {
    var t := spec.transitions[i];
    && (t.from == "*" || t.from in spec.states)
    && t.to in spec.states
    && (t.from == "*" ==> t.priority.Some?)
    && (forall j :: 0 <= j < i ==> !SameTriple(spec.transitions[j], t))
  }

  predicate WellFormed(spec: Spec) {
    && spec.states != {}
    && (forall i :: 0 <= i < |spec.transitions| ==> TransitionOk(spec, i))
    && spec.timeouts <= spec.states
    && (spec.onTimeout.Some? ==> spec.onTimeout.value in spec.states)
  }

  /** The list of errors is empty exactly for a well-formed specification. */
  method ValidateWorkflowSpec(spec: Spec) returns (errors: seq<SpecError>)
    ensures errors == [] <==> WellFormed(spec)
  {
    errors := if spec.states == {} then [NoStates] else [];
    var seen: set<(string, string, string)> := {};
    for i := 0 to |spec.transitions|
      invariant seen == set j | 0 <= j < i :: var t := spec.transitions[j]; (t.from, t.to, t.when)
      invariant errors == [] <==> spec.states != {} && forall j :: 0 <= j < i ==> TransitionOk(spec, j)
    {
      var t := spec.transitions[i];
      ghost var before := errors;
      if t.from != "*" && t.from !in spec.states {
        errors := errors + [UnknownFrom(i)];
      }
      if t.to !in spec.states {
        errors := errors + [UnknownTo(i)];
      }
      if t.from == "*" && t.priority.None? {
        errors := errors + [WildcardWithoutPriority(i)];
      }
      assert (t.from, t.to, t.when) in seen <==> exists j :: 0 <= j < i && SameTriple(spec.transitions[j], t);
      if (t.from, t.to, t.when) in seen {
        errors := errors + [DuplicateTransition(i)];
      }
      assert errors == [] <==> before == [] && TransitionOk(spec, i);
      seen := seen + {(t.from, t.to, t.when)};
    }
    var todo := spec.timeouts;
    ghost var before := errors;
    while todo != {}
      invariant todo <= spec.timeouts
      invariant errors == [] <==> before == [] && spec.timeouts - todo <= spec.states
      decreases todo
    {
      var name :| name in todo;
      if name !in spec.states {
        errors := errors + [UnknownTimeoutState(name)];
        assert name in spec.timeouts - (todo - {name});
      }
      todo := todo - {name};
    }
    if spec.onTimeout.Some? && spec.onTimeout.value !in spec.states {
      errors := errors + [UnknownOnTimeout];
    }
  }

  // ---- Initial state ----

  /** Lexicographic order on names. */
  predicate Leq(a: string, b: string) {
    a == [] || (b != [] && (a[0] < b[0] || (a[0] == b[0] && Leq(a[1..], b[1..]))))
  }

  lemma {:induction false} LeqTotal(a: string, b: string)
    ensures Leq(a, b) || Leq(b, a)
  {
    if a != [] && b != [] && a[0] == b[0] {
      LeqTotal(a[1..], b[1..]);
    }
  }

  lemma {:induction false} LeqTransitive(a: string, b: string, c: string)
    requires Leq(a, b) && Leq(b, c)
    ensures Leq(a, c)
  {
    if a != [] && a[0] == b[0] == c[0] {
      LeqTransitive(a[1..], b[1..], c[1..]);
    }
  }

  lemma {:induction false} LeqAntisymmetric(a: string, b: string)
    requires Leq(a, b) && Leq(b, a)
    ensures a == b
  {
    if a != [] {
      LeqAntisymmetric(a[1..], b[1..]);
      assert a == [a[0]] + a[1..] && b == [b[0]] + b[1..];
    }
  }

  predicate IsLeast(name: string, names: set<string>) {
    name in names && forall other :: other in names ==> Leq(name, other)
  }

  /** The state named "idle" if there is one, the first in order otherwise. */
  method DetermineInitialState(spec: Spec) returns (r: Option<string>)
    ensures r == None <==> spec.states == {}
    ensures r.Some? ==> r.value in spec.states
    ensures "idle" in spec.states ==> r == Some("idle")
    ensures r.Some? && "idle" !in spec.states ==> IsLeast(r.value, spec.states)
  {
    if spec.states == {} {
      return None;
    }
    if "idle" in spec.states {
      return Some("idle");
    }
    var least :| least in spec.states;
    var todo := spec.states - {least};
    LeqTotal(least, least);
    while todo != {}
      invariant todo <= spec.states
      invariant IsLeast(least, spec.states - todo)
      decreases todo
    {
      var name :| name in todo;
      LeqTotal(least, name);
      LeqTotal(name, name);
      if !Leq(least, name) {
        forall other | other in spec.states - todo ensures Leq(name, other) {
          LeqTransitive(name, least, other);
        }
        least := name;
      }
      todo := todo - {name};
    }
    assert spec.states - todo == spec.states;
    return Some(least);
  }

  /** The least name is unique, so the choice does not depend on the order in which a hash map lists its keys. */
  lemma {:induction false} LeastIsUnique(a: string, b: string, names: set<string>)
    requires IsLeast(a, names) && IsLeast(b, names)
    ensures a == b
  {
    LeqAntisymmetric(a, b);
  }
}
