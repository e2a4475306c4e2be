/** Pin types and pin kinds: what may be wired to what (crates/core/src/pin.rs). */
module Pin {
  datatype PinType = Any | Bool | Integer | Float | String | Json | Binary | Array(inner: PinType) | Custom(name: string)

  predicate TypesCompatible(out: PinType, input: PinType) {
    if out.Any? || input.Any? then true
    else
      match out
      case Array(a) => input.Array? && TypesCompatible(a, input.inner)
      case Custom(a) => input.Custom? && a == input.name
      case _ => out == input
  }

  // ---- What a pin type means ----

  /** A type of actual values: it leaves nothing open. */
  predicate Concrete(t: PinType) {
    match t
    case Any => false
    case Array(inner) => Concrete(inner)
    case _ => true
  }

  /** Values of the concrete type t may travel through a pin declared as p. */
  predicate Admits(p: PinType, t: PinType) {
    p.Any? || (if p.Array? then t.Array? && Admits(p.inner, t.inner) else p == t)
  }

  /** A concrete type for the places a declaration leaves open. */
  function Filled(p: PinType): (t: PinType)
    ensures Concrete(t) && Admits(p, t)
  {
    match p
    case Any => Bool
    case Array(inner) => Array(Filled(inner))
    case _ => p
  }

  /** A concrete type both sides admit, when they are compatible. */
  function Common(p: PinType, q: PinType): (t: PinType)
    requires TypesCompatible(p, q)
    ensures PassesBoth(p, q, t)
  {
    if p.Any? then Filled(q)
    else if p.Array? && q.Array? then Array(Common(p.inner, q.inner))
    else Filled(p)
  }

  predicate PassesBoth(p: PinType, q: PinType, t: PinType) {
    Concrete(t) && Admits(p, t) && Admits(q, t)
  }

  lemma {:induction false} AdmittedByBoth(p: PinType, q: PinType, t: PinType)
    requires PassesBoth(p, q, t)
    ensures TypesCompatible(p, q)
  {
    if p.Array? && q.Array? {
      AdmittedByBoth(p.inner, q.inner, t.inner);
    }
  }

  /** Two pins may be wired exactly when some type of values can pass through both, at any array depth. */
  lemma {:induction false} CompatibleIff(p: PinType, q: PinType)
    ensures TypesCompatible(p, q) <==> exists t :: PassesBoth(p, q, t)
  {
    if TypesCompatible(p, q) {
      assert PassesBoth(p, q, Common(p, q));
    }
    if t :| PassesBoth(p, q, t) {
      AdmittedByBoth(p, q, t);
    }
  }

  lemma {:induction false} CompatibleIsSymmetric(p: PinType, q: PinType)
    ensures TypesCompatible(p, p) && (TypesCompatible(p, q) <==> TypesCompatible(q, p))
  {
    AdmittedByBoth(p, p, Filled(p));
    if TypesCompatible(p, q) {
      AdmittedByBoth(q, p, Common(p, q));
    }
    if TypesCompatible(q, p) {
      AdmittedByBoth(p, q, Common(q, p));
    }
  }

  /**
   Compatibility cannot be chained, whatever the ends: through Any every type reaches every other, so it is
   transitive over exactly those middle types that leave nothing open.
   */
  lemma {:induction false} ChainsIffConcrete(middle: PinType)
    ensures (forall p, q :: TypesCompatible(p, middle) && TypesCompatible(middle, q) ==> TypesCompatible(p, q)) <==> Concrete(middle)
  {
    if Concrete(middle) {
      forall p, q | TypesCompatible(p, middle) && TypesCompatible(middle, q) ensures TypesCompatible(p, q) {
        OnlyItself(middle, Common(p, middle));
        OnlyItself(middle, Common(middle, q));
        AdmittedByBoth(p, q, middle);
      }
    } else {
      var p, q := Opened(middle, Bool), Opened(middle, Integer);
      OpenedFits(middle, Bool, Integer);
      CompatibleIsSymmetric(middle, p);
      assert TypesCompatible(p, middle) && TypesCompatible(middle, q) && !TypesCompatible(p, q);
    }
  }

  lemma {:induction false} OnlyItself(p: PinType, t: PinType)
    requires Concrete(p) && Admits(p, t)
    ensures t == p
  {
    if p.Array? {
      OnlyItself(p.inner, t.inner);
    }
  }

  /** The open place of a declaration given a type. */
  function Opened(p: PinType, t: PinType): PinType {
    match p
    case Any => t
    case Array(inner) => Array(Opened(inner, t))
    case _ => p
  }

  lemma {:induction false} OpenedFits(p: PinType, s: PinType, t: PinType)
    requires !Concrete(p) && !TypesCompatible(s, t)
    ensures TypesCompatible(p, Opened(p, s)) && TypesCompatible(p, Opened(p, t)) && !TypesCompatible(Opened(p, s), Opened(p, t))
  {
    if p.Array? {
      OpenedFits(p.inner, s, t);
    }
  }

  // ---- Kinds ----

  datatype PinKind = Exec | Data | Reactive

  predicate KindsCompatible(out: PinKind, input: PinKind) {
    match (out, input)
    case (Exec, Exec) => true
    case (Data, Data) => true
    case (Reactive, _) => true
    case (_, _) => false
  }

  datatype Delivery = Push | Cache

  /** An Exec pin pushes references, a Data pin keeps a cached value, a Reactive pin does both. */
  function Deliveries(k: PinKind): set<Delivery> {
    match k
    case Exec => {Push}
    case Data => {Cache}
    case Reactive => {Push, Cache}
  }

  /** An output may feed an input exactly when it provides every delivery the input's kind stands for. */
  lemma KindsIff(out: PinKind, input: PinKind)
    ensures KindsCompatible(out, input) <==> Deliveries(input) <= Deliveries(out)
  {
    assert Push in Deliveries(Exec) && Push !in Deliveries(Data) && Cache in Deliveries(Data) && Cache !in Deliveries(Exec);
    assert Push in Deliveries(Reactive) && Cache in Deliveries(Reactive);
  }

  // ---- Pins ----

  datatype Pin = Pin(id: string, pinType: PinType, required: bool, kind: PinKind)
}
