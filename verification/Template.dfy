/**
 `${name}` templates: the in-place expansion at run time (crates/nodes-io/src/capability_call.rs) and the static
 scanner and validator (crates/dsl-core/src/capability.rs). Strings are sequences of characters; the delimiters
 are ASCII, so byte and character positions delimit the same text.
 */
module Template {
  import opened Prelude
  import opened Text

  // ---- Searching ----

  predicate OpensAt(s: string, i: nat) {
    i + 1 < |s| && s[i] == '$' && s[i + 1] == '{'
  }

  function FindOpen(s: string, from: nat): (r: Option<nat>)
    requires from <= |s|
    ensures r.Some? ==> from <= r.value && r.value + 1 < |s|
    decreases |s| - from
  {
    if from == |s| then None
    else if OpensAt(s, from) then Some(from)
    else FindOpen(s, from + 1)
  }

  function FindClose(s: string, from: nat): (r: Option<nat>)
    requires from <= |s|
    ensures r.Some? ==> from <= r.value < |s|
    decreases |s| - from
  {
    if from == |s| then None
    else if s[from] == '}' then Some(from)
    else FindClose(s, from + 1)
  }

  /** Both searches find the first match. */
  lemma {:induction false} FindOpenFirst(s: string, from: nat)
    requires from <= |s|
    ensures var r := FindOpen(s, from);
            && (r.Some? ==> OpensAt(s, r.value))
            && forall i :: from <= i < (if r.Some? then r.value else |s|) ==> !OpensAt(s, i)
    decreases |s| - from
  {
    if from < |s| {
      FindOpenFirst(s, from + 1);
    }
  }

  lemma {:induction false} FindCloseFirst(s: string, from: nat)
    requires from <= |s|
    ensures var r := FindClose(s, from);
            && (r.Some? ==> s[r.value] == '}')
            && forall i :: from <= i < (if r.Some? then r.value else |s|) ==> s[i] != '}'
    decreases |s| - from
  {
    if from < |s| {
      FindCloseFirst(s, from + 1);
    }
  }

  /** An opening bracket takes two characters, neither of which closes it. */
  lemma {:induction false} ClosesLater(s: string, open: nat)
    requires OpensAt(s, open)
    ensures var r := FindClose(s, open); r.Some? ==> open + 2 <= r.value
  {
    FindCloseFirst(s, open);
    var r := FindClose(s, open);
    if r.Some? {
      assert s[open] == '$' && s[open + 1] == '{' && s[r.value] == '}';
    }
  }

  /** From i on, a reads like b from j on. */
  ghost predicate SameTail(a: string, i: nat, b: string, j: nat)
    decreases |a| - i
  {
    i <= |a| && j <= |b| && |a| - i == |b| - j && (i < |a| ==> a[i] == b[j] && SameTail(a, i + 1, b, j + 1))
  }

  lemma {:induction false} SameTailAt(a: string, i: nat, b: string, j: nat, n: nat)
    requires SameTail(a, i, b, j) && i + n <= |a|
    ensures SameTail(a, i + n, b, j + n)
    decreases n
  {
    if n > 0 {
      SameTailAt(a, i + 1, b, j + 1, n - 1);
    }
  }

  lemma {:induction false} EqualTails(a: string, i: nat, b: string, j: nat)
    requires i <= |a| && j <= |b| && a[i..] == b[j..]
    ensures SameTail(a, i, b, j)
    decreases |a| - i
  {
    assert |a[i..]| == |b[j..]|;
    if i < |a| {
      assert a[i..][0] == b[j..][0];
      assert a[i..][1..] == a[i + 1..] && b[j..][1..] == b[j + 1..];
      EqualTails(a, i + 1, b, j + 1);
    }
  }

  function Moved(r: Option<nat>, d: int): Option<int> {
    if r.None? then None else Some(r.value + d)
  }

  /** What a search finds depends on the rest of the text only. */
  lemma {:induction false} SameFindOpen(a: string, i: nat, b: string, j: nat)
    requires SameTail(a, i, b, j)
    ensures FindOpen(b, j) == Moved(FindOpen(a, i), j - i)
    decreases |a| - i
  {
    if i < |a| {
      SameFindOpen(a, i + 1, b, j + 1);
    }
  }

  lemma {:induction false} SameFindClose(a: string, i: nat, b: string, j: nat)
    requires SameTail(a, i, b, j)
    ensures FindClose(b, j) == Moved(FindClose(a, i), j - i)
    decreases |a| - i
  {
    if i < |a| {
      SameFindClose(a, i + 1, b, j + 1);
    }
  }

  // ---- The meaning: one left-to-right pass ----

  /** Where a text opens and closes its placeholders, from left to right. */
  datatype Spans = NoMore | Span(open: nat, close: nat, rest: Spans)

  /** The placeholders lie behind `from` and before `limit`, one after the other. */
  predicate Within(spans: Spans, from: nat, limit: nat) {
    spans.Span? ==> from <= spans.open && spans.open + 2 <= spans.close < limit && Within(spans.rest, spans.close + 1, limit)
  }

  /** A placeholder opens at "${" and closes at the next '}'; an unclosed one ends the search. */
  function Placeholders(t: string, from: nat): (spans: Spans)
    requires from <= |t|
    ensures Within(spans, from, |t|)
    decreases |t| - from
  {
    var open := FindOpen(t, from);
    if open.None? then NoMore
    else
      var close := FindClose(t, open.value);
      if close.None? then NoMore
      else
        FindOpenFirst(t, from);
        ClosesLater(t, open.value);
        Span(open.value, close.value, Placeholders(t, close.value + 1))
  }

  function NamesIn(t: string, from: nat, spans: Spans): seq<string>
    requires Within(spans, from, |t|)
    decreases spans
  {
    match spans
    case NoMore => []
    case Span(open, close, rest) => [t[open + 2..close]] + NamesIn(t, close + 1, rest)
  }

  function Render(t: string, from: nat, spans: Spans, f: string -> string): string
    requires from <= |t| && Within(spans, from, |t|)
    decreases spans
  {
    match spans
    case NoMore => t[from..]
    case Span(open, close, rest) => t[from..open] + f(t[open + 2..close]) + Render(t, close + 1, rest, f)
  }

  function NamesFrom(t: string, from: nat): seq<string>
    requires from <= |t|
  {
    NamesIn(t, from, Placeholders(t, from))
  }

  /** The names looked up, in order. */
  function Names(t: string): seq<string> {
    NamesFrom(t, 0)
  }

  /** Every placeholder replaced by f of its name; what f returns is not looked at again. */
  function Splice(t: string, f: string -> string): string {
    Render(t, 0, Placeholders(t, 0), f)
  }

  function Placeholder(name: string): string {
    "${" + name + "}"
  }

  /** Payload field first, then workflow variable, then argument; an unknown name keeps its placeholder. */
  function ResolveVariable(name: string, payload: Value, variables: map<string, Value>, args: map<string, Value>,
                           show: Value -> string): string
  {
    if payload.Object? && name in payload.fields then show(payload.fields[name])
    else if name in variables then show(variables[name])
    else if name in args then show(args[name])
    else Placeholder(name)
  }

  function Resolver(payload: Value, variables: map<string, Value>, args: map<string, Value>, show: Value -> string): string -> string {
    (name: string) => ResolveVariable(name, payload, variables, args, show)
  }

  predicate Known(name: string, payload: Value, variables: map<string, Value>, args: map<string, Value>) {
    (payload.Object? && name in payload.fields) || name in variables || name in args
  }

  lemma {:induction false} PlaceholderSplit(t: string, from: nat, open: nat, close: nat)
    requires from <= open && open + 2 <= close < |t| && OpensAt(t, open) && t[close] == '}'
    ensures t[from..] == t[from..open] + Placeholder(t[open + 2..close]) + t[close + 1..]
  {
  }

  /**
   Each span opens at the first "${" there is and closes at the first '}' behind it; what is left after the last one
   opens no placeholder that is closed.
   */
  predicate Leftmost(t: string, from: nat, spans: Spans)
    decreases spans
  {
    match spans
    case NoMore => forall o, c :: from <= o <= c < |t| && OpensAt(t, o) ==> t[c] != '}'
    case Span(open, close, rest) =>
      && from <= open < close < |t| && OpensAt(t, open) && t[close] == '}'
      && (forall i :: from <= i < open ==> !OpensAt(t, i))
      && (forall i :: open <= i < close ==> t[i] != '}')
      && Leftmost(t, close + 1, rest)
  }

  /** The searches of the program find exactly the leftmost placeholders. */
  lemma {:induction false} PlaceholdersAreLeftmost(t: string, from: nat)
    requires from <= |t|
    ensures Leftmost(t, from, Placeholders(t, from))
    decreases |t| - from
  {
    FindOpenFirst(t, from);
    var open := FindOpen(t, from);
    if open.Some? {
      FindCloseFirst(t, open.value);
      if FindClose(t, open.value).Some? {
        PlaceholdersAreLeftmost(t, FindClose(t, open.value).value + 1);
      }
    }
  }

  lemma {:induction false} LeftmostIff(t: string, from: nat, spans: Spans)
    requires from <= |t|
    ensures Leftmost(t, from, spans) <==> spans == Placeholders(t, from)
    decreases |t| - from
  {
    PlaceholdersAreLeftmost(t, from);
    if Leftmost(t, from, spans) {
      FindOpenFirst(t, from);
      var open := FindOpen(t, from);
      if open.Some? {
        FindCloseFirst(t, open.value);
        if spans.Span? {
          assert spans.open == open.value;
          var close := FindClose(t, open.value);
          assert close.Some? && close.value == spans.close;
          LeftmostIff(t, spans.close + 1, spans.rest);
        }
      }
    }
  }

  lemma {:induction false} NamesUnfold(t: string, from: nat, spans: Spans)
    requires Within(spans, from, |t|) && spans.Span?
    ensures t[spans.open + 2..spans.close] in NamesIn(t, from, spans)
    ensures forall n :: n in NamesIn(t, spans.close + 1, spans.rest) ==> n in NamesIn(t, from, spans)
  {
  }

  /** Putting every placeholder back gives the text that was read. */
  lemma {:induction false} Unparse(t: string, from: nat, spans: Spans, f: string -> string)
    requires from <= |t| && Within(spans, from, |t|) && Leftmost(t, from, spans)
    requires forall n :: n in NamesIn(t, from, spans) ==> f(n) == Placeholder(n)
    ensures Render(t, from, spans, f) == t[from..]
    decreases spans
  {
    if spans.Span? {
      NamesUnfold(t, from, spans);
      Unparse(t, spans.close + 1, spans.rest, f);
      UnparseStep(t, from, spans, f);
    }
  }

  lemma {:induction false} UnparseStep(t: string, from: nat, spans: Spans, f: string -> string)
    requires from <= |t| && Within(spans, from, |t|) && Leftmost(t, from, spans) && spans.Span?
    requires var name := t[spans.open + 2..spans.close]; f(name) == Placeholder(name)
    requires Render(t, spans.close + 1, spans.rest, f) == t[spans.close + 1..]
    ensures Render(t, from, spans, f) == t[from..]
  {
    PlaceholderSplit(t, from, spans.open, spans.close);
  }

  /** A template whose names are all unknown is returned as it is. */
  lemma {:induction false} NothingResolved(t: string, payload: Value, variables: map<string, Value>, args: map<string, Value>,
                                           show: Value -> string)
    requires forall n :: n in Names(t) ==> !Known(n, payload, variables, args)
    ensures Splice(t, Resolver(payload, variables, args, show)) == t
  {
    var f := Resolver(payload, variables, args, show);
    PlaceholdersAreLeftmost(t, 0);
    forall n | n in NamesIn(t, 0, Placeholders(t, 0)) ensures f(n) == Placeholder(n) {
      assert n in Names(t);
    }
    Unparse(t, 0, Placeholders(t, 0), f);
  }

  /** What a template expands to. */
  function Expansion(t: string, payload: Value, variables: map<string, Value>, args: map<string, Value>, show: Value -> string): string {
    Splice(t, Resolver(payload, variables, args, show))
  }

  lemma {:induction false} RenderAgrees(t: string, from: nat, spans: Spans, f: string -> string, g: string -> string)
    requires from <= |t| && Within(spans, from, |t|)
    requires forall n :: n in NamesIn(t, from, spans) ==> f(n) == g(n)
    ensures Render(t, from, spans, f) == Render(t, from, spans, g)
    decreases spans
  {
    if spans.Span? {
      NamesUnfold(t, from, spans);
      RenderAgrees(t, spans.close + 1, spans.rest, f, g);
    }
  }

  /**
   Each name is replaced by the payload's field of that name, or else by the workflow variable, or else by the argument,
   or else it stays as it was written.
   */
  lemma {:induction false} ExpansionIs(t: string, payload: Value, variables: map<string, Value>, args: map<string, Value>,
                                       show: Value -> string, f: string -> string)
    requires forall n :: n in Names(t) ==>
               f(n) == if payload.Object? && n in payload.fields then show(payload.fields[n])
                       else if n in variables then show(variables[n])
                       else if n in args then show(args[n])
                       else "${" + n + "}"
    ensures Expansion(t, payload, variables, args, show) == Splice(t, f)
  {
    RenderAgrees(t, 0, Placeholders(t, 0), Resolver(payload, variables, args, show), f);
  }

  /** The two maps agree wherever nothing that comes first has the name. */
  ghost predicate AgreeBelow(a: map<string, Value>, b: map<string, Value>, hidden: set<string>) {
    forall n :: n !in hidden ==> (n in a <==> n in b) && (n in a ==> a[n] == b[n])
  }

  function FieldsOf(payload: Value): set<string> {
    if payload.Object? then payload.fields.Keys else {}
  }

  /** A variable or argument that is hidden by what is looked up before it does not matter. */
  lemma {:induction false} HiddenDoesNotMatter(t: string, payload: Value, variables: map<string, Value>, variables': map<string, Value>,
                                               args: map<string, Value>, args': map<string, Value>, show: Value -> string)
    requires AgreeBelow(variables, variables', FieldsOf(payload))
    requires AgreeBelow(args, args', FieldsOf(payload) + variables.Keys)
    ensures Expansion(t, payload, variables, args, show) == Expansion(t, payload, variables', args', show)
  {
    RenderAgrees(t, 0, Placeholders(t, 0), Resolver(payload, variables, args, show), Resolver(payload, variables', args', show));
  }

  lemma {:induction false} OnePlaceholder(name: string)
    requires forall i :: 0 <= i < |name| ==> name[i] != '}'
    ensures Placeholders("${" + name + "}", 0) == Span(0, |name| + 2, NoMore)
  {
    var t := "${" + name + "}";
    assert t[0] == '$' && t[1] == '{' && t[|name| + 2] == '}';
    assert forall i :: 2 <= i < |name| + 2 ==> t[i] == name[i - 2];
    assert Leftmost(t, |name| + 3, NoMore);
    LeftmostIff(t, 0, Span(0, |name| + 2, NoMore));
  }

  /** A template that is one placeholder expands to the first of payload field, variable and argument of that name. */
  lemma {:induction false} OneNameExpands(name: string, payload: Value, variables: map<string, Value>, args: map<string, Value>,
                                          show: Value -> string)
    requires forall i :: 0 <= i < |name| ==> name[i] != '}'
    ensures Expansion("${" + name + "}", payload, variables, args, show)
            == if payload.Object? && name in payload.fields then show(payload.fields[name])
               else if name in variables then show(variables[name])
               else if name in args then show(args[name])
               else "${" + name + "}"
  {
    var t := "${" + name + "}";
    OnePlaceholder(name);
    assert t[2..|name| + 2] == name && t[|name| + 3..] == [] && t[0..0] == [];
    var f := Resolver(payload, variables, args, show);
    assert Render(t, |name| + 3, NoMore, f) == [];
  }

  /** The placeholders of a text that was moved by d. */
  function Shifted(spans: Spans, from: nat, limit: nat, d: int): (moved: Spans)
    requires Within(spans, from, limit) && from + d >= 0 && limit + d >= 0
    ensures Within(moved, from + d, limit + d)
    decreases spans
  {
    match spans
    case NoMore => NoMore
    case Span(open, close, rest) => Span(open + d, close + d, Shifted(rest, close + 1, limit, d))
  }

  lemma {:induction false} SameFinds(a: string, i: nat, b: string, j: nat)
    requires SameTail(a, i, b, j)
    ensures var open, open' := FindOpen(a, i), FindOpen(b, j);
            && open' == Moved(open, j - i)
            && (open.Some? ==> FindClose(b, open'.value) == Moved(FindClose(a, open.value), j - i))
    ensures var open := FindOpen(a, i);
            open.Some? && FindClose(a, open.value).Some? ==>
              var end := FindClose(a, open.value).value + 1; SameTail(a, end, b, end + j - i)
  {
    SameFindOpen(a, i, b, j);
    var open := FindOpen(a, i);
    if open.Some? {
      SameTailAt(a, i, b, j, open.value - i);
      SameFindClose(a, open.value, b, open.value + j - i);
      var close := FindClose(a, open.value);
      if close.Some? {
        SameTailAt(a, i, b, j, close.value + 1 - i);
      }
    }
  }

  lemma {:induction false} SamePlaceholders(a: string, i: nat, b: string, j: nat)
    requires SameTail(a, i, b, j)
    ensures Placeholders(b, j) == Shifted(Placeholders(a, i), i, |a|, j - i)
    decreases |a| - i
  {
    SameFinds(a, i, b, j);
    var spans := Placeholders(a, i);
    if spans.Span? {
      SamePlaceholders(a, spans.close + 1, b, spans.close + 1 + j - i);
    }
  }

  lemma {:induction false} SameSlice(a: string, i: nat, b: string, j: nat, y: nat)
    requires SameTail(a, i, b, j) && i <= y <= |a|
    ensures y - i + j <= |b| && a[i..y] == b[j..y - i + j]
    decreases y - i
  {
    if i < y {
      SameSlice(a, i + 1, b, j + 1, y);
      assert a[i..y] == [a[i]] + a[i + 1..y] && b[j..y - i + j] == [b[j]] + b[j + 1..y - i + j];
    }
  }

  /** The parts that the placeholders cut the two texts into are equal. */
  ghost predicate Alike(a: string, i: nat, b: string, j: nat, spans: Spans)
    requires Within(spans, i, |a|) && i <= |a| && j <= |b| && |a| - i == |b| - j
    decreases spans
  {
    match spans
    case NoMore => a[i..] == b[j..]
    case Span(open, close, rest) =>
      && a[i..open] == b[j..open - i + j] && a[open + 2..close] == b[open + 2 - i + j..close - i + j]
      && Alike(a, close + 1, b, close + 1 - i + j, rest)
  }

  lemma {:induction false} TailsAlike(a: string, i: nat, b: string, j: nat, spans: Spans)
    requires SameTail(a, i, b, j) && Within(spans, i, |a|)
    ensures Alike(a, i, b, j, spans)
    decreases spans
  {
    match spans
    case NoMore =>
      SameSlice(a, i, b, j, |a|);
      assert a[i..|a|] == a[i..] && b[j..|b|] == b[j..];
    case Span(open, close, rest) =>
      SameSlice(a, i, b, j, open);
      SameTailAt(a, i, b, j, open + 2 - i);
      SameSlice(a, open + 2, b, open + 2 - i + j, close);
      SameTailAt(a, i, b, j, close + 1 - i);
      TailsAlike(a, close + 1, b, close + 1 - i + j, rest);
  }

  lemma {:induction false} AlikeStep(a: string, i: nat, b: string, j: nat, spans: Spans, moved: Spans, f: string -> string)
    requires i <= |a| && Within(spans, i, |a|) && spans.Span? && j <= |b| && Within(moved, j, |b|) && moved.Span?
    requires a[i..spans.open] == b[j..moved.open]
    requires a[spans.open + 2..spans.close] == b[moved.open + 2..moved.close]
    requires Render(a, spans.close + 1, spans.rest, f) == Render(b, moved.close + 1, moved.rest, f)
    ensures Render(a, i, spans, f) == Render(b, j, moved, f)
  {
  }

  lemma {:induction false} AlikeRender(a: string, i: nat, b: string, j: nat, spans: Spans, f: string -> string)
    requires i <= |a| && j <= |b| && |a| - i == |b| - j && Within(spans, i, |a|) && Alike(a, i, b, j, spans)
    ensures Render(a, i, spans, f) == Render(b, j, Shifted(spans, i, |a|, j - i), f)
    decreases spans
  {
    if spans.Span? {
      AlikeRender(a, spans.close + 1, b, spans.close + 1 - i + j, spans.rest, f);
      AlikeStep(a, i, b, j, spans, Shifted(spans, i, |a|, j - i), f);
    }
  }

  /** `String::replace_range` on the characters from first to last. */
  method ReplaceRange(s: string, first: nat, last: nat, r: string) returns (s': string)
    requires first <= last < |s|
    ensures |s'| - (first + |r|) == |s| - last - 1
    ensures s'[..first + |r|] == s[..first] + r && s'[first + |r|..] == s[last + 1..]
  {
    s' := s[..first] + r + s[last + 1..];
  }

  /** What comes out of a text that is finished up to start. */
  function Pending(text: string, start: nat, f: string -> string): string
    requires start <= |text|
  {
    text[..start] + Render(text, start, Placeholders(text, start), f)
  }

  lemma {:induction false} RenderUnfolds(text: string, start: nat, f: string -> string, spans: Spans)
    requires start <= |text| && Within(spans, start, |text|) && spans.Span?
    ensures text[..start] + Render(text, start, spans, f)
            == (text[..spans.open] + f(text[spans.open + 2..spans.close])) + Render(text, spans.close + 1, spans.rest, f)
  {
    assert text[..start] + text[start..spans.open] == text[..spans.open];
  }

  /** The text still comes out as the goal. */
  ghost predicate Expands(text: string, start: nat, f: string -> string, goal: string) {
    start <= |text| && Pending(text, start, f) == goal
  }

  /** What a text renders to from a position on depends on the rest of it only. */
  lemma {:induction false} SameRest(a: string, i: nat, b: string, j: nat, f: string -> string)
    requires i <= |a| && j <= |b| && a[i..] == b[j..]
    ensures Render(a, i, Placeholders(a, i), f) == Render(b, j, Placeholders(b, j), f)
  {
    var spans := Placeholders(a, i);
    EqualTails(a, i, b, j);
    SamePlaceholders(a, i, b, j);
    TailsAlike(a, i, b, j, spans);
    AlikeRender(a, i, b, j, spans, f);
  }

  lemma {:induction false} GoalUnfolds(text: string, start: nat, f: string -> string, goal: string, spans: Spans)
    requires Expands(text, start, f, goal) && Placeholders(text, start) == spans && spans.Span?
    ensures spans.rest == Placeholders(text, spans.close + 1)
    ensures goal == (text[..spans.open] + f(text[spans.open + 2..spans.close])) + Render(text, spans.close + 1, spans.rest, f)
  {
    RenderUnfolds(text, start, f, spans);
  }

  /** What is still to come out once the placeholder from open to close is replaced by its value. */
  ghost predicate Awaits(text: string, open: nat, close: nat, value: string, f: string -> string, goal: string) {
    open <= close < |text| && goal == (text[..open] + value) + Render(text, close + 1, Placeholders(text, close + 1), f)
  }

  lemma {:induction false} FoundAwaits(text: string, start: nat, f: string -> string, goal: string, open: nat, close: nat, value: string)
    requires Expands(text, start, f, goal) && FindOpen(text, start) == Some(open) && FindClose(text, open) == Some(close)
    requires open + 2 <= close ==> value == f(text[open + 2..close])
    ensures start <= open && open + 2 <= close && Awaits(text, open, close, value, f, goal)
  {
    GoalUnfolds(text, start, f, goal, Placeholders(text, start));
  }

  /** Replacing the next placeholder and moving behind the replacement leaves the same text to come out. */
  lemma {:induction false} ExpandStep(text: string, from: nat, f: string -> string, goal: string, done: string,
                                      text': string, start': nat)
    requires from <= |text| && goal == done + Render(text, from, Placeholders(text, from), f)
    requires start' <= |text'| && text'[..start'] == done && text'[start'..] == text[from..]
    ensures Expands(text', start', f, goal)
  {
    SameRest(text, from, text', start', f);
    ExpandsIf(text', start', f, goal, done, Render(text, from, Placeholders(text, from), f));
  }

  lemma {:induction false} ExpandsIf(text: string, start: nat, f: string -> string, goal: string, done: string, rest: string)
    requires start <= |text| && text[..start] == done && Render(text, start, Placeholders(text, start), f) == rest
    requires goal == done + rest
    ensures Expands(text, start, f, goal)
  {
  }

  lemma {:induction false} ExpandEnd(text: string, start: nat, f: string -> string)
    requires start <= |text| && Placeholders(text, start).NoMore?
    ensures Pending(text, start, f) == text
  {
  }

  /** The placeholder from open to close makes room for its value, and the search goes on behind it. */
  method ReplaceAndMove(text: string, open: nat, close: nat, value: string, ghost f: string -> string, ghost goal: string)
    returns (text': string, start': nat)
    requires Awaits(text, open, close, value, f, goal)
    ensures Expands(text', start', f, goal) && |text'| - start' == |text| - close - 1
  {
    text' := ReplaceRange(text, open, close, value);
    start' := open + |value|;
    ExpandStep(text, close + 1, f, goal, text[..open] + value, text', start');
  }

  /** The program's in-place expansion with its moving start equals the single pass. */
  method ResolveTemplate(template: string, payload: Value, variables: map<string, Value>, args: map<string, Value>,
                         show: Value -> string) returns (result: string)
    ensures result == Expansion(template, payload, variables, args, show)
  {
    result := template;
    var start: nat := 0;
    ghost var f := Resolver(payload, variables, args, show);
    ghost var goal := Splice(template, f);
    assert Pending(template, 0, f) == goal;
    while true
      invariant Expands(result, start, f, goal)
      decreases |result| - start
    {
      var open := FindOpen(result, start);
      if open.None? {
        assert Placeholders(result, start).NoMore?;
        ExpandEnd(result, start, f);
        break;
      }
      var close := FindClose(result, open.value);
      if close.None? {
        assert Placeholders(result, start).NoMore?;
        ExpandEnd(result, start, f);
        break;
      }
      FindOpenFirst(result, start);
      ClosesLater(result, open.value);
      var name := result[open.value + 2..close.value];
      var resolved := ResolveVariable(name, payload, variables, args, show);
      FoundAwaits(result, start, f, goal, open.value, close.value, resolved);
      result, start := ReplaceAndMove(result, open.value, close.value, resolved, f, goal);
    }
  }

  // ---- The static scanner ----

  /** Each name trimmed, blank ones left out. */
  function Cleaned(names: seq<string>): seq<string> {
    if names == [] then []
    else (if Trim(names[0]) == "" then [] else [Trim(names[0])]) + Cleaned(names[1..])
  }

  lemma {:induction false} CleanedIn(names: seq<string>, n: string)
    ensures n in Cleaned(names) <==> n != "" && exists i :: 0 <= i < |names| && Trim(names[i]) == n
  {
    if names != [] {
      CleanedIn(names[1..], n);
      assert names == [names[0]] + names[1..];
      assert forall i :: 0 < i < |names| ==> names[i] == names[1..][i - 1];
      if i :| 0 <= i < |names[1..]| && Trim(names[1..][i]) == n {
        assert Trim(names[i + 1]) == n;
      }
    }
  }

  lemma {:induction false} CleanedAppend(names: seq<string>, n: string)
    ensures Cleaned(names + [n]) == Cleaned(names) + if Trim(n) == "" then [] else [Trim(n)]
  {
    if names == [] {
      assert names + [n] == [n];
    } else {
      assert (names + [n])[1..] == names[1..] + [n];
      CleanedAppend(names[1..], n);
    }
  }

  /** One turn of the scanner: skip a character, take a placeholder, or find that none is closed any more. */
  lemma {:induction false} SkipKeepsNames(t: string, i: nat)
    requires i < |t| && !OpensAt(t, i)
    ensures NamesFrom(t, i) == NamesFrom(t, i + 1)
  {
    assert FindOpen(t, i) == FindOpen(t, i + 1);
    assert Placeholders(t, i) == Placeholders(t, i + 1);
  }

  lemma {:induction false} TakeName(t: string, i: nat, end: nat)
    requires i + 2 <= end < |t| && OpensAt(t, i) && t[end] == '}' && forall k :: i + 2 <= k < end ==> t[k] != '}'
    ensures NamesFrom(t, i) == [t[i + 2..end]] + NamesFrom(t, end + 1)
  {
    assert t[i] != '}' && t[i + 1] != '}';
    FindCloseFirst(t, i);
    assert FindOpen(t, i) == Some(i) && FindClose(t, i) == Some(end);
    assert Placeholders(t, i) == Span(i, end, Placeholders(t, end + 1));
  }

  lemma {:induction false} UnclosedHasNoNames(t: string, limit: nat, from: nat)
    requires limit <= from <= |t| && forall k :: limit <= k < |t| ==> t[k] != '}'
    ensures NamesFrom(t, from) == []
  {
    var open := FindOpen(t, from);
    if open.Some? {
      FindCloseFirst(t, open.value);
    }
  }

  method FindEnd(expr: string, from: nat) returns (end: nat)
    requires from <= |expr|
    ensures from <= end <= |expr| && (forall k :: from <= k < end ==> expr[k] != '}')
    ensures end < |expr| ==> expr[end] == '}'
  {
    end := from;
    while end < |expr| && expr[end] != '}'
      invariant from <= end <= |expr|
      invariant forall k :: from <= k < end ==> expr[k] != '}'
    {
      end := end + 1;
    }
  }

  /** What has been scanned and what is left, after one turn at i. */
  ghost predicate Scanned(expr: string, before: seq<string>, vars: seq<string>, i: nat) {
    i <= |expr| && Names(expr) == before + NamesFrom(expr, i) && vars == Cleaned(before)
  }

  lemma {:induction false} AppendLater(xs: seq<string>, x: string, ys: seq<string>)
    ensures xs + ([x] + ys) == (xs + [x]) + ys
  {
  }

  lemma {:induction false} ScannedName(expr: string, before: seq<string>, vars: seq<string>, i: nat, end: nat)
    requires Scanned(expr, before, vars, i) && OpensAt(expr, i)
    requires i + 2 <= end < |expr| && expr[end] == '}' && forall k :: i + 2 <= k < end ==> expr[k] != '}'
    ensures var name := expr[i + 2..end];
            Scanned(expr, before + [name], vars + if Trim(name) == "" then [] else [Trim(name)], end + 1)
  {
    var name := expr[i + 2..end];
    TakeName(expr, i, end);
    CleanedAppend(before, name);
    AppendLater(before, name, NamesFrom(expr, end + 1));
  }

  lemma {:induction false} ScannedNothing(expr: string, before: seq<string>, vars: seq<string>, i: nat)
    requires Scanned(expr, before, vars, i) && i < |expr|
    requires OpensAt(expr, i) ==> forall k :: i + 2 <= k < |expr| ==> expr[k] != '}'
    ensures Scanned(expr, before, vars, i + 1)
  {
    if OpensAt(expr, i) {
      assert expr[i] != '}' && expr[i + 1] != '}';
      UnclosedHasNoNames(expr, i, i);
      UnclosedHasNoNames(expr, i, i + 1);
    } else {
      SkipKeepsNames(expr, i);
    }
  }

  lemma {:induction false} ScannedAll(expr: string, before: seq<string>, vars: seq<string>, i: nat)
    requires Scanned(expr, before, vars, i) && |expr| < i + 2
    ensures vars == Cleaned(Names(expr))
  {
    if i < |expr| {
      SkipKeepsNames(expr, i);
    }
    assert before + [] == before;
  }

  /** The scanner returns exactly the trimmed, non-blank names that the expansion will look up, in order. */
  method ExtractTemplateVariables(expr: string) returns (vars: seq<string>)
    ensures vars == Cleaned(Names(expr))
  {
    vars := [];
    ghost var before: seq<string> := [];
    var i := 0;
    while i + 2 <= |expr|
      invariant Scanned(expr, before, vars, i)
      decreases |expr| - i
    {
      if expr[i] == '$' && i + 1 < |expr| && expr[i + 1] == '{' {
        var end := FindEnd(expr, i + 2);
        if end < |expr| {
          ScannedName(expr, before, vars, i, end);
          var name := expr[i + 2..end];
          before := before + [name];
          var trimmed := Trim(name);
          if trimmed != "" {
            vars := vars + [trimmed];
          }
          i := end + 1;
          continue;
        }
      }
      ScannedNothing(expr, before, vars, i);
      i := i + 1;
    }
    ScannedAll(expr, before, vars, i);
  }

  // ---- Validation ----

  function Depth(s: string): int {
    if s == [] then 0
    else Depth(s[..|s| - 1]) + if s[|s| - 1] == '{' then 1 else if s[|s| - 1] == '}' then -1 else 0
  }

  /** No prefix closes more braces than it opens, and in the end all are closed. */
  predicate Balanced(s: string) {
    (forall k :: 0 <= k <= |s| ==> Depth(s[..k]) >= 0) && Depth(s) == 0
  }

  method ValidateTemplateExpr(expr: string, inputIds: set<string>) returns (ok: bool)
    ensures ok <==> Balanced(expr) && forall v :: v in Cleaned(Names(expr)) ==> v in inputIds
  {
    var depth := 0;
    for i := 0 to |expr|
      invariant depth == Depth(expr[..i])
      invariant forall k :: 0 <= k <= i ==> Depth(expr[..k]) >= 0
    {
      assert expr[..i + 1][..i] == expr[..i];
      if expr[i] == '{' {
        depth := depth + 1;
      } else if expr[i] == '}' {
        depth := depth - 1;
        if depth < 0 {
          assert Depth(expr[..i + 1]) < 0;
          return false;
        }
      }
    }
    assert expr[..|expr|] == expr;
    if depth != 0 {
      return false;
    }
    var vars := ExtractTemplateVariables(expr);
    for i := 0 to |vars|
      invariant forall k :: 0 <= k < i ==> vars[k] in inputIds
    {
      if vars[i] !in inputIds {
        return false;
      }
    }
    return true;
  }

  /**
   Validation trims names and expansion does not. Let a template pass validation against declared ids, none of them
   blank. Then every placeholder names a declared id iff no name is blank and each name written with surrounding
   white space is declared with that white space.
   */
  lemma {:induction false} ValidatedResolvesIff(t: string, inputIds: set<string>)
    requires forall v :: v in Cleaned(Names(t)) ==> v in inputIds
    requires forall id :: id in inputIds ==> Trim(id) != ""
    ensures (forall n :: n in Names(t) ==> n in inputIds)
       <==> (forall n :: n in Names(t) ==> Trim(n) != "" && (Trim(n) != n ==> n in inputIds))
  {
    forall n | n in Names(t) && Trim(n) != "" && Trim(n) == n ensures n in inputIds {
      CleanedIn(Names(t), n);
      var i :| 0 <= i < |Names(t)| && Names(t)[i] == n;
    }
  }

  /** "${ x }" passes validation when x is declared, and stays unexpanded. */
  lemma {:induction false} PaddedNameStays(show: Value -> string)
    ensures Cleaned(Names("${ x }")) == ["x"]
    ensures Splice("${ x }", Resolver(Null, map[], map["x" := Number(1)], show)) == "${ x }"
  {
    var t := "${ x }";
    assert FindOpen(t, 0) == Some(0) && FindClose(t, 0) == Some(5);
    assert t[2..5] == " x ";
    assert Names(t) == [" x "];
    assert TrimStart(" x ") == "x " by { assert " x "[1..] == "x "; }
    assert TrimEnd("x ") == "x" by { assert "x "[..1] == "x"; }
    NothingResolved(t, Null, map[], map["x" := Number(1)], show);
  }
}
