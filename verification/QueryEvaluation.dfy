/**
  What a query means: the predicate that its nodes evaluate to, and the truth value of the
  formula as it is written.
 */
module QueryEvaluation {
  import opened Options
  import opened QueryGrammar

  // -------------------------------------------------------------------- connectives

  /** The predicate a query node evaluates to; `leaf` decides tags and fields. */
  function Evaluate<E>(q: Query, leaf: (Query, E) -> bool, e: E): bool
  {
    match q
    case True => true
    case And(l, r) => Evaluate(l, leaf, e) && Evaluate(r, leaf, e)
    case Or(l, r) => Evaluate(l, leaf, e) || Evaluate(r, leaf, e)
    case Not(r) => !Evaluate(r, leaf, e)
    case _ => leaf(q, e)
  }

  /** The tokens `tagged "x"`, `tagged = "x"`, `field = nil` or `field op value`. */
  predicate IsAction(w: seq<Token>)
  {
    && Typed(w) && (|w| == 2 || |w| == 3)
    && (|w| == 2 ==> Sym(w[0]) == 15 && Sym(w[1]) == 6)
    && (|w| == 3 ==>
          || (Sym(w[0]) == 15 && Sym(w[1]) == 7 && Sym(w[2]) == 6)
          || (Sym(w[0]) == 13 && Sym(w[1]) == 7 && Sym(w[2]) == 16)
          || (Sym(w[0]) == 13 && 7 <= Sym(w[1]) <= 12 && 4 <= Sym(w[2]) <= 6))
  }

  /** The tag or the comparison that the tokens of an action spell out. */
  function Spelled(w: seq<Token>): Query
    requires IsAction(w)
  {
    if |w| == 2 then Tagged(w[1].value.s)
    else if Sym(w[0]) == 15 then Tagged(w[2].value.s)
    else
      match Sym(w[2])
      case 16 => FieldNil(w[0].value.u)
      case 6 => FieldString(w[0].value.u, w[1].value.s, w[2].value.s)
      case 4 => FieldInteger(w[0].value.u, w[1].value.s, w[2].value.i)
      case _ => FieldDouble(w[0].value.u, w[1].value.s, w[2].value.d)
  }

  lemma OperatorMeans(t: Tree)
    requires Derivation(t) && Root(t) == 24
    ensures t.Node? && t.parts.One? && t.parts.x.Leaf? && 7 <= Sym(t.parts.x.tok) <= 12
    ensures Yield(t) == [t.parts.x.tok] && Meaning(t) == t.parts.x.tok.value
  {
  }

  lemma TerminalMeans(t: Tree)
    requires Derivation(t) && 0 <= Root(t) < 22
    ensures t.Leaf? && Yield(t) == [t.tok] && Meaning(t) == t.tok.value && KindOk(Sym(t.tok), t.tok.value)
  {
  }

  lemma CompareMeans(t: Tree)
    requires Derivation(t) && t.Node? && 13 <= t.rule <= 15
    ensures IsAction(Yield(t)) && Meaning(t) == NodeVal(Spelled(Yield(t)))
  {
    hide Yield, KindOk;
    var Three(x, y, z) := t.parts;
    TerminalMeans(x);
    OperatorMeans(y);
    TerminalMeans(z);
    ThreeTokens(t, x.tok, y.parts.x.tok, z.tok);
  }

  lemma ThreeTokens(t: Tree, a: Token, b: Token, c: Token)
    requires t.Node? && t.parts.Three?
    requires Yield(t.parts.x) == [a] && Yield(t.parts.y) == [b] && Yield(t.parts.z) == [c]
    requires KindOk(Sym(a), a.value) && KindOk(Sym(b), b.value) && KindOk(Sym(c), c.value)
    ensures Yield(t) == [a, b, c] && Typed(Yield(t))
  {
  }

  /** The semantic actions of tags and comparisons build what is spelled out. */
  lemma ActionMeans(t: Tree)
    requires Derivation(t) && Root(t) == 25
    ensures IsAction(Yield(t)) && Meaning(t) == NodeVal(Spelled(Yield(t)))
  {
    if t.rule >= 13 {
      CompareMeans(t);
    } else {
      TerminalMeans(t.parts.x);
      TerminalMeans(t.parts.y);
      if t.rule != 11 {
        TerminalMeans(t.parts.z);
        ThreeTokens(t, t.parts.x.tok, t.parts.y.tok, t.parts.z.tok);
      }
    }
  }

  /** The truth value of a formula as it is written. */
  function Truth<E>(t: Tree, leaf: (Query, E) -> bool, e: E): bool
    requires Derivation(t) && (Root(t) == 23 || 25 <= Root(t) <= 27)
  {
    match t.rule
    case 2 => true
    case 3 => true
    case 16 => Truth(t.parts.y, leaf, e)
    case 17 => Truth(t.parts.x, leaf, e) && Truth(t.parts.z, leaf, e)
    case 18 => Truth(t.parts.x, leaf, e) || Truth(t.parts.z, leaf, e)
    case 19 => !Truth(t.parts.y, leaf, e)
    case 20 => Truth(t.parts.x, leaf, e)
    case 21 => Truth(t.parts.x, leaf, e)
    case 22 => Truth(t.parts.x, leaf, e)
    case _ =>
      ActionMeans(t);
      leaf(Spelled(Yield(t)), e)
  }

  /** Evaluating what the actions built gives the truth value of the formula. */
  lemma {:induction false} EvaluateIsTruth<E>(t: Tree, leaf: (Query, E) -> bool, e: E)
    requires Derivation(t) && (Root(t) == 23 || 25 <= Root(t) <= 27)
    ensures Evaluate(Meaning(t).node, leaf, e) == Truth(t, leaf, e)
  {
    hide KindOk;
    if t.rule == 16 || t.rule == 19 {
      EvaluateIsTruth(t.parts.y, leaf, e);
    } else if t.rule == 17 || t.rule == 18 {
      EvaluateIsTruth(t.parts.x, leaf, e);
      EvaluateIsTruth(t.parts.z, leaf, e);
    } else if t.rule >= 20 {
      EvaluateIsTruth(t.parts.x, leaf, e);
    } else if t.rule >= 10 {
      ActionMeans(t);
    }
  }

  // -------------------------------------------------------------- the event and its fields

  /** An event, as queries see it. */
  datatype Subject = Subject(
    host: Option<string>, service: Option<string>, state: Option<string>, description: Option<string>,
    time: Option<int>, ttl: Option<real>, metric: Option<real>, tags: set<string>, attrs: map<string, string>)

  /** An event, and the library functions that match a pattern and read a number. */
  datatype Setting = Setting(e: Subject, like: (string, string) -> bool,
                             stoi: string -> Option<int>, stod: string -> Option<real>)

  /** The fields with a place of their own; all other names are custom fields. */
  predicate TextField(f: string) { f in ["host", "service", "state", "description"] }
  predicate NumberField(f: string) { f in ["time", "ttl", "metric"] }

  // ----------------------------------------------------------------- the implementation

  predicate Compare(l: real, r: real, op: string)
  {
    if op == "=" then l == r else if op == ">" then l > r else if op == ">=" then l >= r
    else if op == "<" then l < r else if op == "<=" then l <= r else false
  }

  predicate CompareText(s: Setting, l: string, r: string, op: string)
  {
    if op == "=" then l == r else if op == "=~" then s.like(l, r) else false
  }

  function Default<T>(o: Option<T>, d: T): T { if o.Some? then o.value else d }

  predicate HasFieldSet(e: Subject, f: string)
  {
    if f == "host" then e.host.Some? else if f == "service" then e.service.Some?
    else if f == "description" then e.description.Some? else if f == "state" then e.state.Some?
    else if f == "metric" then e.metric.Some? else if f == "ttl" then e.ttl.Some?
    else f in e.attrs
  }

  /** The text of a literal, where the quotes are only taken off if there is something between
      them. */
  function Stripped(s: string): string { if |s| > 2 && s[0] == '"' then s[1..|s| - 1] else s }

  function Between(s: string): string { if |s| >= 2 then s[1..|s| - 1] else "" }

  /** How the nodes for tags and fields evaluate. */
  predicate EvaluateLeaf(q: Query, s: Setting)
  {
    var e := s.e;
    match q
    case Tagged(tag) => Between(tag) in e.tags
    case FieldNil(f) => !HasFieldSet(e, f)
    case FieldString(f, op, text) =>
      var strip := Stripped(text);
      if f == "host" then CompareText(s, Default(e.host, ""), strip, op)
      else if f == "service" then CompareText(s, Default(e.service, ""), strip, op)
      else if f == "state" then CompareText(s, Default(e.state, ""), strip, op)
      else if f == "description" then CompareText(s, Default(e.description, ""), strip, op)
      else f in e.attrs && CompareText(s, e.attrs[f], strip, "=")
    case FieldInteger(f, op, i) =>
      if f == "time" then Compare(Default(e.time, 0) as real, i as real, op)
      else if f == "ttl" then Compare(Default(e.ttl, 0.0), i as real, op)
      else if f == "metric" then e.metric.Some? && Compare(e.metric.value, i as real, op)
      else f in e.attrs && s.stoi(e.attrs[f]).Some? && Compare(s.stoi(e.attrs[f]).value as real, i as real, op)
    case FieldDouble(f, op, d) =>
      if f == "metric" then Compare(Default(e.metric, 0.0), d, op)
      else f in e.attrs && s.stod(e.attrs[f]).Some? && Compare(s.stod(e.attrs[f]).value, d, op)
    case _ => false
  }

  // ----------------------------------------------------------------------- the reference

  /** What a field holds: a text, a number, or the text of a custom field, which may also be
      read as a number. */
  datatype FieldValue = Text(text: string) | Number(number: real) | Custom(text: string)

  function Of<T>(o: Option<T>, make: T -> FieldValue): Option<FieldValue>
  {
    match o
    case None => None
    case Some(x) => Some(make(x))
  }

  /** The value of a field, if it is set. */
  function ValueOf(e: Subject, f: string): Option<FieldValue>
  {
    match f
    case "host" => Of(e.host, x => Text(x))
    case "service" => Of(e.service, x => Text(x))
    case "state" => Of(e.state, x => Text(x))
    case "description" => Of(e.description, x => Text(x))
    case "time" => Of(e.time, x => Number(x as real))
    case "ttl" => Of(e.ttl, x => Number(x))
    case "metric" => Of(e.metric, x => Number(x))
    case _ => if f in e.attrs then Some(Custom(e.attrs[f])) else None
  }

  predicate IsSet(e: Subject, f: string) { ValueOf(e, f) != None }

  /** The relations that the operators stand for. */
  datatype Relation = Equal | Like | Greater | GreaterEq | Less | LessEq

  function RelationOf(op: string): Relation
    requires IsOperator(op)
  {
    match op
    case "=" => Equal
    case "=~" => Like
    case ">" => Greater
    case ">=" => GreaterEq
    case "<" => Less
    case _ => LessEq
  }

  predicate TextHolds(s: Setting, v: FieldValue, rel: Relation, r: string)
  {
    !v.Number? && ((rel == Equal && v.text == r) || (rel == Like && s.like(v.text, r)))
  }

  /** The number that a value is, or is read as. */
  function NumberIn(s: Setting, v: FieldValue): Option<real>
  {
    match v
    case Text(_) => None
    case Number(n) => Some(n)
    case Custom(t) => s.stod(t)
  }

  /** `l` is below `r`, equal to it or above it, and the relation allows for that. */
  predicate Related(l: real, rel: Relation, r: real)
  {
    && (l < r ==> rel == Less || rel == LessEq)
    && (l == r ==> rel == Equal || rel == LessEq || rel == GreaterEq)
    && (l > r ==> rel == Greater || rel == GreaterEq)
  }

  predicate NumberHolds(s: Setting, v: FieldValue, rel: Relation, r: real)
  {
    NumberIn(s, v).Some? && Related(NumberIn(s, v).value, rel, r)
  }

  /** A text in quotes. */
  function Quote(t: string): string { "\"" + t + "\"" }

  function Unquoted(s: string): (t: string)
    ensures Quoted(s) ==> Quote(t) == s
  {
    if Quoted(s) then s[1..|s| - 1] else ""
  }

  /** A comparison holds if the field is set, and its value is of the kind of the literal and
      stands in the relation to it, with the quotes of a text taken off; an order is for numbers,
      a pattern for texts. */
  predicate Holds(q: Query, s: Setting)
  {
    match q
    case Tagged(tag) => exists t :: t in s.e.tags && Quote(t) == tag
    case FieldNil(f) => ValueOf(s.e, f) == None
    case FieldString(f, op, text) =>
      IsOperator(op) && IsSet(s.e, f) && TextHolds(s, ValueOf(s.e, f).value, RelationOf(op), Unquoted(text))
    case FieldInteger(f, op, i) =>
      IsOperator(op) && IsSet(s.e, f) && NumberHolds(s, ValueOf(s.e, f).value, RelationOf(op), i as real)
    case FieldDouble(f, op, d) =>
      IsOperator(op) && IsSet(s.e, f) && NumberHolds(s, ValueOf(s.e, f).value, RelationOf(op), d)
    case _ => false
  }

  predicate Quoted(s: string) { |s| >= 2 && s[0] == '"' && s[|s| - 1] == '"' }

  /** A node for a tag or a field, with the texts that the scanner makes. */
  predicate Scanned(q: Query)
  {
    match q
    case Tagged(s) => Quoted(s)
    case FieldNil(_) => true
    case FieldString(_, op, s) => IsOperator(op) && Quoted(s)
    case FieldInteger(_, op, _) => IsOperator(op)
    case FieldDouble(_, op, _) => IsOperator(op)
    case _ => false
  }

  /** `nil` and a comparison of one field never hold of one event. */
  lemma NilExcludes(f: string, q: Query, s: Setting)
    requires (q.FieldString? || q.FieldInteger? || q.FieldDouble?) && q.field == f
    ensures !(Holds(FieldNil(f), s) && Holds(q, s))
  {
  }

  /**
    What sets the two apart on events that have the field: `time` is taken for a custom field
    when it is compared with `nil`; an empty text is compared with its quotes; a custom field
    with a text is compared for equality whatever the operator; of a custom field that is
    compared with an integer only an integer at its front is read; and a custom field is looked
    for instead of a number field that is compared with a text, of a text field that is compared
    with a number, and of `time` and `ttl` when they are compared with a fraction.
   */
  predicate AsWrittenOfSet(q: Query)
  {
    match q
    case FieldNil(f) => f != "time"
    case FieldString(f, op, s) =>
      if TextField(f) then op == "=" || op == "=~" ==> Unquoted(s) != ""
      else !NumberField(f) && op == "=" && Unquoted(s) != ""
    case FieldInteger(f, op, _) => NumberField(f) || op == "=~"
    case FieldDouble(f, op, _) => TextField(f) || f == "time" || f == "ttl" ==> op == "=~"
    case _ => true
  }

  /** And on those that do not: a missing text is matched with a pattern as an empty one, and a
      missing number counts as zero, save for a metric compared with an integer. */
  predicate AsWrittenOfMissing(q: Query)
  {
    match q
    case FieldString(f, op, _) => TextField(f) ==> op != "=~"
    case FieldInteger(f, op, i) => f == "time" || f == "ttl" ==> !Compare(0.0, i as real, op)
    case FieldDouble(f, op, d) => f == "metric" ==> !Compare(0.0, d, op)
    case _ => true
  }

  predicate AsWritten(q: Query) { AsWrittenOfSet(q) && AsWrittenOfMissing(q) }

  /** The event has the field that is compared, if any. */
  predicate HasField(q: Query, s: Setting) { q.Tagged? || (Scanned(q) && IsSet(s.e, q.field)) }

  /** The comparison of numbers decides the relation. */
  lemma CompareIsRelated(l: real, r: real, op: string)
    requires IsOperator(op)
    ensures Compare(l, r, op) <==> Related(l, RelationOf(op), r)
  {
  }

  lemma CompareTextIsRelated(s: Setting, l: string, r: string, op: string, v: FieldValue)
    requires IsOperator(op) && !v.Number? && v.text == l
    ensures CompareText(s, l, r, op) <==> TextHolds(s, v, RelationOf(op), r)
  {
  }

  lemma StripsQuotes(text: string)
    requires Quoted(text)
    ensures Stripped(text) == if Unquoted(text) == "" then text else Unquoted(text)
  {
  }

  lemma TextAsWritten(f: string, op: string, text: string, s: Setting)
    requires var q := FieldString(f, op, text);
      Scanned(q) && AsWrittenOfSet(q) && (AsWrittenOfMissing(q) || HasField(q, s))
    ensures EvaluateLeaf(FieldString(f, op, text), s) == Holds(FieldString(f, op, text), s)
  {
    hide Stripped, Unquoted, TextHolds, CompareText, Compare, Related, RelationOf;
    StripsQuotes(text);
    var r := Unquoted(text);
    if IsSet(s.e, f) && !NumberField(f) {
      var v := ValueOf(s.e, f).value;
      CompareTextIsRelated(s, v.text, r, op, v);
      NoText(s, v.text, text, op);
      NoText(s, v.text, r, op);
    } else {
      NoText(s, "", text, op);
      NoText(s, "", r, op);
    }
  }

  /** An order is no relation of texts, and only the empty text equals the empty one. */
  lemma NoText(s: Setting, l: string, r: string, op: string)
    ensures op != "=" && op != "=~" ==> !CompareText(s, l, r, op)
    ensures op == "=" ==> (CompareText(s, l, r, op) <==> l == r)
  {
  }

  lemma IntegerAsWritten(f: string, op: string, i: int, s: Setting)
    requires var q := FieldInteger(f, op, i);
      Scanned(q) && AsWrittenOfSet(q) && (AsWrittenOfMissing(q) || HasField(q, s))
    ensures EvaluateLeaf(FieldInteger(f, op, i), s) == Holds(FieldInteger(f, op, i), s)
  {
    hide Compare, Related, RelationOf, IsOperator;
    forall l, r ensures Compare(l, r, op) <==> Related(l, RelationOf(op), r) {
      CompareIsRelated(l, r, op);
    }
    forall l, r ensures op == "=~" ==> !Compare(l, r, op) {
      NeverLike(l, r);
    }
  }

  lemma FractionAsWritten(f: string, op: string, d: real, s: Setting)
    requires var q := FieldDouble(f, op, d);
      Scanned(q) && AsWrittenOfSet(q) && (AsWrittenOfMissing(q) || HasField(q, s))
    ensures EvaluateLeaf(FieldDouble(f, op, d), s) == Holds(FieldDouble(f, op, d), s)
  {
    hide Compare, Related, RelationOf, IsOperator;
    forall l, r ensures Compare(l, r, op) <==> Related(l, RelationOf(op), r) {
      CompareIsRelated(l, r, op);
    }
    forall l, r ensures op == "=~" ==> !Compare(l, r, op) {
      NeverLike(l, r);
    }
  }

  lemma NeverLike(l: real, r: real)
    ensures !Compare(l, r, "=~")
  {
  }

  lemma AsWrittenHolds(q: Query, s: Setting)
    requires Scanned(q) && AsWrittenOfSet(q) && (AsWrittenOfMissing(q) || HasField(q, s))
    ensures EvaluateLeaf(q, s) == Holds(q, s)
  {
    match q
    case Tagged(tag) => TagHolds(tag, s);
    case FieldNil(f) => NilHolds(f, s);
    case FieldString(f, op, text) => TextAsWritten(f, op, text, s);
    case FieldInteger(f, op, i) => IntegerAsWritten(f, op, i, s);
    case FieldDouble(f, op, d) => FractionAsWritten(f, op, d, s);
  }

  lemma NilHolds(f: string, s: Setting)
    requires f != "time"
    ensures EvaluateLeaf(FieldNil(f), s) == Holds(FieldNil(f), s)
  {
  }

  lemma TagHolds(tag: string, s: Setting)
    requires Quoted(tag)
    ensures EvaluateLeaf(Tagged(tag), s) == Holds(Tagged(tag), s)
  {
    assert Quote(Between(tag)) == tag;
    forall t | Quote(t) == tag ensures t == Between(tag) {
      assert t == Quote(t)[1..|t| + 1];
    }
  }

  const NOTHING := Subject(None, None, None, None, None, None, None, {}, map[])

  /** An event with all fields, and a custom one with the given name. */
  function Full(n: int, f: string, text: string): Subject
  {
    Subject(Some(""), Some(""), Some(""), Some(""), Some(n), Some(n as real), Some(n as real), {}, map[f := text])
  }

  /** An event for which a text comparison does not do what is written. */
  lemma TextDiffers(f: string, op: string, text: string) returns (s: Setting)
    requires Scanned(FieldString(f, op, text)) && !AsWrittenOfSet(FieldString(f, op, text))
    ensures IsSet(s.e, f) && EvaluateLeaf(FieldString(f, op, text), s) != Holds(FieldString(f, op, text), s)
  {
    hide Compare, Related;
    if TextField(f) || (!NumberField(f) && op == "=") {
      assert text == "\"\"" && Stripped(text) == text && Unquoted(text) == "";
      s := Setting(Full(0, f, ""), (l, r) => r == "", _ => None, _ => None);
    } else {
      s := Setting(Full(0, f, Stripped(text)), (l, r) => false, _ => None, _ => None);
    }
  }

  /** An event for which an integer comparison does not do what is written. */
  lemma IntegerDiffers(f: string, op: string, i: int) returns (s: Setting)
    requires Scanned(FieldInteger(f, op, i)) && !AsWrittenOfSet(FieldInteger(f, op, i))
    ensures IsSet(s.e, f) && EvaluateLeaf(FieldInteger(f, op, i), s) != Holds(FieldInteger(f, op, i), s)
  {
    var x := if op == ">" then i + 1 else if op == "<" then i - 1 else i;
    assert Compare(x as real, i as real, op);
    s := Setting(Full(0, f, ""), (l, r) => false, _ => Some(x), _ => None);
  }

  /** Both ways of reading a number from a custom field give the same. */
  predicate ReadsAlike(q: Query, s: Setting)
  {
    && q.FieldInteger? && IsOperator(q.op) && !TextField(q.field) && !NumberField(q.field)
    && (q.field in s.e.attrs ==>
          var i, d := s.stoi(s.e.attrs[q.field]), s.stod(s.e.attrs[q.field]);
          (i.Some? <==> d.Some?) && (i.Some? ==> i.value as real == d.value))
  }

  lemma ReadsAlikeHolds(q: Query, s: Setting)
    requires ReadsAlike(q, s)
    ensures EvaluateLeaf(q, s) == Holds(q, s)
  {
  }

  /** An event for which a comparison with a fraction does not do what is written: it has a
      custom field with the name of another. */
  lemma FractionDiffers(f: string, op: string, d: real) returns (s: Setting)
    requires Scanned(FieldDouble(f, op, d)) && !AsWrittenOfSet(FieldDouble(f, op, d))
    ensures IsSet(s.e, f) && EvaluateLeaf(FieldDouble(f, op, d), s) != Holds(FieldDouble(f, op, d), s)
  {
    var x := if op == ">" then d + 1.0 else if op == "<" then d - 1.0 else d;
    var n := if op == ">" || op == ">=" then d.Floor - 1 else d.Floor + 1;
    assert Compare(x, d, op) && !Compare(n as real, d, op);
    s := Setting(Full(n, f, ""), (l, r) => false, _ => None, _ => Some(x));
  }

  /** An event with the field for which a comparison does not do what is written. */
  lemma SetDiffers(q: Query) returns (s: Setting)
    requires Scanned(q) && !AsWrittenOfSet(q)
    ensures HasField(q, s) && EvaluateLeaf(q, s) != Holds(q, s)
  {
    match q
    case FieldNil(f) => s := Setting(NOTHING.(time := Some(0)), (l, r) => false, _ => None, _ => None);
    case FieldString(f, op, text) => s := TextDiffers(f, op, text);
    case FieldInteger(f, op, i) => s := IntegerDiffers(f, op, i);
    case FieldDouble(f, op, d) => s := FractionDiffers(f, op, d);
  }

  /** The event with no fields at all, for which a comparison does not do what is written. */
  lemma MissingDiffers(q: Query) returns (s: Setting)
    requires Scanned(q) && AsWrittenOfSet(q) && !AsWrittenOfMissing(q)
    ensures s.e == NOTHING && EvaluateLeaf(q, s) != Holds(q, s)
  {
    s := Setting(NOTHING, (l, r) => true, _ => None, _ => None);
  }

  /** A comparison does what is written, on every event that has the field and on every event at
      all, exactly when it is none of these. */
  lemma LeafExactly(q: Query)
    requires Scanned(q)
    ensures (forall s :: HasField(q, s) ==> EvaluateLeaf(q, s) == Holds(q, s)) <==> AsWrittenOfSet(q)
    ensures (forall s :: EvaluateLeaf(q, s) == Holds(q, s)) <==> AsWritten(q)
  {
    hide EvaluateLeaf, Holds, HasField, AsWrittenOfSet, AsWrittenOfMissing, Scanned;
    if AsWrittenOfSet(q) {
      forall s | AsWrittenOfMissing(q) || HasField(q, s) ensures EvaluateLeaf(q, s) == Holds(q, s) {
        AsWrittenHolds(q, s);
      }
      if !AsWrittenOfMissing(q) {
        var s := MissingDiffers(q);
      }
    } else {
      var s := SetDiffers(q);
    }
  }

  // -------------------------------------------------------------------- whole formulas

  /** All its comparisons do what is written of the event. */
  predicate Plain(q: Query, s: Setting)
  {
    match q
    case True => true
    case And(l, r) => Plain(l, s) && Plain(r, s)
    case Or(l, r) => Plain(l, s) && Plain(r, s)
    case Not(r) => Plain(r, s)
    case _ =>
      || ReadsAlike(q, s)
      || (Scanned(q) && AsWrittenOfSet(q) && (AsWrittenOfMissing(q) || HasField(q, s)))
  }

  lemma {:induction false} PlainEvaluates(q: Query, s: Setting)
    requires Plain(q, s)
    ensures Evaluate(q, EvaluateLeaf, s) == Evaluate(q, Holds, s)
  {
    hide EvaluateLeaf, Holds, AsWrittenOfSet, AsWrittenOfMissing, Scanned, HasField, ReadsAlike;
    match q
    case True =>
    case And(l, r) => PlainEvaluates(l, s); PlainEvaluates(r, s);
    case Or(l, r) => PlainEvaluates(l, s); PlainEvaluates(r, s);
    case Not(r) => PlainEvaluates(r, s);
    case _ =>
      if ReadsAlike(q, s) {
        ReadsAlikeHolds(q, s);
      } else {
        AsWrittenHolds(q, s);
      }
  }

  /** The query built from a derivation matches exactly the events for which the formula, as it
      is written, is true. */
  lemma QueryMeans(t: Tree, s: Setting)
    requires Derivation(t) && (Root(t) == 23 || 25 <= Root(t) <= 27) && Plain(Meaning(t).node, s)
    ensures Evaluate(Meaning(t).node, EvaluateLeaf, s) == Truth(t, Holds, s)
  {
    hide Derivation, Meaning, Truth, Plain;
    PlainEvaluates(Meaning(t).node, s);
    EvaluateIsTruth(t, Holds, s);
  }
}
