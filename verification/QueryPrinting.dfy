/**
  Writing a query out and reading it back, and how operators without brackets are read.
 */
module QueryPrinting {
  import opened Options
  import opened QueryGrammar
  import opened QueryMachine
  import opened QuerySoundness
  import opened QueryParser
  import opened QueryEvaluation

  predicate IsBinary(q: Query) { q.And? || q.Or? }

  /** The operator tokens, as the scanner makes them. */
  function OperatorToken(op: string): Token
    requires IsOperator(op)
  {
    Token(if op == "=" then 262 else if op == ">" then 263 else if op == ">=" then 264
          else if op == "<" then 265 else if op == "<=" then 266 else 267, StringVal(op))
  }

  /** Queries the language can write: `true` stands alone, operators are the six known. */
  predicate Printable(q: Query)
  {
    match q
    case True => false
    case Tagged(_) => true
    case FieldNil(_) => true
    case FieldString(_, op, _) => IsOperator(op)
    case FieldInteger(_, op, _) => IsOperator(op)
    case FieldDouble(_, op, _) => IsOperator(op)
    case And(l, r) => Printable(l) && Printable(r)
    case Or(l, r) => Printable(l) && Printable(r)
    case Not(r) => Printable(r)
  }

  /** Brackets only around a binary right operand or a binary operand of `not`. */
  function Print(q: Query): seq<Token>
    requires Printable(q)
    decreases q, 0
  {
    match q
    case Tagged(s) => [Token(270, NoValue), Token(261, StringVal(s))]
    case FieldNil(f) => [Token(268, UnquotedVal(f)), OperatorToken("="), Token(271, NoValue)]
    case FieldString(f, op, s) => [Token(268, UnquotedVal(f)), OperatorToken(op), Token(261, StringVal(s))]
    case FieldInteger(f, op, i) => [Token(268, UnquotedVal(f)), OperatorToken(op), Token(259, IntegerVal(i))]
    case FieldDouble(f, op, d) => [Token(268, UnquotedVal(f)), OperatorToken(op), Token(260, DoubleVal(d))]
    case And(l, r) => Print(l) + [Token(273, NoValue)] + PrintOperand(r)
    case Or(l, r) => Print(l) + [Token(272, NoValue)] + PrintOperand(r)
    case Not(r) => [Token(274, NoValue)] + PrintOperand(r)
  }

  function PrintOperand(q: Query): seq<Token>
    requires Printable(q)
    decreases q, 1
  {
    if IsBinary(q) then [Token(40, NoValue)] + Print(q) + [Token(41, NoValue)] else Print(q)
  }

  predicate Denotes(t: Tree, w: seq<Token>, q: Query)
  {
    Standard(t) && Root(t) == 26 && Yield(t) == w && Meaning(t) == NodeVal(q)
  }

  /** A derivation only has tokens with values of their kind. */
  lemma {:induction false} DerivationTyped(t: Tree)
    requires Derivation(t)
    ensures Typed(Yield(t))
  {
    match t
    case Leaf(_) =>
    case Node(_, One(a)) =>
      DerivationTyped(a);
    case Node(_, Two(a, b)) =>
      DerivationTyped(a);
      DerivationTyped(b);
    case Node(_, Three(a, b, c)) =>
      DerivationTyped(a);
      DerivationTyped(b);
      DerivationTyped(c);
  }

  lemma LeafTree(tok: Token)
    requires KindOk(Sym(tok), tok.value)
    ensures var t := Leaf(tok);
      Standard(t) && Root(t) == Sym(tok) && Yield(t) == [tok] && Meaning(t) == tok.value && !Binary(t)
  {
  }

  lemma Tree1(r: int, a: Tree)
    requires Standard(a) && IsRule(r) && Rhs(r) == One(Root(a))
    ensures var t := Node(r, One(a));
      Standard(t) && Root(t) == Lhs(r) && Yield(t) == Yield(a) && !Binary(t)
    ensures ArgsOk(r, One(Meaning(a))) && Meaning(Node(r, One(a))) == Act(r, One(Meaning(a)))
  {
    hide Act;
  }

  lemma Tree2(r: int, a: Tree, b: Tree)
    requires Standard(a) && Standard(b) && IsRule(r) && Rhs(r) == Two(Root(a), Root(b)) && !Binary(b)
    ensures var t := Node(r, Two(a, b));
      Standard(t) && Root(t) == Lhs(r) && Yield(t) == Yield(a) + Yield(b) && !Binary(t)
    ensures ArgsOk(r, Two(Meaning(a), Meaning(b)))
    ensures Meaning(Node(r, Two(a, b))) == Act(r, Two(Meaning(a), Meaning(b)))
  {
    hide Act;
  }

  lemma Tree3(r: int, a: Tree, b: Tree, c: Tree)
    requires Standard(a) && Standard(b) && Standard(c) && !Binary(c)
    requires IsRule(r) && Rhs(r) == Three(Root(a), Root(b), Root(c))
    ensures var t := Node(r, Three(a, b, c));
      && Standard(t) && Root(t) == Lhs(r) && Yield(t) == Yield(a) + Yield(b) + Yield(c)
      && (Binary(t) <==> r == 17 || r == 18)
    ensures ArgsOk(r, Three(Meaning(a), Meaning(b), Meaning(c)))
    ensures Meaning(Node(r, Three(a, b, c))) == Act(r, Three(Meaning(a), Meaning(b), Meaning(c)))
  {
    hide Act;
  }

  lemma OperatorTree(op: string) returns (t: Tree)
    requires IsOperator(op)
    ensures Standard(t) && Root(t) == 24 && Yield(t) == [OperatorToken(op)]
    ensures Meaning(t) == StringVal(op)
  {
    hide Derivation, LeftAssociative, Yield, Meaning;
    var r := if op == "=" then 4 else if op == ">" then 6 else if op == ">=" then 7
             else if op == "<" then 8 else if op == "<=" then 9 else 5;
    var leaf := Leaf(OperatorToken(op));
    LeafTree(leaf.tok);
    Tree1(r, leaf);
    t := Node(r, One(leaf));
  }

  lemma FieldTree(f: string, op: string, v: Token, r: int) returns (t: Tree)
    requires IsOperator(op) && 13 <= r <= 15 && Sym(v) == Rhs(r).z && KindOk(Sym(v), v.value)
    ensures Standard(t) && Root(t) == 25
    ensures Yield(t) == [Token(268, UnquotedVal(f)), OperatorToken(op), v]
    ensures ArgsOk(r, Three(UnquotedVal(f), StringVal(op), v.value))
    ensures Meaning(t) == Act(r, Three(UnquotedVal(f), StringVal(op), v.value))
  {
    hide Derivation, LeftAssociative, Yield, Meaning, Act, OperatorToken;
    var o := OperatorTree(op);
    var a, b := Leaf(Token(268, UnquotedVal(f))), Leaf(v);
    LeafTree(a.tok);
    LeafTree(v);
    Tree3(r, a, o, b);
    t := Node(r, Three(a, o, b));
  }

  /** A leaf query has its derivation. */
  lemma ActionTree(q: Query) returns (t: Tree)
    requires Printable(q) && !IsBinary(q) && !q.Not?
    ensures Standard(t) && Root(t) == 25 && Yield(t) == Print(q) && Meaning(t) == NodeVal(q)
  {
    hide Derivation, LeftAssociative, Yield, Meaning;
    match q
    case Tagged(s) =>
      var a, b := Leaf(Token(270, NoValue)), Leaf(Token(261, StringVal(s)));
      LeafTree(a.tok);
      LeafTree(b.tok);
      Tree2(11, a, b);
      t := Node(11, Two(a, b));
    case FieldNil(f) =>
      var a, b, c := Leaf(Token(268, UnquotedVal(f))), Leaf(OperatorToken("=")), Leaf(Token(271, NoValue));
      LeafTree(a.tok);
      LeafTree(b.tok);
      LeafTree(c.tok);
      Tree3(12, a, b, c);
      t := Node(12, Three(a, b, c));
    case FieldString(f, op, s) => t := FieldTree(f, op, Token(261, StringVal(s)), 13);
    case FieldInteger(f, op, i) => t := FieldTree(f, op, Token(259, IntegerVal(i)), 14);
    case FieldDouble(f, op, d) => t := FieldTree(f, op, Token(260, DoubleVal(d)), 15);
  }

  lemma {:induction false} PrintTree(q: Query) returns (t: Tree)
    requires Printable(q)
    ensures Denotes(t, Print(q), q) && (Binary(t) <==> IsBinary(q))
    decreases q, 1
  {
    hide Derivation, LeftAssociative, Yield, Meaning;
    if IsBinary(q) {
      t := ConnectiveTree(q);
    } else if q.Not? {
      var x := OperandTree(q.right);
      var op := Leaf(Token(274, NoValue));
      LeafTree(op.tok);
      Tree2(19, op, x);
      t := Node(19, Two(op, x));
    } else {
      var a := ActionTree(q);
      Tree1(20, a);
      t := Node(20, One(a));
    }
  }

  lemma {:induction false} ConnectiveTree(q: Query) returns (t: Tree)
    requires Printable(q) && IsBinary(q)
    ensures Denotes(t, Print(q), q) && Binary(t)
    decreases q, 0
  {
    hide Derivation, LeftAssociative, Yield, Meaning;
    var x := PrintTree(q.left);
    var y := OperandTree(q.right);
    var rule := if q.And? then 17 else 18;
    var op := Leaf(Token(if q.And? then 273 else 272, NoValue));
    LeafTree(op.tok);
    Tree3(rule, x, op, y);
    t := Node(rule, Three(x, op, y));
  }

  lemma {:induction false} OperandTree(q: Query) returns (t: Tree)
    requires Printable(q)
    ensures Denotes(t, PrintOperand(q), q) && !Binary(t)
    decreases q, 2
  {
    hide Derivation, LeftAssociative, Yield, Meaning;
    var x := PrintTree(q);
    if IsBinary(q) {
      var a, b := Leaf(Token(40, NoValue)), Leaf(Token(41, NoValue));
      LeafTree(a.tok);
      LeafTree(b.tok);
      Tree3(16, a, x, b);
      t := Node(16, Three(a, x, b));
    } else {
      t := x;
    }
  }

  /** Round trip: the parser returns exactly the query that was written. */
  lemma PrintThenParse(q: Query)
    requires Printable(q)
    ensures Typed(Print(q)) && Wf(Print(q), START)
    ensures Run(Print(q), START) == Outcome(true, Some(q))
  {
    hide Derivation, LeftAssociative, Yield, Meaning, Run, Typed;
    var x := PrintTree(q);
    Tree1(22, x);
    var t := Node(22, One(x));
    var w := Print(q);
    assert w[..|w|] == w;
    DerivationTyped(x);
    assert Parses(w, |w|, t);
    Complete(w, |w|, t);
  }

  /** Every way to write a tag or a comparison parses to what it spells out. */
  lemma ActionParses(w: seq<Token>)
    requires IsAction(w)
    ensures Wf(w, START) && Run(w, START) == Outcome(true, Some(Spelled(w)))
  {
    hide Derivation, LeftAssociative, Yield, Meaning, Run, Wf;
    var t := SpelledTree(w);
    Tree1(20, t);
    var x := Node(20, One(t));
    Tree1(22, x);
    assert w[..|w|] == w;
    Complete(w, |w|, Node(22, One(x)));
  }

  lemma SpelledTree(w: seq<Token>) returns (t: Tree)
    requires IsAction(w)
    ensures Standard(t) && Root(t) == 25 && Yield(t) == w && Meaning(t) == NodeVal(Spelled(w))
  {
    hide Derivation, LeftAssociative, Yield, Meaning, KindOk;
    var a, b := Leaf(w[0]), Leaf(w[1]);
    LeafTree(w[0]);
    LeafTree(w[1]);
    if |w| == 2 {
      Tree2(11, a, b);
      t := Node(11, Two(a, b));
      assert w == [w[0]] + [w[1]];
    } else {
      var c := Leaf(w[2]);
      LeafTree(w[2]);
      assert w == [w[0]] + [w[1]] + [w[2]];
      if Sym(w[0]) == 15 {
        Tree3(10, a, b, c);
        t := Node(10, Three(a, b, c));
      } else if Sym(w[2]) == 16 {
        Tree3(12, a, b, c);
        t := Node(12, Three(a, b, c));
      } else {
        var n := Sym(w[1]);
        var r := if n == 7 then 4 else if n == 12 then 5 else n - 2;
        Tree1(r, b);
        var o := Node(r, One(b));
        var q := if Sym(w[2]) == 6 then 13 else if Sym(w[2]) == 4 then 14 else 15;
        Tree3(q, a, o, c);
        t := Node(q, Three(a, o, c));
      }
    }
  }

  // ------------------------------------------------------------------ precedence

  /** Operands joined by `and` and `or`, without brackets. */
  datatype Chain = Single(q: Query) | Link(front: Chain, isAnd: bool, q: Query)

  /** No operand is itself such a chain. */
  predicate Operands(c: Chain)
  {
    Printable(c.q) && !IsBinary(c.q) && (c.Link? ==> Operands(c.front))
  }

  function Flat(c: Chain): seq<Token>
    requires Operands(c)
  {
    if c.Single? then Print(c.q)
    else Flat(c.front) + [Token(if c.isAnd then 273 else 272, NoValue)] + Print(c.q)
  }

  /** Both operators on one level, from the left. */
  function FromLeft(c: Chain): Query
  {
    if c.Single? then c.q else if c.isAnd then And(FromLeft(c.front), c.q) else Or(FromLeft(c.front), c.q)
  }

  predicate HasOr(c: Chain) { c.Link? && (!c.isAnd || HasOr(c.front)) }

  /** As is usual: `and` binds more tightly than `or`, so that an operand after `and` goes with the
      last operand of an `or`. */
  function AsUsual(c: Chain): (r: Query)
    ensures HasOr(c) ==> r.Or?
  {
    if c.Single? then c.q
    else
      var l := AsUsual(c.front);
      if !c.isAnd then Or(l, c.q) else if HasOr(c.front) then Or(l.left, And(l.right, c.q)) else And(l, c.q)
  }

  predicate NoAndAfterOr(c: Chain)
  {
    c.Link? ==> NoAndAfterOr(c.front) && (c.isAnd ==> !HasOr(c.front))
  }

  lemma {:induction false} FlatIsPrint(c: Chain)
    requires Operands(c)
    ensures Printable(FromLeft(c)) && Print(FromLeft(c)) == Flat(c)
  {
    if c.Link? {
      FlatIsPrint(c.front);
    }
  }

  lemma {:induction false} SameTree(c: Chain)
    ensures FromLeft(c) == AsUsual(c) <==> NoAndAfterOr(c)
  {
    if c.Link? {
      SameTree(c.front);
    }
  }

  /** A chain is read from the left, and this is the usual reading exactly when no `and` comes
      after an `or`. */
  lemma PrecedenceExactly(c: Chain)
    requires Operands(c)
    ensures Typed(Flat(c)) && Wf(Flat(c), START) && Run(Flat(c), START) == Outcome(true, Some(FromLeft(c)))
    ensures Run(Flat(c), START).query == Some(AsUsual(c)) <==> NoAndAfterOr(c)
  {
    hide Run, Wf, Typed;
    FlatIsPrint(c);
    PrintThenParse(FromLeft(c));
    SameTree(c);
  }

  // ------------------------------------------------- what precedence does to the meaning

  /** The operands are different tags or field comparisons. */
  predicate DifferentOperands(c: Chain)
  {
    && (c.q.Tagged? || c.q.FieldNil? || c.q.FieldString? || c.q.FieldInteger? || c.q.FieldDouble?)
    && (c.Link? ==> c.q !in OperandsOf(c.front) && DifferentOperands(c.front))
  }

  function OperandsOf(c: Chain): set<Query>
  {
    if c.Single? then {c.q} else OperandsOf(c.front) + {c.q}
  }

  /** An event is given by the comparisons that it satisfies. */
  predicate Satisfied(q: Query, e: set<Query>) { q in e }

  /** Where everything is satisfied, the usual reading is true, and so is the left side of its
      `or`. */
  lemma {:induction false} AllSatisfied(c: Chain, e: set<Query>)
    requires DifferentOperands(c) && OperandsOf(c) <= e
    ensures Evaluate(AsUsual(c), Satisfied, e)
    ensures HasOr(c) ==> Evaluate(AsUsual(c).left, Satisfied, e) && Evaluate(AsUsual(c).right, Satisfied, e)
  {
    assert c.q in OperandsOf(c) && Evaluate(c.q, Satisfied, e);
    if c.Link? {
      AllSatisfied(c.front, e);
      var l := AsUsual(c.front);
      assert c.isAnd && HasOr(c.front) ==> Evaluate(And(l.right, c.q), Satisfied, e);
    }
  }

  lemma {:induction false} OnlyAnds(c: Chain)
    ensures !HasOr(c) ==> NoAndAfterOr(c)
  {
    if c.Link? {
      OnlyAnds(c.front);
    }
  }

  /** An event for which the usual reading is true and the reading from the left is not. */
  lemma {:induction false} ReadingsDiffer(c: Chain) returns (e: set<Query>)
    requires DifferentOperands(c) && !NoAndAfterOr(c)
    ensures e <= OperandsOf(c)
    ensures !Evaluate(FromLeft(c), Satisfied, e) && Evaluate(AsUsual(c), Satisfied, e)
  {
    if c.isAnd && HasOr(c.front) {
      e := OperandsOf(c.front);
      AllSatisfied(c.front, e);
      assert !Evaluate(c.q, Satisfied, e);
    } else {
      OnlyAnds(c.front);
      e := ReadingsDiffer(c.front);
      assert !Evaluate(c.q, Satisfied, e);
    }
  }

  /** For different operands, the reading from the left matches the same events as the usual one
      exactly when no `and` comes after an `or`. */
  lemma MeaningExactly(c: Chain)
    requires DifferentOperands(c)
    ensures (forall e :: Evaluate(FromLeft(c), Satisfied, e) == Evaluate(AsUsual(c), Satisfied, e)) <==> NoAndAfterOr(c)
  {
    if NoAndAfterOr(c) {
      SameTree(c);
    } else {
      var e := ReadingsDiffer(c);
    }
  }
}
