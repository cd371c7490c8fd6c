/**
  The query language: tokens, syntax nodes, the productions of the grammar with
  their semantic actions, and derivation trees.  Grammar symbols carry the
  numbers the generated parser gives them: terminals are 0..21, non-terminals
  are 23 (all), 24 (operator), 25 (action), 26 (expr) and 27 (start).
 */
module QueryGrammar {
  /** The right-hand sides of the grammar have one, two or three parts. */
  datatype Phrase<+T> = One(x: T) | Two(x: T, y: T) | Three(x: T, y: T, z: T)

  datatype Query =
    | True
    | Tagged(tag: string)
    | FieldNil(field: string)
    | FieldString(field: string, op: string, str: string)
    | FieldInteger(field: string, op: string, int_: int)
    | FieldDouble(field: string, op: string, double_: real)
    | And(left: Query, right: Query)
    | Or(left: Query, right: Query)
    | Not(right: Query)

  /** The semantic value of a symbol: the members of the parser's union. */
  datatype Value =
    | NoValue
    | IntegerVal(i: int)
    | DoubleVal(d: real)
    | StringVal(s: string)
    | UnquotedVal(u: string)
    | NodeVal(node: Query)

  /** A token as the scanner returns it: its external number and its value. */
  datatype Token = Token(number: int, value: Value)

  const END := Token(0, NoValue)

  /** External token number to grammar symbol. */
  function Translate(number: int): (sym: int)
    ensures 0 <= sym < 22
  {
    if number <= 0 then 0
    else if number == 40 then 20
    else if number == 41 then 21
    else if number == 256 then 1
    else if 258 <= number <= 274 then number - 255
    else 2
  }

  /** Each symbol has one token number, save for the end, which all numbers up to zero stand for,
      and the undefined symbol. */
  lemma TokenNumbers(n: int, s: int)
    ensures Translate(n) == 0 <==> n <= 0
    ensures Translate(n) == 1 <==> n == 256
    ensures Translate(n) == 20 <==> n == 40
    ensures Translate(n) == 21 <==> n == 41
    ensures 3 <= s <= 19 ==> (Translate(n) == s <==> n == s + 255)
  {
  }

  function Sym(t: Token): int { Translate(t.number) }

  /** Which member of the union a symbol's value lives in. */
  predicate KindOk(sym: int, v: Value)
  {
    && (sym == 4 ==> v.IntegerVal?)
    && (sym == 5 ==> v.DoubleVal?)
    && (6 <= sym <= 12 || sym == 24 ==> v.StringVal?)
    && (sym == 13 ==> v.UnquotedVal?)
    && (sym == 23 || 25 <= sym <= 27 ==> v.NodeVal?)
  }

  predicate Typed(tokens: seq<Token>)
  {
    forall i :: 0 <= i < |tokens| ==> KindOk(Sym(tokens[i]), tokens[i].value)
  }

  /** The token the scanner yields at a position: past the end it keeps saying END. */
  function TokenAt(tokens: seq<Token>, pos: nat): Token
  {
    if pos < |tokens| then tokens[pos] else END
  }

  predicate IsRule(r: int) { 2 <= r <= 22 }

  /** Left-hand side of a production. */
  function Lhs(r: int): int
    requires IsRule(r)
  {
    if r <= 3 then 23 else if r <= 9 then 24 else if r <= 15 then 25
    else if r <= 20 then 26 else 27
  }

  /** Right-hand side of a production. */
  function Rhs(r: int): Phrase<int>
    requires IsRule(r)
  {
    match r
    case 2 => Three(20, 14, 21)  // all: '(' TRUE ')'
    case 3 => One(14)  //    | TRUE
    case 4 => One(7)  // operator: EQUAL
    case 5 => One(12)  //    | LIKE
    case 6 => One(8)  //    | GREATER
    case 7 => One(9)  //    | GREATER_EQ
    case 8 => One(10)  //    | LESSER
    case 9 => One(11)  //    | LESSER_EQ
    case 10 => Three(15, 7, 6)  // action: TAGGED EQUAL STRING
    case 11 => Two(15, 6)  //    | TAGGED STRING
    case 12 => Three(13, 7, 16)  //    | UNQUOTEDSTRING EQUAL NIL
    case 13 => Three(13, 24, 6)  //    | UNQUOTEDSTRING operator STRING
    case 14 => Three(13, 24, 4)  //    | UNQUOTEDSTRING operator INTEGER
    case 15 => Three(13, 24, 5)  //    | UNQUOTEDSTRING operator DOUBLE
    case 16 => Three(20, 26, 21)  // expr: '(' expr ')'
    case 17 => Three(26, 18, 26)  //    | expr AND expr
    case 18 => Three(26, 17, 26)  //    | expr OR expr
    case 19 => Two(19, 26)  //    | NOT expr
    case 20 => One(25)  //    | action
    case 21 => One(23)  // start: all
    case _ => One(26)  //    | expr
  }

  function Len(r: int): int
    requires IsRule(r)
  {
    match Rhs(r) case One(_) => 1 case Two(_, _) => 2 case Three(_, _, _) => 3
  }

  /** A value of the right kind for each symbol of the right-hand side. */
  predicate ArgsOk(r: int, args: Phrase<Value>)
    requires IsRule(r)
  {
    match (Rhs(r), args)
    case (One(a), One(u)) => KindOk(a, u)
    case (Two(a, b), Two(u, v)) => KindOk(a, u) && KindOk(b, v)
    case (Three(a, b, c), Three(u, v, w)) => KindOk(a, u) && KindOk(b, v) && KindOk(c, w)
    case _ => false
  }

  /** The semantic action of a production. */
  function Act(r: int, args: Phrase<Value>): (v: Value)
    requires IsRule(r) && ArgsOk(r, args)
    ensures KindOk(Lhs(r), v)
  {
    match r
    case 2 => NodeVal(True)
    case 3 => NodeVal(True)
    case 10 => NodeVal(Tagged(args.z.s))
    case 11 => NodeVal(Tagged(args.y.s))
    case 12 => NodeVal(FieldNil(args.x.u))
    case 13 => NodeVal(FieldString(args.x.u, args.y.s, args.z.s))
    case 14 => NodeVal(FieldInteger(args.x.u, args.y.s, args.z.i))
    case 15 => NodeVal(FieldDouble(args.x.u, args.y.s, args.z.d))
    case 16 => args.y
    case 17 => NodeVal(And(args.x.node, args.z.node))
    case 18 => NodeVal(Or(args.x.node, args.z.node))
    case 19 => NodeVal(Not(args.y.node))
    case _ => args.x
  }

  /** The texts of the operator tokens. */
  predicate IsOperator(op: string) { op in ["=", ">", ">=", "<", "<=", "=~"] }

  // ---------------------------------------------------------------- derivations

  /** A leaf is a token; an inner node applies a production to its parts. */
  datatype Tree = Leaf(tok: Token) | Node(rule: int, parts: Phrase<Tree>)

  function Root(t: Tree): int
  {
    if t.Leaf? then Sym(t.tok) else if IsRule(t.rule) then Lhs(t.rule) else -1
  }

  /** The tree is a derivation in the grammar. */
  predicate Derivation(t: Tree)
  {
    match t
    case Leaf(tok) => KindOk(Sym(tok), tok.value)
    case Node(r, One(a)) => IsRule(r) && Rhs(r) == One(Root(a)) && Derivation(a)
    case Node(r, Two(a, b)) =>
      IsRule(r) && Rhs(r) == Two(Root(a), Root(b)) && Derivation(a) && Derivation(b)
    case Node(r, Three(a, b, c)) =>
      && IsRule(r) && Rhs(r) == Three(Root(a), Root(b), Root(c))
      && Derivation(a) && Derivation(b) && Derivation(c)
  }

  function Yield(t: Tree): seq<Token>
  {
    match t
    case Leaf(tok) => [tok]
    case Node(_, One(a)) => Yield(a)
    case Node(_, Two(a, b)) => Yield(a) + Yield(b)
    case Node(_, Three(a, b, c)) => Yield(a) + Yield(b) + Yield(c)
  }

  /** What the semantic actions compute for a derivation. */
  function Meaning(t: Tree): (v: Value)
    requires Derivation(t)
    ensures KindOk(Root(t), v)
  {
    match t
    case Leaf(tok) => tok.value
    case Node(r, One(a)) => Act(r, One(Meaning(a)))
    case Node(r, Two(a, b)) => Act(r, Two(Meaning(a), Meaning(b)))
    case Node(r, Three(a, b, c)) => Act(r, Three(Meaning(a), Meaning(b), Meaning(c)))
  }

  // ------------------------------------------------- one tree among many: %left

  predicate Binary(t: Tree) { t.Node? && t.parts.Three? && (t.rule == 17 || t.rule == 18) }

  /**
    The derivations that `%left OR AND NOT` selects: a right operand of AND or OR,
    and the operand of NOT, is never itself an unbracketed AND or OR.
   */
  predicate LeftAssociative(t: Tree)
  {
    match t
    case Leaf(_) => true
    case Node(_, One(a)) => LeftAssociative(a)
    case Node(r, Two(a, b)) => LeftAssociative(a) && LeftAssociative(b) && (r == 19 ==> !Binary(b))
    case Node(r, Three(a, b, c)) =>
      && LeftAssociative(a) && LeftAssociative(b) && LeftAssociative(c)
      && (r == 17 || r == 18 ==> !Binary(c))
  }

  predicate Standard(t: Tree) { Derivation(t) && LeftAssociative(t) }

  lemma Assoc<T>(x: seq<T>, a: seq<T>, b: seq<T>, c: seq<T>)
    ensures x + (a + b + c) == (x + a) + b + c
  {
  }

  /** `l op r`, re-associated to the left. */
  lemma {:induction false} Join(rule: int, l: Tree, op: Tree, r: Tree) returns (t: Tree)
    requires rule == 17 || rule == 18
    requires Standard(l) && Standard(op) && Standard(r)
    requires Root(l) == Root(r) == 26 && Root(op) == Rhs(rule).y
    ensures Standard(t) && Root(t) == 26 && Yield(t) == Yield(l) + Yield(op) + Yield(r)
    decreases r
  {
    if Binary(r) {
      var Three(a, b, c) := r.parts;
      var a' := Join(rule, l, op, a);
      t := Node(r.rule, Three(a', b, c));
      Assoc(Yield(l) + Yield(op), Yield(a), Yield(b), Yield(c));
    } else {
      t := Node(rule, Three(l, op, r));
    }
  }

  /** `not e`, with the NOT pushed down to the leftmost operand of `e`. */
  lemma {:induction false} Negate(op: Tree, e: Tree) returns (t: Tree)
    requires Standard(op) && Standard(e) && Root(op) == 19 && Root(e) == 26
    ensures Standard(t) && Root(t) == 26 && Yield(t) == Yield(op) + Yield(e)
    decreases e
  {
    if Binary(e) {
      var Three(a, b, c) := e.parts;
      var a' := Negate(op, a);
      t := Node(e.rule, Three(a', b, c));
      Assoc(Yield(op), Yield(a), Yield(b), Yield(c));
    } else {
      t := Node(19, Two(op, e));
    }
  }

  lemma Regroup2(r: int, a: Tree, b: Tree) returns (u: Tree)
    requires IsRule(r) && Rhs(r) == Two(Root(a), Root(b)) && Standard(a) && Standard(b)
    ensures Standard(u) && Root(u) == Lhs(r) && Yield(u) == Yield(a) + Yield(b)
  {
    if r == 19 {
      u := Negate(a, b);
    } else {
      u := Node(r, Two(a, b));
    }
  }

  lemma Regroup3(r: int, a: Tree, b: Tree, c: Tree) returns (u: Tree)
    requires IsRule(r) && Rhs(r) == Three(Root(a), Root(b), Root(c))
    requires Standard(a) && Standard(b) && Standard(c)
    ensures Standard(u) && Root(u) == Lhs(r) && Yield(u) == Yield(a) + Yield(b) + Yield(c)
  {
    if r == 17 || r == 18 {
      u := Join(r, a, b, c);
    } else {
      u := Node(r, Three(a, b, c));
    }
  }

  /** Every derivation has a left-associative one with the same root and yield. */
  lemma {:induction false} LeftAssociate(t: Tree) returns (u: Tree)
    requires Derivation(t)
    ensures Standard(u) && Root(u) == Root(t) && Yield(u) == Yield(t)
  {
    match t
    case Leaf(_) => u := t;
    case Node(r, One(a)) =>
      var a' := LeftAssociate(a);
      u := Node(r, One(a'));
    case Node(r, Two(a, b)) =>
      var a' := LeftAssociate(a);
      var b' := LeftAssociate(b);
      u := Regroup2(r, a', b');
    case Node(r, Three(a, b, c)) =>
      var a' := LeftAssociate(a);
      var b' := LeftAssociate(b);
      var c' := LeftAssociate(c);
      u := Regroup3(r, a', b', c');
  }
}
