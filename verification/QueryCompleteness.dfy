/**
  Completeness of the machine: reading the yield of a left-associative derivation
  pushes exactly one entry, which carries the derivation's meaning.
 */
module QueryCompleteness {
  import opened QueryGrammar
  import opened QueryAutomaton
  import opened QueryMachine

  /** The tokens at `pos` are `w`. */
  predicate At(tokens: seq<Token>, pos: nat, w: seq<Token>)
  {
    pos + |w| <= |tokens| && tokens[pos..pos + |w|] == w
  }

  lemma AtConcat(tokens: seq<Token>, pos: nat, v: seq<Token>, w: seq<Token>)
    requires At(tokens, pos, v + w)
    ensures At(tokens, pos, v) && At(tokens, pos + |v|, w)
  {
    assert tokens[pos..pos + |v + w|][..|v|] == v;
    assert tokens[pos..pos + |v + w|][|v|..] == w;
  }

  /** Both configurations are sound, and the run from one is the run from the other and builds
      the same derivations. */
  predicate Leads(tokens: seq<Token>, c: Config, f: Forest, d: Config, g: Forest)
  {
    && Wf(tokens, c) && Wf(tokens, d)
    && Run(tokens, c) == Run(tokens, d) && Found(tokens, c, f) == Found(tokens, d, g)
  }

  function WithParts(f: Forest, parts: Phrase<Tree>): Forest
  {
    match parts
    case One(x) => Snoc(f, x)
    case Two(x, y) => Snoc(Snoc(f, x), y)
    case Three(x, y, z) => Snoc(Snoc(Snoc(f, x), y), z)
  }

  /** The configuration with one more entry, `n` tokens on. */
  function With(c: Config, s: int, v: Value, n: nat): Config
  {
    Config(Push(c.stack, s, v), c.pos + n, c.query)
  }

  /** What reading all of `t` must lead to. */
  function After(c: Config, t: Tree): Config
    requires Derivation(t)
  {
    With(c, Goto(Top(c.stack), Root(t)), Meaning(t), |Yield(t)|)
  }

  /** Reading one leaf shifts its token. */
  lemma ReadLeaf(tokens: seq<Token>, c: Config, f: Forest, t: Tree, s: int)
    requires Wf(tokens, c) && Derivation(t) && 0 <= Root(t) < 22 && At(tokens, c.pos, Yield(t))
    requires Top(c.stack) != 25 && ActionOf(Top(c.stack), Root(t)) == Shift(s)
    ensures |Yield(t)| == 1 && Leads(tokens, c, f, With(c, s, Meaning(t), 1), Snoc(f, t))
  {
    hide ActionOf;
    assert t.Leaf?;
    assert tokens[c.pos..c.pos + 1][0] == t.tok;
    ShiftStep(tokens, c);
  }

  lemma RunReduce(tokens: seq<Token>, c: Config, f: Forest, r: int)
    requires Wf(tokens, c) && Top(c.stack) != 25
    requires ActionOf(Top(c.stack), Sym(TokenAt(tokens, c.pos))) == Reduce(r) && DeepForest(f, Len(r))
    ensures HandleOnTop(c.stack, r) && ArgsOk(r, Args(c.stack, Len(r)))
    ensures Leads(tokens, c, f, Reduced(c, r), Snoc(Rest(f, Len(r)), Node(r, Parts(f, Len(r)))))
  {
    hide ActionOf, Act, Edge, EnteredOn, Goto;
    ReduceStep(tokens, c);
  }

  /** `d` is `c` with the parts of `t` read onto its stack. */
  predicate PartsRead(c: Config, d: Config, t: Tree)
    requires Derivation(t) && t.Node?
  {
    && d.pos == c.pos + |Yield(t)| && d.query == c.query && Deep(d.stack, Len(t.rule))
    && Popped(d.stack, Len(t.rule)) == c.stack
    && match t.parts {
         case One(x) => Args(d.stack, 1) == One(Meaning(x))
         case Two(x, y) => Args(d.stack, 2) == Two(Meaning(x), Meaning(y))
         case Three(x, y, z) => Args(d.stack, 3) == Three(Meaning(x), Meaning(y), Meaning(z))
       }
  }

  /** With the parts of `t` read onto the stack, a reduction completes reading `t`. */
  lemma Finish(tokens: seq<Token>, c: Config, f: Forest, d: Config, t: Tree)
    requires Derivation(t) && t.Node? && t.rule <= 20
    requires Leads(tokens, c, f, d, WithParts(f, t.parts)) && PartsRead(c, d, t)
    requires Top(d.stack) != 25
    requires ActionOf(Top(d.stack), Sym(TokenAt(tokens, d.pos))) == Reduce(t.rule)
    ensures Leads(tokens, c, f, After(c, t), Snoc(f, t))
  {
    hide Run, Found, ActionOf, Act, Edge, EnteredOn, Goto, KindOk, Yield;
    RunReduce(tokens, d, WithParts(f, t.parts), t.rule);
    assert Reduced(d, t.rule) == After(c, t);
  }

  /** An operator is reduced unless NIL follows it. */
  lemma ReadOperator(tokens: seq<Token>, c: Config, f: Forest, t: Tree)
    requires Wf(tokens, c) && Derivation(t) && Root(t) == 24 && At(tokens, c.pos, Yield(t))
    requires Top(c.stack) == 1 && Sym(TokenAt(tokens, c.pos + |Yield(t)|)) != 16
    ensures |Yield(t)| == 1 && Leads(tokens, c, f, After(c, t), Snoc(f, t))
  {
    hide Run, Found, Path, At, Edge, EnteredOn, KindOk, Act, Meaning;
    var x := t.parts.x;
    var s := Root(x) + 3;
    ReadLeaf(tokens, c, f, x, s);
    Finish(tokens, c, f, With(c, s, Meaning(x), 1), t);
  }

  /** Reading `tagged "x"`. */
  lemma ReadTagged(tokens: seq<Token>, c: Config, f: Forest, t: Tree)
    requires Wf(tokens, c) && OperandState(Top(c.stack))
    requires Derivation(t) && t.Node? && t.rule == 11 && At(tokens, c.pos, Yield(t))
    ensures Leads(tokens, c, f, After(c, t), Snoc(f, t))
  {
    hide Run, Found, Path, At, Edge, EnteredOn, KindOk, Act, Meaning;
    var Two(x, y) := t.parts;
    AtConcat(tokens, c.pos, Yield(x), Yield(y));
    ReadLeaf(tokens, c, f, x, 3);
    var c1 := With(c, 3, Meaning(x), 1);
    ReadLeaf(tokens, c1, Snoc(f, x), y, 17);
    Finish(tokens, c, f, With(c1, 17, Meaning(y), 1), t);
  }

  lemma At3(tokens: seq<Token>, pos: nat, t: Tree)
    requires t.Node? && t.parts.Three? && At(tokens, pos, Yield(t))
    ensures var Three(x, y, z) := t.parts;
      && At(tokens, pos, Yield(x)) && At(tokens, pos + |Yield(x)|, Yield(y))
      && At(tokens, pos + |Yield(x)| + |Yield(y)|, Yield(z))
      && |Yield(t)| == |Yield(x)| + |Yield(y)| + |Yield(z)|
  {
    hide At;
    var Three(x, y, z) := t.parts;
    AtConcat(tokens, pos, Yield(x) + Yield(y), Yield(z));
    AtConcat(tokens, pos, Yield(x), Yield(y));
  }

  /** Reading `tagged = "x"`. */
  lemma ReadTaggedEqual(tokens: seq<Token>, c: Config, f: Forest, t: Tree)
    requires Wf(tokens, c) && OperandState(Top(c.stack))
    requires Derivation(t) && t.Node? && t.rule == 10 && At(tokens, c.pos, Yield(t))
    ensures Leads(tokens, c, f, After(c, t), Snoc(f, t))
  {
    hide Run, Found, Path, At, Edge, EnteredOn, KindOk, Act, Meaning, Yield;
    var Three(x, y, z) := t.parts;
    At3(tokens, c.pos, t);
    ReadLeaf(tokens, c, f, x, 3);
    var c1 := With(c, 3, Meaning(x), 1);
    ReadLeaf(tokens, c1, Snoc(f, x), y, 18);
    var c2 := With(c1, 18, Meaning(y), 1);
    ReadLeaf(tokens, c2, Snoc(Snoc(f, x), y), z, 30);
    Finish(tokens, c, f, With(c2, 30, Meaning(z), 1), t);
  }

  /** Reading `field = nil`. */
  lemma ReadFieldNil(tokens: seq<Token>, c: Config, f: Forest, t: Tree)
    requires Wf(tokens, c) && OperandState(Top(c.stack))
    requires Derivation(t) && t.Node? && t.rule == 12 && At(tokens, c.pos, Yield(t))
    ensures Leads(tokens, c, f, After(c, t), Snoc(f, t))
  {
    hide Run, Found, Path, At, Edge, EnteredOn, KindOk, Act, Meaning, Yield;
    var Three(x, y, z) := t.parts;
    At3(tokens, c.pos, t);
    ReadLeaf(tokens, c, f, x, 1);
    var c1 := With(c, 1, Meaning(x), 1);
    ReadLeaf(tokens, c1, Snoc(f, x), y, 10);
    var c2 := With(c1, 10, Meaning(y), 1);
    ReadLeaf(tokens, c2, Snoc(Snoc(f, x), y), z, 26);
    Finish(tokens, c, f, With(c2, 26, Meaning(z), 1), t);
  }

  lemma LeafFollows(tokens: seq<Token>, pos: nat, t: Tree)
    requires Derivation(t) && 0 <= Root(t) < 22 && At(tokens, pos, Yield(t))
    ensures Sym(TokenAt(tokens, pos)) == Root(t)
  {
    assert t.Leaf?;
    assert tokens[pos..pos + 1][0] == t.tok;
  }

  /** Reading `field op value`. */
  lemma ReadFieldValue(tokens: seq<Token>, c: Config, f: Forest, t: Tree)
    requires Wf(tokens, c) && OperandState(Top(c.stack))
    requires Derivation(t) && t.Node? && 13 <= t.rule <= 15 && At(tokens, c.pos, Yield(t))
    ensures Leads(tokens, c, f, After(c, t), Snoc(f, t))
  {
    hide Run, Found, Path, At, Edge, EnteredOn, KindOk, Act, Meaning, Yield, TokenAt;
    var Three(x, y, z) := t.parts;
    At3(tokens, c.pos, t);
    ReadLeaf(tokens, c, f, x, 1);
    var c1 := With(c, 1, Meaning(x), 1);
    LeafFollows(tokens, c1.pos + |Yield(y)|, z);
    ReadOperator(tokens, c1, Snoc(f, x), y);
    var c2 := With(c1, 16, Meaning(y), 1);
    var s := Root(z) + 23;
    ReadLeaf(tokens, c2, Snoc(Snoc(f, x), y), z, s);
    Finish(tokens, c, f, With(c2, s, Meaning(z), 1), t);
  }

  lemma ReadAction(tokens: seq<Token>, c: Config, f: Forest, t: Tree)
    requires Wf(tokens, c) && OperandState(Top(c.stack))
    requires Derivation(t) && Root(t) == 25 && At(tokens, c.pos, Yield(t))
    ensures Leads(tokens, c, f, After(c, t), Snoc(f, t))
  {
    hide Run, Found, Path, At, Edge, EnteredOn, KindOk, Act, Meaning, Yield;
    if t.rule == 10 {
      ReadTaggedEqual(tokens, c, f, t);
    } else if t.rule == 11 {
      ReadTagged(tokens, c, f, t);
    } else if t.rule == 12 {
      ReadFieldNil(tokens, c, f, t);
    } else {
      ReadFieldValue(tokens, c, f, t);
    }
  }

  /**
    Where an operand may start, reading `t` pushes one entry carrying its meaning.
    Under NOT and to the right of AND and OR this holds for the operands that are not
    themselves an unbracketed AND or OR.
   */
  lemma {:induction false} ReadExpr(tokens: seq<Token>, c: Config, f: Forest, t: Tree)
    requires Wf(tokens, c) && OperandState(Top(c.stack))
    requires Standard(t) && Root(t) == 26 && At(tokens, c.pos, Yield(t))
    requires Top(c.stack) == 4 || Top(c.stack) == 23 || Top(c.stack) == 24 ==> !Binary(t)
    ensures Leads(tokens, c, f, After(c, t), Snoc(f, t))
    decreases t, 1
  {
    hide Run, Found, Path, At, Edge, EnteredOn, KindOk, Act, Meaning, Yield;
    if t.rule == 16 {
      ReadParens(tokens, c, f, t);
    } else if t.rule == 19 {
      ReadNot(tokens, c, f, t);
    } else if t.rule == 20 {
      ReadAtom(tokens, c, f, t);
    } else {
      ReadBinary(tokens, c, f, t);
    }
  }

  lemma ReadAtom(tokens: seq<Token>, c: Config, f: Forest, t: Tree)
    requires Wf(tokens, c) && OperandState(Top(c.stack))
    requires Derivation(t) && t.Node? && t.rule == 20 && At(tokens, c.pos, Yield(t))
    ensures Leads(tokens, c, f, After(c, t), Snoc(f, t))
  {
    hide Run, Found, Path, At, Edge, EnteredOn, KindOk, Act, Meaning;
    ReadAction(tokens, c, f, t.parts.x);
    Finish(tokens, c, f, After(c, t.parts.x), t);
  }

  lemma {:induction false} ReadParens(tokens: seq<Token>, c: Config, f: Forest, t: Tree)
    requires Wf(tokens, c) && OperandState(Top(c.stack))
    requires Standard(t) && t.Node? && t.rule == 16 && At(tokens, c.pos, Yield(t))
    ensures Leads(tokens, c, f, After(c, t), Snoc(f, t))
    decreases t, 0
  {
    hide Run, Found, Path, At, Edge, EnteredOn, KindOk, Act, Meaning, Yield;
    var Three(x, y, z) := t.parts;
    At3(tokens, c.pos, t);
    var s := if Top(c.stack) == 0 then 5 else 19;
    ReadLeaf(tokens, c, f, x, s);
    var c1 := With(c, s, Meaning(x), 1);
    ReadExpr(tokens, c1, Snoc(f, x), y);
    var c2 := After(c1, y);
    ReadLeaf(tokens, c2, Snoc(Snoc(f, x), y), z, 32);
    Finish(tokens, c, f, With(c2, 32, Meaning(z), 1), t);
  }

  lemma {:induction false} ReadNot(tokens: seq<Token>, c: Config, f: Forest, t: Tree)
    requires Wf(tokens, c) && OperandState(Top(c.stack))
    requires Standard(t) && t.Node? && t.rule == 19 && At(tokens, c.pos, Yield(t))
    ensures Leads(tokens, c, f, After(c, t), Snoc(f, t))
    decreases t, 0
  {
    hide Run, Found, Path, At, Edge, EnteredOn, KindOk, Act, Meaning;
    var Two(x, y) := t.parts;
    AtConcat(tokens, c.pos, Yield(x), Yield(y));
    ReadLeaf(tokens, c, f, x, 4);
    var c1 := With(c, 4, Meaning(x), 1);
    ReadExpr(tokens, c1, Snoc(f, x), y);
    Finish(tokens, c, f, After(c1, y), t);
  }

  lemma BinaryParts(t: Tree)
    requires Standard(t) && Binary(t)
    ensures var Three(x, y, z) := t.parts;
      && Standard(x) && Standard(y) && Standard(z) && !Binary(z)
      && Root(x) == Root(z) == 26 && Root(y) == 35 - t.rule && Len(t.rule) == 3
  {
  }

  lemma {:induction false} ReadBinary(tokens: seq<Token>, c: Config, f: Forest, t: Tree)
    requires Wf(tokens, c) && (Top(c.stack) == 0 || Top(c.stack) == 5 || Top(c.stack) == 19)
    requires Standard(t) && Binary(t) && At(tokens, c.pos, Yield(t))
    ensures Leads(tokens, c, f, After(c, t), Snoc(f, t))
    decreases t, 0
  {
    hide Run, Found, Path, At, Edge, EnteredOn, KindOk, Act, Meaning, Yield, Derivation, LeftAssociative, Rhs, Len;
    BinaryParts(t);
    var Three(x, y, z) := t.parts;
    At3(tokens, c.pos, t);
    var s := if t.rule == 17 then 24 else 23;
    ReadExpr(tokens, c, f, x);
    var c1 := After(c, x);
    ReadLeaf(tokens, c1, Snoc(f, x), y, s);
    var c2 := With(c1, s, Meaning(y), 1);
    ReadExpr(tokens, c2, Snoc(Snoc(f, x), y), z);
    Finish(tokens, c, f, After(c2, z), t);
  }

  /** Reading `true` and `( true )`. */
  lemma ReadAll(tokens: seq<Token>, c: Config, f: Forest, t: Tree)
    requires Wf(tokens, c) && Top(c.stack) == 0
    requires Derivation(t) && Root(t) == 23 && At(tokens, c.pos, Yield(t))
    ensures Leads(tokens, c, f, After(c, t), Snoc(f, t))
  {
    hide Run, Found, Path, At, Edge, EnteredOn, KindOk, Act, Meaning;
    match t.parts
    case One(x) =>
      ReadLeaf(tokens, c, f, x, 2);
      Finish(tokens, c, f, With(c, 2, Meaning(x), 1), t);
    case Three(x, y, z) =>
      At3(tokens, c.pos, t);
      ReadLeaf(tokens, c, f, x, 5);
      var c1 := With(c, 5, Meaning(x), 1);
      ReadLeaf(tokens, c1, Snoc(f, x), y, 21);
      var c2 := With(c1, 21, Meaning(y), 1);
      ReadLeaf(tokens, c2, Snoc(Snoc(f, x), y), z, 31);
      Finish(tokens, c, f, With(c2, 31, Meaning(z), 1), t);
  }
}
