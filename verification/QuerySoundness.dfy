/**
  Soundness of the machine: every stack it builds is explained by derivation trees,
  so an accepting run has found a derivation of what it read.
 */
module QuerySoundness {
  import opened Options
  import opened QueryGrammar
  import opened QueryAutomaton
  import opened QueryMachine

  function ForestYield(f: Forest): seq<Token>
  {
    if f.Nil? then [] else ForestYield(f.front) + Yield(f.last)
  }

  /** Tokens read so far; the implicit END counts as one. */
  function Read(tokens: seq<Token>, pos: nat): seq<Token>
    requires pos <= |tokens| + 1
  {
    if pos <= |tokens| then tokens[..pos] else tokens + [END]
  }

  /** An entry of the stack carries the meaning of a left-associative derivation of its symbol. */
  predicate Represents(state: int, value: Value, t: Tree)
  {
    && Standard(t) && Root(t) == EnteredOn(state) && Meaning(t) == value
    && (state == 20 || state == 33 || state == 34 ==> !Binary(t))
  }

  predicate RepresentsAll(s: Stack, f: Forest)
  {
    match (s, f)
    case (Bottom, Nil) => true
    case (Push(below, state, value), Snoc(front, t)) =>
      Represents(state, value, t) && RepresentsAll(below, front)
    case _ => false
  }

  /** Where `start` is on the stack, the driver holds its query. */
  predicate QueryKnown(s: Stack, q: Option<Query>)
    requires Path(s)
  {
    && (s.Push? && s.state == 9 ==> q == Some(s.value.node))
    && (s.Push? && s.state == 25 ==>
          s.below.Push? && s.below.value.NodeVal? && q == Some(s.below.value.node))
  }

  predicate Explains(tokens: seq<Token>, c: Config, f: Forest)
    requires Wf(tokens, c)
  {
    && RepresentsAll(c.stack, f) && ForestYield(f) == Read(tokens, c.pos)
    && QueryKnown(c.stack, c.query)
  }

  /** `t` derives the tokens before position `k`, where the input ends. */
  predicate Parses(tokens: seq<Token>, k: nat, t: Tree)
  {
    && k <= |tokens| && Sym(TokenAt(tokens, k)) == 0
    && Derivation(t) && Root(t) == 27 && Yield(t) == tokens[..k]
  }

  lemma ShiftExplained(tokens: seq<Token>, c: Config, f: Forest)
    requires Wf(tokens, c) && Top(c.stack) != 25 && Explains(tokens, c, f)
    requires ActionOf(Top(c.stack), Sym(TokenAt(tokens, c.pos))).Shift?
    ensures var s := ActionOf(Top(c.stack), Sym(TokenAt(tokens, c.pos))).state;
      && Wf(tokens, Shifted(tokens, c, s))
      && Explains(tokens, Shifted(tokens, c, s), Snoc(f, Leaf(TokenAt(tokens, c.pos))))
  {
    hide ActionOf;
    var tok := TokenAt(tokens, c.pos);
    var s := ActionOf(Top(c.stack), Sym(tok)).state;
    ShiftStep(tokens, c);
    ShiftEdge(Top(c.stack), Sym(tok));
    assert KindOk(Sym(tok), tok.value);
    assert Edge(Top(c.stack), s);
    assert Read(tokens, c.pos + 1) == Read(tokens, c.pos) + [tok];
  }

  /** Which states reduce AND, OR and NOT. */
  lemma ReduceState(s: int, t: int)
    requires IsState(s) && IsTerminal(t) && ActionOf(s, t).Reduce?
    ensures ActionOf(s, t).rule == 17 ==> s == 34
    ensures ActionOf(s, t).rule == 18 ==> s == 33
    ensures ActionOf(s, t).rule == 19 ==> s == 20
  {
  }

  /** AND and OR are only reduced where an expression may go on, never under NOT, AND or OR. */
  lemma BinaryContext(s: Stack, r: int)
    requires Path(s) && HandleOnTop(s, r) && (r == 17 || r == 18)
    ensures var g := Goto(Top(Popped(s, 3)), 26); g != 20 && g != 33 && g != 34
  {
    assert Path(s.below) && Path(s.below.below);
  }

  lemma PopForest(s: Stack, f: Forest, n: int)
    requires 1 <= n <= 3 && Deep(s, n) && RepresentsAll(s, f)
    ensures DeepForest(f, n) && RepresentsAll(Popped(s, n), Rest(f, n))
    ensures Represents(s.state, s.value, f.last)
    ensures n >= 2 ==> Represents(s.below.state, s.below.value, f.front.last)
    ensures n >= 3 ==> Represents(s.below.below.state, s.below.below.value, f.front.front.last)
  {
    hide Represents;
    assert n >= 2 ==> RepresentsAll(s.below, f.front);
    assert n >= 3 ==> RepresentsAll(s.below.below, f.front.front);
  }

  lemma PopYield(f: Forest, n: int, r: int)
    requires 1 <= n <= 3 && DeepForest(f, n)
    ensures ForestYield(Rest(f, n)) + Yield(Node(r, Parts(f, n))) == ForestYield(f)
  {
    if n == 3 {
      var g := f.front.front;
      assert ForestYield(f.front) == ForestYield(g) + Yield(f.front.last);
      Assoc(ForestYield(g.front), Yield(g.last), Yield(f.front.last), Yield(f.last));
    }
  }

  /** The tree a reduction builds represents the entry it pushes. */
  lemma ReduceTree(s: Stack, f: Forest, r: int)
    requires Path(s) && HandleOnTop(s, r) && ArgsOk(r, Args(s, Len(r))) && RepresentsAll(s, f)
    requires r == 17 ==> s.state == 34
    requires r == 18 ==> s.state == 33
    requires r == 19 ==> s.state == 20
    ensures DeepForest(f, Len(r))
    ensures Represents(Goto(Top(Popped(s, Len(r))), Lhs(r)), Act(r, Args(s, Len(r))),
                       Node(r, Parts(f, Len(r))))
  {
    hide Edge, EnteredOn, Goto, Act, KindOk, Path, RepresentsAll;
    var n := Len(r);
    PopForest(s, f, n);
    GotoEntered(Top(Popped(s, n)), Lhs(r));
    if r == 17 || r == 18 {
      BinaryContext(s, r);
    }
  }

  lemma QueryStays(c: Config, r: int)
    requires Path(c.stack) && HandleOnTop(c.stack, r) && ArgsOk(r, Args(c.stack, Len(r)))
    ensures Path(Reduced(c, r).stack) && QueryKnown(Reduced(c, r).stack, Reduced(c, r).query)
  {
    ReducePath(c, r);
  }

  lemma ReduceExplained(tokens: seq<Token>, c: Config, f: Forest)
    requires Wf(tokens, c) && Top(c.stack) != 25 && Explains(tokens, c, f)
    requires ActionOf(Top(c.stack), Sym(TokenAt(tokens, c.pos))).Reduce?
    ensures var r := ActionOf(Top(c.stack), Sym(TokenAt(tokens, c.pos))).rule;
      && HandleOnTop(c.stack, r) && ArgsOk(r, Args(c.stack, Len(r)))
      && Wf(tokens, Reduced(c, r)) && DeepForest(f, Len(r))
      && Explains(tokens, Reduced(c, r), Snoc(Rest(f, Len(r)), Node(r, Parts(f, Len(r)))))
  {
    hide ActionOf, Edge, EnteredOn, Goto, Act, KindOk, Represents, QueryKnown, Yield;
    var t := Sym(TokenAt(tokens, c.pos));
    var r := ActionOf(Top(c.stack), t).rule;
    ReduceStep(tokens, c);
    ReduceState(Top(c.stack), t);
    ReduceTree(c.stack, f, r);
    PopForest(c.stack, f, Len(r));
    PopYield(f, Len(r), r);
    QueryStays(c, r);
  }

  /** Soundness: an accepting run exhibits the derivation it found. */
  lemma {:induction false} Sound(tokens: seq<Token>, c: Config, f: Forest) returns (k: nat, t: Tree)
    requires Wf(tokens, c) && Explains(tokens, c, f)
    requires Run(tokens, c).accepted
    ensures Parses(tokens, k, t) && Standard(t)
    ensures Run(tokens, c).query == Some(Meaning(t).node)
    decreases |tokens| + 1 - c.pos, Weight(c.stack)
  {
    hide Explains, ActionOf, Edge, EnteredOn, Parses;
    if Top(c.stack) == 25 {
      k, t := AcceptedTree(tokens, c, f);
    } else {
      match ActionOf(Top(c.stack), Sym(TokenAt(tokens, c.pos)))
      case Shift(s) =>
        ShiftExplained(tokens, c, f);
        k, t := Sound(tokens, Shifted(tokens, c, s), Snoc(f, Leaf(TokenAt(tokens, c.pos))));
      case Reduce(r) =>
        ReduceStep(tokens, c);
        ReduceExplained(tokens, c, f);
        k, t := Sound(tokens, Reduced(c, r), Snoc(Rest(f, Len(r)), Node(r, Parts(f, Len(r)))));
    }
  }

  lemma AcceptedTree(tokens: seq<Token>, c: Config, f: Forest) returns (k: nat, t: Tree)
    requires Wf(tokens, c) && Explains(tokens, c, f) && Top(c.stack) == 25
    ensures Parses(tokens, k, t) && Standard(t)
    ensures c.query == Some(Meaning(t).node)
  {
    var s := c.stack;
    assert Path(s.below) && Path(s.below.below);
    assert s.below.below.Bottom?;
    assert RepresentsAll(s.below, f.front) && RepresentsAll(Bottom, f.front.front);
    t := f.front.last;
    assert ForestYield(f.front) == Yield(t);
    var w := Read(tokens, c.pos);
    assert w == Yield(t) + [f.last.tok];
    k := c.pos - 1;
    assert |Yield(t)| == k && w[k] == TokenAt(tokens, k);
    assert tokens[..k] == w[..k];
  }
}
