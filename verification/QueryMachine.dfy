/**
  The pushdown machine of the automaton: configurations, one step, and the whole
  run.  The stack discipline (`Wf`) is what makes every pop safe, every union read
  well-typed, and the run finite.
 */
module QueryMachine {
  import opened Options
  import opened QueryGrammar
  import opened QueryAutomaton

  /** The parser stack; its bottom is the start state. */
  datatype Stack = Bottom | Push(below: Stack, state: int, value: Value)

  /** The stack, the next token to read, and the query handed to the driver so far. */
  datatype Config = Config(stack: Stack, pos: nat, query: Option<Query>)

  datatype Outcome = Outcome(accepted: bool, query: Option<Query>)

  const START := Config(Bottom, 0, None)

  function Top(s: Stack): int { if s.Bottom? then 0 else s.state }

  /** States in which an operand starts. */
  predicate OperandState(s: int) { s == 0 || s == 4 || s == 5 || s == 19 || s == 23 || s == 24 }

  /** `s` can be entered from `p`. */
  predicate Edge(p: int, s: int)
  {
    match s
    case 1 => OperandState(p) case 3 => OperandState(p)
    case 4 => OperandState(p) case 7 => OperandState(p)
    case 2 => p == 0 case 5 => p == 0 case 6 => p == 0 case 8 => p == 0 case 9 => p == 0
    case 10 => p == 1 case 11 => p == 1 case 12 => p == 1 case 13 => p == 1
    case 14 => p == 1 case 15 => p == 1 case 16 => p == 1
    case 17 => p == 3 case 18 => p == 3
    case 19 => OperandState(p) && p != 0
    case 20 => p == 4 case 21 => p == 5 case 22 => p == 5 || p == 19
    case 23 => p == 8 || p == 22 case 24 => p == 8 || p == 22
    case 25 => p == 9 case 26 => p == 10
    case 27 => p == 16 case 28 => p == 16 case 29 => p == 16
    case 30 => p == 18 case 31 => p == 21 case 32 => p == 22
    case 33 => p == 23 case 34 => p == 24
    case _ => false
  }

  /** Each state follows the one below it, and each entry holds a value of its kind. */
  predicate Path(s: Stack)
  {
    s.Push? ==>
      && IsState(s.state) && s.state != 0 && Edge(Top(s.below), s.state)
      && KindOk(EnteredOn(s.state), s.value) && Path(s.below)
  }

  predicate Wf(tokens: seq<Token>, c: Config)
  {
    && Typed(tokens) && Path(c.stack) && c.pos <= |tokens| + 1
    && (c.pos == |tokens| + 1 ==> Top(c.stack) == 25)
  }

  // ----------------------------------------------------------------- reductions

  predicate Deep(s: Stack, n: int)
  {
    && (n >= 1 ==> s.Push?)
    && (n >= 2 ==> s.below.Push?)
    && (n >= 3 ==> s.below.below.Push?)
  }

  function Popped(s: Stack, n: int): Stack
    requires 1 <= n <= 3 && Deep(s, n)
  {
    if n == 1 then s.below else if n == 2 then s.below.below else s.below.below.below
  }

  /** The values of the top `n` entries, deepest first. */
  function Args(s: Stack, n: int): Phrase<Value>
    requires 1 <= n <= 3 && Deep(s, n)
  {
    if n == 1 then One(s.value)
    else if n == 2 then Two(s.below.value, s.value)
    else Three(s.below.below.value, s.below.value, s.value)
  }

  /** The symbols of the top `n` entries, deepest first. */
  function Symbols(s: Stack, n: int): Phrase<int>
    requires 1 <= n <= 3 && Deep(s, n)
  {
    if n == 1 then One(EnteredOn(s.state))
    else if n == 2 then Two(EnteredOn(s.below.state), EnteredOn(s.state))
    else Three(EnteredOn(s.below.below.state), EnteredOn(s.below.state), EnteredOn(s.state))
  }

  /** The right-hand side of `r` is on top of the stack, and its left-hand side can replace it. */
  predicate HandleOnTop(s: Stack, r: int)
  {
    && IsRule(r) && Deep(s, Len(r)) && Symbols(s, Len(r)) == Rhs(r)
    && var p := Top(Popped(s, Len(r))); Edge(p, Goto(p, Lhs(r)))
  }

  /** What lies under a state that reduces: `p`, `q`, `o` are the states below it. */
  lemma Below(s: int, p: int, q: int, o: int, t: int)
    requires IsState(s) && IsTerminal(t) && s != 25 && ActionOf(s, t).Reduce?
    requires Edge(p, s)
    requires p != 0 ==> Edge(q, p)
    requires p != 0 && q != 0 ==> Edge(o, q)
    ensures IsRule(ActionOf(s, t).rule)
    ensures var r := ActionOf(s, t).rule;
      match Rhs(r)
      case One(a) => a == EnteredOn(s) && Edge(p, Goto(p, Lhs(r)))
      case Two(a, b) => b == EnteredOn(s) && p != 0 && a == EnteredOn(p) && Edge(q, Goto(q, Lhs(r)))
      case Three(a, b, c) =>
        && c == EnteredOn(s) && p != 0 && b == EnteredOn(p) && q != 0 && a == EnteredOn(q)
        && Edge(o, Goto(o, Lhs(r)))
  {
  }

  /** Whenever the automaton reduces, the handle of the rule is on top of the stack. */
  lemma Handle(s: Stack, t: int)
    requires Path(s) && s.Push? && IsTerminal(t) && s.state != 25 && ActionOf(s.state, t).Reduce?
    ensures HandleOnTop(s, ActionOf(s.state, t).rule)
  {
    hide Edge, EnteredOn, ActionOf, Goto, KindOk;
    assert Path(s.below);
    var q := if s.below.Push? then s.below.below else Bottom;
    assert Path(q);
    var o := if q.Push? then q.below else Bottom;
    Below(s.state, Top(s.below), Top(q), Top(o), t);
  }

  /** The symbols of the handle carry the values the rule's action reads. */
  lemma HandleArgs(s: Stack, r: int)
    requires Path(s) && HandleOnTop(s, r)
    ensures ArgsOk(r, Args(s, Len(r)))
  {
    hide Edge, EnteredOn, Goto, KindOk;
    assert Path(s.below);
    assert s.below.Push? ==> Path(s.below.below);
  }

  function Reduced(c: Config, r: int): Config
    requires IsRule(r) && Deep(c.stack, Len(r)) && ArgsOk(r, Args(c.stack, Len(r)))
  {
    var args, below := Args(c.stack, Len(r)), Popped(c.stack, Len(r));
    Config(Push(below, Goto(Top(below), Lhs(r)), Act(r, args)), c.pos,
           if r >= 21 then Some(args.x.node) else c.query)
  }

  lemma GotoEntered(p: int, sym: int)
    requires 23 <= sym <= 27
    ensures IsState(Goto(p, sym)) && Goto(p, sym) != 0 && EnteredOn(Goto(p, sym)) == sym
  {
  }

  lemma ReducePath(c: Config, r: int)
    requires Path(c.stack) && HandleOnTop(c.stack, r) && ArgsOk(r, Args(c.stack, Len(r)))
    ensures Path(Reduced(c, r).stack)
  {
    hide Edge, EnteredOn, Goto, KindOk, Act;
    GotoEntered(Top(Popped(c.stack, Len(r))), Lhs(r));
    var s := c.stack;
    assert Path(s.below);
    assert s.below.Push? ==> Path(s.below.below);
  }

  // ---------------------------------------------------------------- termination

  function SymWeight(sym: int): nat
  {
    if sym == 27 then 1 else if sym == 26 || sym == 24 then 2
    else if sym == 23 || sym == 25 then 3 else 4
  }

  /** How much reducing can still be done with what is on the stack. */
  function Weight(s: Stack): nat
  {
    if s.Bottom? then 0 else Weight(s.below) + SymWeight(EnteredOn(s.state))
  }

  /** A right-hand side weighs more than the left-hand side that replaces it. */
  lemma RuleWeight(r: int)
    requires IsRule(r)
    ensures SymWeight(Lhs(r)) <
      match Rhs(r)
      case One(a) => SymWeight(a)
      case Two(a, b) => SymWeight(a) + SymWeight(b)
      case Three(a, b, c) => SymWeight(a) + SymWeight(b) + SymWeight(c)
  {
  }

  lemma ReduceWeight(c: Config, r: int)
    requires HandleOnTop(c.stack, r) && ArgsOk(r, Args(c.stack, Len(r)))
    ensures Weight(Reduced(c, r).stack) < Weight(c.stack)
  {
    hide Edge, EnteredOn, Goto, KindOk, Act, SymWeight;
    RuleWeight(r);
    GotoEntered(Top(Popped(c.stack, Len(r))), Lhs(r));
    var n := Len(r);
    var s, b := c.stack, Popped(c.stack, n);
    if n == 2 {
      assert Weight(s) == Weight(s.below) + SymWeight(EnteredOn(s.state));
    } else if n == 3 {
      assert Weight(s) == Weight(s.below) + SymWeight(EnteredOn(s.state));
      assert Weight(s.below) == Weight(s.below.below) + SymWeight(EnteredOn(s.below.state));
    }
  }

  // ------------------------------------------------------------------------ runs

  function Shifted(tokens: seq<Token>, c: Config, s: int): Config
  {
    Config(Push(c.stack, s, TokenAt(tokens, c.pos).value), c.pos + 1, c.query)
  }

  /** A shift goes along an edge of the automaton; end of input is only shifted into 25. */
  lemma ShiftEdge(s: int, t: int)
    requires IsState(s) && IsTerminal(t) && ActionOf(s, t).Shift?
    ensures var n := ActionOf(s, t).state;
      IsState(n) && n != 0 && Edge(s, n) && EnteredOn(n) == t && (t == 0 ==> n == 25)
  {
  }

  lemma ShiftStep(tokens: seq<Token>, c: Config)
    requires Wf(tokens, c) && Top(c.stack) != 25
    requires ActionOf(Top(c.stack), Sym(TokenAt(tokens, c.pos))).Shift?
    ensures Wf(tokens, Shifted(tokens, c, ActionOf(Top(c.stack), Sym(TokenAt(tokens, c.pos))).state))
  {
    hide Edge, EnteredOn, ActionOf;
    ShiftEdge(Top(c.stack), Sym(TokenAt(tokens, c.pos)));
  }

  lemma ReduceStep(tokens: seq<Token>, c: Config)
    requires Wf(tokens, c) && Top(c.stack) != 25
    requires ActionOf(Top(c.stack), Sym(TokenAt(tokens, c.pos))).Reduce?
    ensures var r := ActionOf(Top(c.stack), Sym(TokenAt(tokens, c.pos))).rule;
      && HandleOnTop(c.stack, r) && ArgsOk(r, Args(c.stack, Len(r)))
      && Wf(tokens, Reduced(c, r)) && Weight(Reduced(c, r).stack) < Weight(c.stack)
  {
    var t := Sym(TokenAt(tokens, c.pos));
    NotInitially(t);
    hide Edge, EnteredOn, ActionOf, Goto, KindOk, Act;
    var r := ActionOf(Top(c.stack), t).rule;
    Handle(c.stack, t);
    HandleArgs(c.stack, r);
    ReducePath(c, r);
    ReduceWeight(c, r);
  }

  lemma NotInitially(t: int)
    requires IsTerminal(t)
    ensures !ActionOf(0, t).Reduce?
  {
  }

  /**
    The run of the machine to its end.  It stops for every input: each step either
    reads a token or makes the stack lighter.
   */
  function Run(tokens: seq<Token>, c: Config): Outcome
    requires Wf(tokens, c)
    decreases |tokens| + 1 - c.pos, Weight(c.stack)
  {
    if Top(c.stack) == 25 then Outcome(true, c.query)
    else
      match ActionOf(Top(c.stack), Sym(TokenAt(tokens, c.pos)))
      case Error => Outcome(false, c.query)
      case Shift(s) =>
        ShiftStep(tokens, c);
        Run(tokens, Shifted(tokens, c, s))
      case Reduce(r) =>
        ReduceStep(tokens, c);
        Run(tokens, Reduced(c, r))
  }

  // ---------------------------------------------------------------- derivations

  /** One derivation for each entry of a stack, the last for the top. */
  datatype Forest = Nil | Snoc(front: Forest, last: Tree)

  predicate DeepForest(f: Forest, n: int)
  {
    && (n >= 1 ==> f.Snoc?)
    && (n >= 2 ==> f.front.Snoc?)
    && (n >= 3 ==> f.front.front.Snoc?)
  }

  /** The derivations of the top `n` entries, deepest first. */
  function Parts(f: Forest, n: int): Phrase<Tree>
    requires 1 <= n <= 3 && DeepForest(f, n)
  {
    if n == 1 then One(f.last)
    else if n == 2 then Two(f.front.last, f.last)
    else Three(f.front.front.last, f.front.last, f.last)
  }

  function Rest(f: Forest, n: int): Forest
    requires 1 <= n <= 3 && DeepForest(f, n)
  {
    if n == 1 then f.front else if n == 2 then f.front.front else f.front.front.front
  }

  /** The derivations that a run builds: a leaf for each token shifted, and a node over the parts
      of each reduction. */
  function Found(tokens: seq<Token>, c: Config, f: Forest): Forest
    requires Wf(tokens, c)
    decreases |tokens| + 1 - c.pos, Weight(c.stack)
  {
    if Top(c.stack) == 25 then f
    else
      match ActionOf(Top(c.stack), Sym(TokenAt(tokens, c.pos)))
      case Error => f
      case Shift(s) =>
        ShiftStep(tokens, c);
        Found(tokens, Shifted(tokens, c, s), Snoc(f, Leaf(TokenAt(tokens, c.pos))))
      case Reduce(r) =>
        ReduceStep(tokens, c);
        if DeepForest(f, Len(r)) then Found(tokens, Reduced(c, r), Snoc(Rest(f, Len(r)), Node(r, Parts(f, Len(r)))))
        else f
  }
}
