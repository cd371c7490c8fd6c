/**
  The parser: the table-driven driver loop, and the theorem that it accepts exactly
  the token sequences the grammar derives, returning the meaning of the one
  left-associative derivation.
 */
module QueryParser {
  import opened Options
  import opened QueryGrammar
  import opened QueryTables
  import opened QueryAutomaton
  import opened QueryMachine
  import opened QuerySoundness
  import opened QueryCompleteness

  /** With `all` or `expr` alone on the stack at the end of input, the machine accepts. */
  lemma AcceptAtEnd(tokens: seq<Token>, c: Config, x: Tree)
    requires Wf(tokens, c) && c.stack.Push? && c.stack.below == Bottom
    requires c.stack.state == 6 || c.stack.state == 8
    requires Sym(TokenAt(tokens, c.pos)) == 0
    ensures c.stack.value.NodeVal? && Run(tokens, c) == Outcome(true, Some(c.stack.value.node))
    ensures Found(tokens, c, Snoc(Nil, x))
         == Snoc(Snoc(Nil, Node(if c.stack.state == 6 then 21 else 22, One(x))), Leaf(TokenAt(tokens, c.pos)))
  {
    hide Edge, Act;
    var v, r := c.stack.value, if c.stack.state == 6 then 21 else 22;
    RunReduce(tokens, c, Snoc(Nil, x), r);
    var d := Config(Push(Bottom, 9, v), c.pos, Some(v.node));
    var g := Snoc(Nil, Node(r, One(x)));
    assert Leads(tokens, c, Snoc(Nil, x), d, g) by {
      StartAct(v);
    }
    ShiftStep(tokens, d);
    var e := Shifted(tokens, d, 25);
    assert Run(tokens, d) == Run(tokens, e);
    assert Found(tokens, d, g) == Found(tokens, e, Snoc(g, Leaf(TokenAt(tokens, c.pos))));
  }

  /** The actions of `start` hand on the value of their only part. */
  lemma StartAct(v: Value)
    requires v.NodeVal?
    ensures Act(21, One(v)) == v && Act(22, One(v)) == v
  {
  }

  /** Completeness: a left-associative derivation is found, and its meaning returned. */
  lemma Complete(tokens: seq<Token>, k: nat, t: Tree)
    requires Typed(tokens) && Parses(tokens, k, t) && Standard(t)
    ensures Wf(tokens, START) && Run(tokens, START) == Outcome(true, Some(Meaning(t).node))
    ensures Found(tokens, START, Nil) == Snoc(Snoc(Nil, t), Leaf(TokenAt(tokens, k)))
  {
    hide Run, Found;
    var x := t.parts.x;
    assert tokens[..k] == tokens[0..0 + k];
    if t.rule == 21 {
      ReadAll(tokens, START, Nil, x);
    } else {
      ReadExpr(tokens, START, Nil, x);
    }
    AcceptAtEnd(tokens, After(START, x), x);
  }

  /** The language of the grammar: some derivation reads the input up to its end. */
  ghost predicate InLanguage(tokens: seq<Token>)
  {
    exists k: nat, t: Tree :: Parses(tokens, k, t)
  }

  /**
    The machine accepts exactly the language, and what it returns is the meaning of
    the left-associative derivation, whichever one is given.
   */
  lemma ParserCorrect(tokens: seq<Token>)
    requires Typed(tokens)
    ensures Wf(tokens, START)
    ensures Run(tokens, START).accepted <==> InLanguage(tokens)
    ensures InLanguage(tokens) ==> exists k: nat, t: Tree :: Parses(tokens, k, t) && Standard(t)
    ensures forall k: nat, t: Tree :: Parses(tokens, k, t) && Standard(t) ==>
              Run(tokens, START).query == Some(Meaning(t).node)
  {
    hide Run;
    if Run(tokens, START).accepted {
      var k, t := Sound(tokens, START, Nil);
    }
    if InLanguage(tokens) {
      var k: nat, t: Tree :| Parses(tokens, k, t);
      var u := LeftAssociate(t);
      Complete(tokens, k, u);
    }
    forall k: nat, t: Tree | Parses(tokens, k, t) && Standard(t)
      ensures Run(tokens, START).query == Some(Meaning(t).node)
    {
      Complete(tokens, k, t);
    }
  }

  /** There is only one left-associative derivation. */
  lemma OneDerivation(tokens: seq<Token>, k: nat, t: Tree, j: nat, u: Tree)
    requires Typed(tokens) && Parses(tokens, k, t) && Standard(t) && Parses(tokens, j, u) && Standard(u)
    ensures k == j && t == u
  {
    hide Run, Found;
    Complete(tokens, k, t);
    Complete(tokens, j, u);
    assert |tokens[..k]| == |Yield(t)| == |Yield(u)| == |tokens[..j]|;
  }

  // ------------------------------------------------------------- the driver loop

  /** No state can shift the error token. */
  lemma NoErrorShift(s: int)
    requires IsState(s)
    ensures !ActionOf(s, YYTERROR).Shift?
  {
  }

  /**
    Error recovery: pop until some state can shift the error token.  The grammar has
    no error production, so the whole stack is popped and the parse is abandoned.
   */
  method Recover(stack: Stack) returns (aborted: bool)
    requires Path(stack)
    ensures aborted
  {
    hide YyTable, YyCheck, YyPact, ActionOf;
    var yystack := stack;
    while true
      invariant Path(yystack)
      decreases yystack
    {
      var s := Top(yystack);
      NoErrorShift(s);
      DecodeAction(s, YYTERROR);
      var yyn := YyPact(s);
      if yyn != YYPACT_NINF {
        yyn := yyn + YYTERROR;
        if 0 <= yyn <= YYLAST && YyCheck(yyn) == YYTERROR {
          yyn := YyTable(yyn);
          if 0 < yyn {
            return false;
          }
        }
      }
      if yystack.Bottom? {
        return true;
      }
      yystack := yystack.below;
    }
  }

  /** The decision taken in a state, reading a lookahead only if the state needs one. */
  method Backup(tokens: seq<Token>, pos: nat, state: int, empty: bool, la: Token)
    returns (action: Action, yyempty: bool, yyla: Token)
    requires IsState(state) && (!empty ==> la == TokenAt(tokens, pos))
    ensures action == ActionOf(state, Sym(TokenAt(tokens, pos)))
    ensures !yyempty ==> yyla == TokenAt(tokens, pos)
    ensures action.Shift? ==> !yyempty
  {
    hide YyTable, YyCheck, YyPact, YyDefact, ActionOf;
    DecodeAction(state, Sym(TokenAt(tokens, pos)));
    yyempty, yyla := empty, la;
    var yyn := YyPact(state);
    if yyn != YYPACT_NINF {
      if yyempty {
        yyla, yyempty := TokenAt(tokens, pos), false;
      }
      yyn := yyn + Sym(yyla);
      if !(yyn < 0 || YYLAST < yyn || YyCheck(yyn) != Sym(yyla)) {
        yyn := YyTable(yyn);
        if yyn <= 0 {
          action := if yyn == YYTABLE_NINF then Error else Reduce(-yyn);
        } else {
          action := Shift(yyn);
        }
        return;
      }
    }
    yyn := YyDefact(state);
    action := if yyn == 0 then Error else Reduce(yyn);
  }

  /** One reduction: run the action, pop the right-hand side, push the left-hand side. */
  method ReduceBy(stack: Stack, query: Option<Query>, ghost pos: nat, yyn: int)
    returns (query': Option<Query>, yystack: Stack)
    requires Path(stack) && HandleOnTop(stack, yyn) && ArgsOk(yyn, Args(stack, Len(yyn)))
    ensures Config(yystack, pos, query') == Reduced(Config(stack, pos, query), yyn)
  {
    hide YyR1, YyR2, TableGoto, Goto, Edge, EnteredOn, Act;
    DecodeRule(yyn);
    var yylen := YyR2(yyn);
    var below := Popped(stack, yylen);
    PoppedPath(stack, yylen);
    DecodeGoto(Top(below), YyR1(yyn));
    var state := TableGoto(Top(below), YyR1(yyn));
    var args := Args(stack, yylen);
    query' := if yyn == 21 || yyn == 22 then Some(args.x.node) else query;
    yystack := Push(below, state, Act(yyn, args));
  }

  lemma PoppedPath(s: Stack, n: int)
    requires Path(s) && 1 <= n <= 3 && Deep(s, n)
    ensures Path(Popped(s, n))
  {
    assert Path(s.below) && (n >= 2 ==> Path(s.below.below));
  }

  /**
    The driver loop.  It halts on every token sequence, never pops past the bottom of
    its stack, never reads the wrong member of a semantic value, and computes the run
    of the automaton.
   */
  method Parse(tokens: seq<Token>) returns (yyresult: int, query: Option<Query>)
    requires Typed(tokens)
    ensures yyresult == 0 || yyresult == 1
    ensures Wf(tokens, START) && Run(tokens, START) == Outcome(yyresult == 0, query)
  {
    hide ActionOf, Edge, EnteredOn, Goto, Act, KindOk;
    var yyempty, yyla := true, END;
    var yystack := Bottom;
    var pos: nat := 0;
    query := None;
    while Top(yystack) != YYFINAL
      invariant Wf(tokens, Config(yystack, pos, query))
      invariant Run(tokens, Config(yystack, pos, query)) == Run(tokens, START)
      invariant !yyempty ==> yyla == TokenAt(tokens, pos)
      decreases |tokens| + 1 - pos, Weight(yystack)
    {
      ghost var c := Config(yystack, pos, query);
      var action;
      action, yyempty, yyla := Backup(tokens, pos, Top(yystack), yyempty, yyla);
      match action
      case Error =>
        var aborted := Recover(yystack);
        if aborted {
          return 1, query;
        }
        assert false;
      case Shift(state) =>
        ShiftStep(tokens, c);
        yyempty := true;
        yystack := Push(yystack, state, yyla.value);
        pos := pos + 1;
      case Reduce(rule) =>
        ReduceStep(tokens, c);
        query, yystack := ReduceBy(yystack, query, pos, rule);
    }
    yyresult := 0;
  }

  /**
    What a caller of the driver gets: success exactly on the sentences of the grammar,
    and then the meaning of their left-associative derivation.
   */
  method ParseQuery(tokens: seq<Token>) returns (ok: bool, query: Option<Query>)
    requires Typed(tokens)
    ensures ok <==> InLanguage(tokens)
    ensures ok ==> exists k: nat, t: Tree :: Parses(tokens, k, t) && Standard(t)
    ensures forall k: nat, t: Tree :: Parses(tokens, k, t) && Standard(t) ==>
              query == Some(Meaning(t).node)
  {
    hide Run, Parses, Meaning, Standard;
    var yyresult;
    yyresult, query := Parse(tokens);
    ok := yyresult == 0;
    ParserCorrect(tokens);
  }
}
