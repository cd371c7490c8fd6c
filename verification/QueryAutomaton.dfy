/**
  The automaton the compressed tables encode, written out state by state, and the
  run of its pushdown machine.  `DecodeAction`, `DecodeGoto` and `DecodeRule` show
  that decoding the tables gives exactly this automaton.
 */
module QueryAutomaton {
  import opened QueryGrammar
  import opened QueryTables

  datatype Action = Shift(state: int) | Reduce(rule: int) | Error

  predicate IsState(s: int) { 0 <= s < 35 }
  predicate IsTerminal(t: int) { 0 <= t < 22 }

  // ------------------------------------------------------------ decoding tables

  /** The default action of a state. */
  function TableDefault(s: int): Action
    requires IsState(s)
  {
    if YyDefact(s) == 0 then Error else Reduce(YyDefact(s))
  }

  /** The action of a state on a lookahead, looked up in the tables. */
  function TableAction(s: int, t: int): Action
    requires IsState(s) && IsTerminal(t)
  {
    if YyPact(s) == YYPACT_NINF then TableDefault(s)
    else
      var n := YyPact(s) + t;
      if n < 0 || YYLAST < n || YyCheck(n) != t then TableDefault(s)
      else if YyTable(n) <= 0 then
        if YyTable(n) == YYTABLE_NINF then Error else Reduce(-YyTable(n))
      else Shift(YyTable(n))
  }

  /** The state entered from `s` on a non-terminal, looked up in the tables. */
  function TableGoto(s: int, sym: int): int
    requires IsState(s) && 23 <= sym <= 27
  {
    var r := YyPgoto(sym - YYNTOKENS) + s;
    if 0 <= r <= YYLAST && YyCheck(r) == s then YyTable(r) else YyDefgoto(sym - YYNTOKENS)
  }

  // -------------------------------------------------------------- the automaton

  /** Shifts available wherever an operand must start. */
  function OperandShift(t: int): Action
  {
    if t == 13 then Shift(1) else if t == 15 then Shift(3)
    else if t == 19 then Shift(4) else if t == 20 then Shift(19) else Error
  }

  /** The rule reduced by the states that reduce whatever comes next. */
  function ReducingRule(s: int): int
  {
    match s
    case 2 => 3 case 6 => 21 case 7 => 20
    case 11 => 6 case 12 => 7 case 13 => 8 case 14 => 9 case 15 => 5
    case 17 => 11 case 20 => 19 case 25 => 1
    case 26 => 12 case 27 => 14 case 28 => 15 case 29 => 13 case 30 => 10
    case 31 => 2 case 32 => 16 case 33 => 18 case _ => 17
  }

  function ActionOf(s: int, t: int): Action
    requires IsState(s) && IsTerminal(t)
  {
    match s
    case 0 => if t == 14 then Shift(2) else if t == 20 then Shift(5) else OperandShift(t)
    case 1 => if 7 <= t <= 12 then Shift(t + 3) else Error
    case 3 => if t == 6 then Shift(17) else if t == 7 then Shift(18) else Error
    case 4 => OperandShift(t)
    case 5 => if t == 14 then Shift(21) else OperandShift(t)
    case 8 => if t == 17 then Shift(23) else if t == 18 then Shift(24) else Reduce(22)
    case 9 => if t == 0 then Shift(25) else Error
    case 10 => if t == 16 then Shift(26) else Reduce(4)
    case 16 => if 4 <= t <= 6 then Shift(t + 23) else Error
    case 18 => if t == 6 then Shift(30) else Error
    case 19 => OperandShift(t)
    case 21 => if t == 21 then Shift(31) else Error
    case 22 =>
      if t == 17 then Shift(23) else if t == 18 then Shift(24)
      else if t == 21 then Shift(32) else Error
    case 23 => OperandShift(t)
    case 24 => OperandShift(t)
    case _ => Reduce(ReducingRule(s))
  }

  function Goto(s: int, sym: int): int
  {
    if sym == 23 then 6 else if sym == 24 then 16 else if sym == 25 then 7 else if sym == 27 then 9
    else if s == 0 then 8 else if s == 4 then 20
    else if s == 23 then 33 else if s == 24 then 34 else 22
  }

  /** The symbol each state is entered on. */
  function EnteredOn(s: int): int
  {
    match s
    case 1 => 13 case 2 => 14 case 3 => 15 case 4 => 19 case 5 => 20
    case 6 => 23 case 7 => 25 case 8 => 26 case 9 => 27
    case 10 => 7 case 11 => 8 case 12 => 9 case 13 => 10 case 14 => 11 case 15 => 12
    case 16 => 24 case 17 => 6 case 18 => 7 case 19 => 20 case 20 => 26
    case 21 => 14 case 22 => 26 case 23 => 17 case 24 => 18 case 25 => 0
    case 26 => 16 case 27 => 4 case 28 => 5 case 29 => 6 case 30 => 6
    case 31 => 21 case 32 => 21 case 33 => 26 case 34 => 26 case _ => -1
  }

  lemma DecodeStart(t: int)
    requires IsTerminal(t)
    ensures TableAction(0, t) == ActionOf(0, t)
    ensures TableAction(5, t) == ActionOf(5, t)
  {
    assert YyPact(0) == -12 && YyPact(5) == -4;
  }

  lemma DecodeOperand(s: int, t: int)
    requires s in {4, 19, 23, 24} && IsTerminal(t)
    ensures TableAction(s, t) == ActionOf(s, t)
  {
    assert YyPact(s) == -1;
  }

  lemma DecodeField(t: int)
    requires IsTerminal(t)
    ensures TableAction(1, t) == ActionOf(1, t)
  {
    assert YyPact(1) == 18;
  }

  lemma DecodeTagged(t: int)
    requires IsTerminal(t)
    ensures TableAction(3, t) == ActionOf(3, t)
    ensures TableAction(18, t) == ActionOf(18, t)
  {
    assert YyPact(3) == 27 && YyPact(18) == 7;
  }

  lemma DecodeTop(t: int)
    requires IsTerminal(t)
    ensures TableAction(8, t) == ActionOf(8, t)
    ensures TableAction(9, t) == ActionOf(9, t)
    ensures TableAction(10, t) == ActionOf(10, t)
  {
    assert YyPact(8) == 19 && YyPact(9) == 5 && YyPact(10) == -10;
  }

  lemma DecodeInner(t: int)
    requires IsTerminal(t)
    ensures TableAction(16, t) == ActionOf(16, t)
    ensures TableAction(21, t) == ActionOf(21, t)
    ensures TableAction(22, t) == ActionOf(22, t)
  {
    assert YyPact(16) == 16 && YyPact(21) == 17 && YyPact(22) == 14;
  }

  lemma DecodeReducing(s: int, t: int)
    requires IsState(s) && IsTerminal(t)
    requires s !in {0, 1, 3, 4, 5, 8, 9, 10, 16, 18, 19, 21, 22, 23, 24}
    ensures YyPact(s) == YYPACT_NINF
    ensures TableAction(s, t) == ActionOf(s, t)
  {
  }

  /** The tables and the automaton agree on every state and every lookahead. */
  lemma DecodeAction(s: int, t: int)
    requires IsState(s) && IsTerminal(t)
    ensures TableAction(s, t) == ActionOf(s, t)
  {
    if s in {0, 5} {
      DecodeStart(t);
    } else if s in {4, 19, 23, 24} {
      DecodeOperand(s, t);
    } else if s == 1 {
      DecodeField(t);
    } else if s in {3, 18} {
      DecodeTagged(t);
    } else if s in {8, 9, 10} {
      DecodeTop(t);
    } else if s in {16, 21, 22} {
      DecodeInner(t);
    } else {
      DecodeReducing(s, t);
    }
  }

  lemma DecodeGoto(s: int, sym: int)
    requires IsState(s) && 23 <= sym <= 27
    ensures TableGoto(s, sym) == Goto(s, sym)
  {
    if sym == 26 {
      assert YyPgoto(4) == 0;
    } else {
      assert YyPgoto(sym - YYNTOKENS) == -13;
    }
  }

  lemma DecodeRule(r: int)
    requires IsRule(r)
    ensures YyR1(r) == Lhs(r) && YyR2(r) == Len(r)
  {
  }
}
