/** The compressed tables of the generated LALR(1) parser, indexed as in the parser. */
module QueryTables {
  const YYPACT_NINF := -13
  const YYTABLE_NINF := -1
  const YYLAST := 38
  const YYNTOKENS := 22
  const YYFINAL := 25
  const YYTERROR := 1

  function YyPact(i: int): int
    requires 0 <= i < 35
  {
    match i
    case 0 => -12 case 1 => 18 case 2 => -13 case 3 => 27 case 4 => -1
    case 5 => -4 case 6 => -13 case 7 => -13 case 8 => 19 case 9 => 5
    case 10 => -10 case 11 => -13 case 12 => -13 case 13 => -13 case 14 => -13
    case 15 => -13 case 16 => 16 case 17 => -13 case 18 => 7 case 19 => -1
    case 20 => -13 case 21 => 17 case 22 => 14 case 23 => -1 case 24 => -1
    case 25 => -13 case 26 => -13 case 27 => -13 case 28 => -13 case 29 => -13
    case 30 => -13 case 31 => -13 case 32 => -13 case 33 => -13 case _ => -13
  }

  function YyDefact(i: int): int
    requires 0 <= i < 35
  {
    match i
    case 0 => 0 case 1 => 0 case 2 => 3 case 3 => 0 case 4 => 0
    case 5 => 0 case 6 => 21 case 7 => 20 case 8 => 22 case 9 => 0
    case 10 => 4 case 11 => 6 case 12 => 7 case 13 => 8 case 14 => 9
    case 15 => 5 case 16 => 0 case 17 => 11 case 18 => 0 case 19 => 0
    case 20 => 19 case 21 => 0 case 22 => 0 case 23 => 0 case 24 => 0
    case 25 => 1 case 26 => 12 case 27 => 14 case 28 => 15 case 29 => 13
    case 30 => 10 case 31 => 2 case 32 => 16 case 33 => 18 case _ => 17
  }

  function YyPgoto(i: int): int
    requires 0 <= i < 6
  {
    match i
    case 0 => -13 case 1 => -13 case 2 => -13 case 3 => -13 case 4 => 0
    case _ => -13
  }

  function YyDefgoto(i: int): int
    requires 0 <= i < 6
  {
    match i
    case 0 => -1 case 1 => 6 case 2 => 16 case 3 => 7 case 4 => 22
    case _ => 9
  }

  function YyTable(i: int): int
    requires 0 <= i < 39
  {
    match i
    case 0 => 8 case 1 => 1 case 2 => 2 case 3 => 3 case 4 => 20
    case 5 => 25 case 6 => 26 case 7 => 4 case 8 => 5 case 9 => 1
    case 10 => 21 case 11 => 3 case 12 => 1 case 13 => 30 case 14 => 3
    case 15 => 4 case 16 => 19 case 17 => 0 case 18 => 4 case 19 => 19
    case 20 => 27 case 21 => 28 case 22 => 29 case 23 => 33 case 24 => 34
    case 25 => 10 case 26 => 11 case 27 => 12 case 28 => 13 case 29 => 14
    case 30 => 15 case 31 => 23 case 32 => 24 case 33 => 17 case 34 => 18
    case 35 => 32 case 36 => 23 case 37 => 24 case _ => 31
  }

  function YyCheck(i: int): int
    requires 0 <= i < 39
  {
    match i
    case 0 => 0 case 1 => 13 case 2 => 14 case 3 => 15 case 4 => 4
    case 5 => 0 case 6 => 16 case 7 => 19 case 8 => 20 case 9 => 13
    case 10 => 14 case 11 => 15 case 12 => 13 case 13 => 6 case 14 => 15
    case 15 => 19 case 16 => 20 case 17 => -1 case 18 => 19 case 19 => 20
    case 20 => 4 case 21 => 5 case 22 => 6 case 23 => 23 case 24 => 24
    case 25 => 7 case 26 => 8 case 27 => 9 case 28 => 10 case 29 => 11
    case 30 => 12 case 31 => 17 case 32 => 18 case 33 => 6 case 34 => 7
    case 35 => 21 case 36 => 17 case 37 => 18 case _ => 21
  }

  function YyR1(i: int): int
    requires 0 <= i < 23
  {
    match i
    case 0 => 0 case 1 => 22 case 2 => 23 case 3 => 23 case 4 => 24
    case 5 => 24 case 6 => 24 case 7 => 24 case 8 => 24 case 9 => 24
    case 10 => 25 case 11 => 25 case 12 => 25 case 13 => 25 case 14 => 25
    case 15 => 25 case 16 => 26 case 17 => 26 case 18 => 26 case 19 => 26
    case 20 => 26 case 21 => 27 case _ => 27
  }

  function YyR2(i: int): int
    requires 0 <= i < 23
  {
    match i
    case 0 => 0 case 1 => 2 case 2 => 3 case 3 => 1 case 4 => 1
    case 5 => 1 case 6 => 1 case 7 => 1 case 8 => 1 case 9 => 1
    case 10 => 3 case 11 => 2 case 12 => 3 case 13 => 3 case 14 => 3
    case 15 => 3 case 16 => 3 case 17 => 3 case 18 => 3 case 19 => 2
    case 20 => 1 case 21 => 1 case _ => 1
  }
}
