/**
 The query grammar (querylang/query.y:57-390): its 52 productions, derivation trees, the token
 strings they derive, and the FIRST and FOLLOW sets of its symbols.
 */
module Grammar {
  import opened ParseTables

  // Terminals, by the number the parser gives them.
  const T_END := 1
  const T_SELECT := 4
  const T_DISTINCT := 5
  const T_DELETE := 6
  const T_APPLY := 7
  const T_STATISTICAL := 8
  const T_WINDOW := 9
  const T_STATISTICS := 10
  const T_CHANGED := 11
  const T_WHERE := 12
  const T_DATA := 13
  const T_BEFORE := 14
  const T_AFTER := 15
  const T_LIMIT := 16
  const T_STREAMLIMIT := 17
  const T_NOW := 18
  const T_LVALUE := 19
  const T_QSTRING := 20
  const T_EQ := 21
  const T_NEQ := 22
  const T_COMMA := 23
  const T_ALL := 24
  const T_LEFTPIPE := 25
  const T_LIKE := 26
  const T_AS := 27
  const T_MATCHES := 28
  const T_AND := 29
  const T_OR := 30
  const T_HAS := 31
  const T_NOT := 32
  const T_IN := 33
  const T_TO := 34
  const T_LPAREN := 35
  const T_RPAREN := 36
  const T_LBRACK := 37
  const T_RBRACK := 38
  const T_NUMBER := 39
  const T_SEMICOLON := 40
  const T_NEWLINE := 41
  const T_TIMEUNIT := 42

  // Nonterminals: sqR1 numbers them 1 to 16 and sqChk stores them negated.
  const N_WHERELIST := -1
  const N_WHERETERM := -2
  const N_WHERECLAUSE := -3
  const N_SELECTOR := -4
  const N_TAGLIST := -5
  const N_VALUELIST := -6
  const N_VALUELISTBRACK := -7
  const N_DATACLAUSE := -8
  const N_TIMEREF := -9
  const N_ABSTIME := -10
  const N_RELTIME := -11
  const N_LIMIT := -12
  const N_TIMECONV := -13
  const N_QSTRING := -14
  const N_LVALUE := -15
  const N_QUERY := -16

  const PRODUCTIONS := 52

  // The right-hand side of each production, in the order of the grammar file.
  // Production 0 is the start rule that goyacc adds; its end marker is never stacked.
  function Rhs(p: int): seq<int> {
    match p
    case 0 => [N_QUERY]
    case 1 => [T_SELECT, N_SELECTOR, N_WHERECLAUSE, T_SEMICOLON]
    case 2 => [T_SELECT, N_SELECTOR, T_SEMICOLON]
    case 3 => [T_SELECT, N_DATACLAUSE, N_WHERECLAUSE, T_SEMICOLON]
    case 4 => [T_DELETE, N_DATACLAUSE, N_WHERECLAUSE, T_SEMICOLON]
    case 5 => [T_DELETE, N_WHERECLAUSE, T_SEMICOLON]
    case 6 => [N_LVALUE]
    case 7 => [N_LVALUE, T_COMMA, N_TAGLIST]
    case 8 => [T_LBRACK, N_VALUELIST, T_RBRACK]
    case 9 => [N_QSTRING]
    case 10 => [N_QSTRING, T_COMMA, N_VALUELIST]
    case 11 => [N_TAGLIST]
    case 12 => [T_ALL]
    case 13 => [T_DISTINCT, N_LVALUE]
    case 14 => [T_DISTINCT]
    case 15 => [T_DATA, T_IN, T_LPAREN, N_TIMEREF, T_COMMA, N_TIMEREF, T_RPAREN, N_LIMIT, N_TIMECONV]
    case 16 => [T_DATA, T_IN, N_TIMEREF, T_COMMA, N_TIMEREF, N_LIMIT, N_TIMECONV]
    case 17 => [T_STATISTICAL, T_LPAREN, T_NUMBER, T_RPAREN, T_DATA, T_IN, T_LPAREN, N_TIMEREF, T_COMMA,
               N_TIMEREF, T_RPAREN, N_LIMIT, N_TIMECONV]
    case 18 => [T_STATISTICS, T_LPAREN, T_NUMBER, T_RPAREN, T_DATA, T_IN, T_LPAREN, N_TIMEREF, T_COMMA,
               N_TIMEREF, T_RPAREN, N_LIMIT, N_TIMECONV]
    case 19 => [T_WINDOW, T_LPAREN, T_NUMBER, N_LVALUE, T_RPAREN, T_DATA, T_IN, T_LPAREN, N_TIMEREF, T_COMMA,
               N_TIMEREF, T_RPAREN, N_LIMIT, N_TIMECONV]
    case 20 => [T_CHANGED, T_LPAREN, T_NUMBER, T_COMMA, T_NUMBER, T_COMMA, T_NUMBER, T_RPAREN, T_DATA]
    case 21 => [T_DATA, T_BEFORE, N_TIMEREF, N_LIMIT, N_TIMECONV]
    case 22 => [T_DATA, T_AFTER, N_TIMEREF, N_LIMIT, N_TIMECONV]
    case 23 => [N_ABSTIME]
    case 24 => [N_ABSTIME, N_RELTIME]
    case 25 => [T_NUMBER, T_LVALUE]
    case 26 => [T_NUMBER]
    case 27 => [N_QSTRING]
    case 28 => [T_NOW]
    case 29 => [T_NUMBER, N_LVALUE]
    case 30 => [T_NUMBER, N_LVALUE, N_RELTIME]
    case 31 => []
    case 32 => [T_LIMIT, T_NUMBER]
    case 33 => [T_STREAMLIMIT, T_NUMBER]
    case 34 => [T_LIMIT, T_NUMBER, T_STREAMLIMIT, T_NUMBER]
    case 35 => []
    case 36 => [T_AS, T_LVALUE]
    case 37 => [T_WHERE, N_WHERELIST]
    case 38 => [N_LVALUE, T_LIKE, N_QSTRING]
    case 39 => [N_LVALUE, T_EQ, N_QSTRING]
    case 40 => [N_LVALUE, T_EQ, T_NUMBER]
    case 41 => [N_LVALUE, T_NEQ, N_QSTRING]
    case 42 => [T_HAS, N_LVALUE]
    case 43 => [T_MATCHES, N_QSTRING]
    case 44 => [N_VALUELISTBRACK, T_IN, N_LVALUE]
    case 45 => [N_VALUELISTBRACK, T_NOT, T_IN, N_LVALUE]
    case 46 => [T_LPAREN, N_WHERETERM, T_RPAREN]
    case 47 => [T_QSTRING]
    case 48 => [T_LVALUE]
    case 49 => [N_WHERELIST, T_AND, N_WHERETERM]
    case 50 => [N_WHERELIST, T_OR, N_WHERETERM]
    case 51 => [T_NOT, N_WHERETERM]
    case 52 => [N_WHERETERM]
    case _ => []
  }

  // The left-hand side of each production.
  function Lhs(p: int): int {
    if p < 15 then
      if p < 1 then 0 else if p < 6 then N_QUERY else if p < 8 then N_TAGLIST
      else if p < 9 then N_VALUELISTBRACK else if p < 11 then N_VALUELIST else N_SELECTOR
    else if p < 31 then
      if p < 23 then N_DATACLAUSE else if p < 25 then N_TIMEREF else if p < 29 then N_ABSTIME else N_RELTIME
    else if p < 38 then
      if p < 35 then N_LIMIT else if p < 37 then N_TIMECONV else N_WHERECLAUSE
    else if p < 47 then N_WHERETERM else if p < 48 then N_QSTRING else if p < 49 then N_LVALUE else N_WHERELIST
  }

  predicate Nullable(x: int) {
    x == N_LIMIT || x == N_TIMECONV
  }

  // Terminals that can begin a symbol.
  function First(x: int): set<int> {
    match x
    case -1 => {T_LVALUE, T_MATCHES, T_HAS, T_NOT, T_LPAREN, T_LBRACK}
    case -2 => {T_LVALUE, T_MATCHES, T_HAS, T_LPAREN, T_LBRACK}
    case -3 => {T_WHERE}
    case -4 => {T_DISTINCT, T_LVALUE, T_ALL}
    case -5 | -15 => {T_LVALUE}
    case -6 | -14 => {T_QSTRING}
    case -7 => {T_LBRACK}
    case -8 => {T_STATISTICAL, T_WINDOW, T_STATISTICS, T_CHANGED, T_DATA}
    case -9 | -10 => {T_NOW, T_QSTRING, T_NUMBER}
    case -11 => {T_NUMBER}
    case -12 => {T_LIMIT, T_STREAMLIMIT}
    case -13 => {T_AS}
    case -16 => {T_SELECT, T_DELETE}
    case _ => {x}
  }

  // Terminals that can come right after a nonterminal.
  function Follow(x: int): seq<int> {
    match x
    case -1 => [T_AND, T_OR, T_SEMICOLON]
    case -2 => [T_AND, T_OR, T_RPAREN, T_SEMICOLON]
    case -3 => [T_SEMICOLON]
    case -4 | -5 => [T_WHERE, T_SEMICOLON]
    case -6 => [T_RBRACK]
    case -7 => [T_NOT, T_IN]
    case -8 | -13 => [T_WHERE]
    case -9 | -11 => [T_WHERE, T_LIMIT, T_STREAMLIMIT, T_COMMA, T_AS, T_RPAREN]
    case -10 => [T_WHERE, T_LIMIT, T_STREAMLIMIT, T_COMMA, T_AS, T_RPAREN, T_NUMBER]
    case -12 => [T_WHERE, T_AS]
    case -14 => [T_WHERE, T_LIMIT, T_STREAMLIMIT, T_COMMA, T_AS, T_AND, T_OR, T_RPAREN, T_RBRACK, T_NUMBER,
               T_SEMICOLON]
    case -15 => [T_WHERE, T_LIMIT, T_STREAMLIMIT, T_EQ, T_NEQ, T_COMMA, T_LIKE, T_AS, T_AND, T_OR, T_RPAREN,
               T_NUMBER, T_SEMICOLON]
    case -16 => [T_END]
    case _ => []
  }

  // What the lexer hands over at one call: a token code and the text it matched.
  datatype Lexeme = Lexeme(code: int, text: string)

  // The lexer returns a non-positive code only for the end of the query.
  predicate Lexed(input: seq<Lexeme>) {
    forall i :: 0 <= i < |input| ==> input[i].code > 0
  }

  function LookAhead(input: seq<Lexeme>): int {
    if input == [] then T_END else Translate(input[0].code)
  }

  datatype Tree = Leaf(lex: Lexeme) | Node(prod: int, kids: seq<Tree>)

  function Root(t: Tree): int {
    match t
    case Leaf(l) => Translate(l.code)
    case Node(p, _) => Lhs(p)
  }

  predicate Valid(t: Tree)
    decreases t, 1
  {
    match t
    case Leaf(l) => l.code > 0
    case Node(p, kids) => 1 <= p <= PRODUCTIONS && |kids| == |Rhs(p)| && ValidKids(kids, p, 0)
  }

  // The trees in kids are valid and match the right-hand side of p from position d on.
  predicate ValidKids(kids: seq<Tree>, p: int, d: nat)
    decreases kids, 0
  {
    d + |kids| == |Rhs(p)| &&
    (kids != [] ==> Root(kids[0]) == Rhs(p)[d] && Valid(kids[0]) && ValidKids(kids[1..], p, d + 1))
  }

  function Yield(t: Tree): seq<Lexeme>
    decreases t, 1
  {
    match t
    case Leaf(l) => [l]
    case Node(_, kids) => Yields(kids)
  }

  function Yields(ts: seq<Tree>): seq<Lexeme>
    decreases ts, 0
  {
    if ts == [] then [] else Yield(ts[0]) + Yields(ts[1..])
  }

  // The language: token strings that are the yield of some derivation tree of a query.
  ghost predicate Derives(t: Tree, input: seq<Lexeme>) {
    Valid(t) && Root(t) == N_QUERY && Yield(t) == input
  }

  lemma {:induction false} YieldsAppend(a: seq<Tree>, b: seq<Tree>)
    ensures Yields(a + b) == Yields(a) + Yields(b)
  {
    if a == [] {
      assert a + b == b;
    } else {
      YieldsAppend(a[1..], b);
      var ab := a + b;
      assert ab[0] == a[0] && ab[1..] == a[1..] + b;
      Joined(Yield(a[0]), Yields(a[1..]), Yields(b));
    }
  }

  lemma Joined(a: seq<Lexeme>, b: seq<Lexeme>, c: seq<Lexeme>)
    ensures a + (b + c) == a + b + c
  {
  }

  // Every lexeme of a valid tree carries a token code, not the end marker.
  lemma {:induction false} YieldLexed(t: Tree)
    requires Valid(t)
    ensures Lexed(Yield(t))
    decreases t, 1
  {
    match t
    case Leaf(_) =>
    case Node(p, kids) => YieldsLexed(kids, p, 0);
  }

  lemma {:induction false} YieldsLexed(kids: seq<Tree>, p: int, d: nat)
    requires ValidKids(kids, p, d)
    ensures Lexed(Yields(kids))
    decreases kids, 0
  {
    if kids != [] {
      YieldLexed(kids[0]);
      YieldsLexed(kids[1..], p, d + 1);
    }
  }
}
