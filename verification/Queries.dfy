/**
 Queries without a data clause, as an abstract syntax: how they are written, the query record they
 ask for, and the proof that the parser reads every one of them back exactly.
 */
module Queries {
  import opened Wrappers
  import opened ParseTables
  import opened Grammar
  import opened Parsing
  import opened Filters
  import opened Actions

  datatype Selector = All | DistinctAll | DistinctKey(key: string) | Tags(first: string, others: seq<string>)

  datatype Ask =
    | Select(sel: Selector)
    | SelectWhere(sel: Selector, where: Where)
    | Delete(where: Where)

  // A token as the lexer delivers it.
  function Tok(t: int, text: string): Lexeme {
    Lexeme(PRIVATE + t - 2, text)
  }

  // ---- writing a query ----

  function PrintList(t: int, first: string, others: seq<string>): seq<Lexeme>
    decreases |others|
  {
    if others == [] then [Tok(t, first)]
    else [Tok(t, first), Tok(T_COMMA, ",")] + PrintList(t, others[0], others[1..])
  }

  function PrintValues(first: string, others: seq<string>): seq<Lexeme> {
    [Tok(T_LBRACK, "[")] + PrintList(T_QSTRING, first, others) + [Tok(T_RBRACK, "]")]
  }

  function PrintTerm(t: Term): seq<Lexeme> {
    match t
    case Like(k, v) => [Tok(T_LVALUE, k), Tok(T_LIKE, "like"), Tok(T_QSTRING, v)]
    case EqText(k, v) => [Tok(T_LVALUE, k), Tok(T_EQ, "="), Tok(T_QSTRING, v)]
    case EqNumber(k, n) => [Tok(T_LVALUE, k), Tok(T_EQ, "="), Tok(T_NUMBER, n)]
    case Neq(k, v) => [Tok(T_LVALUE, k), Tok(T_NEQ, "!="), Tok(T_QSTRING, v)]
    case Has(k) => [Tok(T_HAS, "has"), Tok(T_LVALUE, k)]
    case Matches(v) => [Tok(T_MATCHES, "matches"), Tok(T_QSTRING, v)]
    case In(f, o, k) => PrintValues(f, o) + [Tok(T_IN, "in"), Tok(T_LVALUE, k)]
    case NotIn(f, o, k) => PrintValues(f, o) + [Tok(T_NOT, "not"), Tok(T_IN, "in"), Tok(T_LVALUE, k)]
    case Paren(u) => [Tok(T_LPAREN, "(")] + PrintTerm(u) + [Tok(T_RPAREN, ")")]
  }

  function PrintWhere(w: Where): seq<Lexeme> {
    match w
    case One(t) => PrintTerm(t)
    case Not(t) => [Tok(T_NOT, "not")] + PrintTerm(t)
    case And(l, t) => PrintWhere(l) + [Tok(T_AND, "and")] + PrintTerm(t)
    case Or(l, t) => PrintWhere(l) + [Tok(T_OR, "or")] + PrintTerm(t)
  }

  function PrintSelector(sel: Selector): seq<Lexeme> {
    match sel
    case All => [Tok(T_ALL, "*")]
    case DistinctAll => [Tok(T_DISTINCT, "distinct")]
    case DistinctKey(k) => [Tok(T_DISTINCT, "distinct"), Tok(T_LVALUE, k)]
    case Tags(f, o) => PrintList(T_LVALUE, f, o)
  }

  function Print(a: Ask): seq<Lexeme> {
    match a
    case Select(sel) => [Tok(T_SELECT, "select")] + PrintSelector(sel) + [Tok(T_SEMICOLON, ";")]
    case SelectWhere(sel, w) =>
      [Tok(T_SELECT, "select")] + PrintSelector(sel)
      + [Tok(T_WHERE, "where")] + PrintWhere(w) + [Tok(T_SEMICOLON, ";")]
    case Delete(w) =>
      [Tok(T_DELETE, "delete")] + [Tok(T_WHERE, "where")] + PrintWhere(w) + [Tok(T_SEMICOLON, ";")]
  }

  // ---- what a query asks for ----

  function TermKeys(t: Term): set<string> {
    match t
    case Like(k, _) => {k}
    case EqText(k, _) => {k}
    case EqNumber(k, _) => {k}
    case Neq(k, _) => {k}
    case Has(k) => {k}
    case Matches(_) => {}
    case In(_, _, k) => {k}
    case NotIn(_, _, k) => {k}
    case Paren(u) => TermKeys(u)
  }

  function WhereKeys(w: Where): set<string> {
    match w
    case One(t) => TermKeys(t)
    case Not(t) => TermKeys(t)
    case And(l, t) => WhereKeys(l) + TermKeys(t)
    case Or(l, t) => WhereKeys(l) + TermKeys(t)
  }

  function SelectorTags(sel: Selector): seq<string> {
    match sel
    case All => []
    case DistinctAll => []
    case DistinctKey(k) => [k]
    case Tags(f, o) => [f] + o
  }

  function Meaning(a: Ask): Query {
    match a
    case Select(sel) =>
      var tags := SelectorTags(sel);
      Query(SELECT_TYPE, CleanAll(tags), sel.DistinctAll? || sel.DistinctKey?, Empty, set k | k in tags)
    case SelectWhere(sel, w) =>
      var tags := SelectorTags(sel);
      Query(SELECT_TYPE, CleanAll(tags), sel.DistinctAll? || sel.DistinctKey?, Compile(w),
            (set k | k in tags) + WhereKeys(w))
    case Delete(w) => Query(DELETE_TYPE, [], false, Compile(w), WhereKeys(w))
  }

  // ---- the derivation tree of a query ----

  function Word(t: int, text: string): Tree {
    Leaf(Tok(t, text))
  }

  function KeyTree(k: string): Tree {
    Node(48, [Word(T_LVALUE, k)])
  }

  function TextTree(v: string): Tree {
    Node(47, [Word(T_QSTRING, v)])
  }

  function ValuesTree(first: string, others: seq<string>): Tree
    decreases |others|
  {
    if others == [] then Node(9, [TextTree(first)])
    else Node(10, [TextTree(first), Word(T_COMMA, ","), ValuesTree(others[0], others[1..])])
  }

  function BrackTree(first: string, others: seq<string>): Tree {
    Node(8, [Word(T_LBRACK, "["), ValuesTree(first, others), Word(T_RBRACK, "]")])
  }

  function TagsTree(first: string, others: seq<string>): Tree
    decreases |others|
  {
    if others == [] then Node(6, [KeyTree(first)])
    else Node(7, [KeyTree(first), Word(T_COMMA, ","), TagsTree(others[0], others[1..])])
  }

  function TermTree(t: Term): Tree {
    match t
    case Like(k, v) => Node(38, [KeyTree(k), Word(T_LIKE, "like"), TextTree(v)])
    case EqText(k, v) => Node(39, [KeyTree(k), Word(T_EQ, "="), TextTree(v)])
    case EqNumber(k, n) => Node(40, [KeyTree(k), Word(T_EQ, "="), Word(T_NUMBER, n)])
    case Neq(k, v) => Node(41, [KeyTree(k), Word(T_NEQ, "!="), TextTree(v)])
    case Has(k) => Node(42, [Word(T_HAS, "has"), KeyTree(k)])
    case Matches(v) => Node(43, [Word(T_MATCHES, "matches"), TextTree(v)])
    case In(f, o, k) => Node(44, [BrackTree(f, o), Word(T_IN, "in"), KeyTree(k)])
    case NotIn(f, o, k) => Node(45, [BrackTree(f, o), Word(T_NOT, "not"), Word(T_IN, "in"), KeyTree(k)])
    case Paren(u) => Node(46, [Word(T_LPAREN, "("), TermTree(u), Word(T_RPAREN, ")")])
  }

  function WhereTree(w: Where): Tree {
    match w
    case One(t) => Node(52, [TermTree(t)])
    case Not(t) => Node(51, [Word(T_NOT, "not"), TermTree(t)])
    case And(l, t) => Node(49, [WhereTree(l), Word(T_AND, "and"), TermTree(t)])
    case Or(l, t) => Node(50, [WhereTree(l), Word(T_OR, "or"), TermTree(t)])
  }

  function ClauseTree(w: Where): Tree {
    Node(37, [Word(T_WHERE, "where"), WhereTree(w)])
  }

  function SelectorTree(sel: Selector): Tree {
    match sel
    case All => Node(12, [Word(T_ALL, "*")])
    case DistinctAll => Node(14, [Word(T_DISTINCT, "distinct")])
    case DistinctKey(k) => Node(13, [Word(T_DISTINCT, "distinct"), KeyTree(k)])
    case Tags(f, o) => Node(11, [TagsTree(f, o)])
  }

  function AskTree(a: Ask): Tree {
    match a
    case Select(sel) => Node(2, [Word(T_SELECT, "select"), SelectorTree(sel), Word(T_SEMICOLON, ";")])
    case SelectWhere(sel, w) =>
      Node(1, [Word(T_SELECT, "select"), SelectorTree(sel), ClauseTree(w), Word(T_SEMICOLON, ";")])
    case Delete(w) => Node(5, [Word(T_DELETE, "delete"), ClauseTree(w), Word(T_SEMICOLON, ";")])
  }

  // ---- nodes with few kids ----

  // Tree t derives the text from symbol x and takes query q to q'.
  ghost predicate Writes(t: Tree, x: int, text: seq<Lexeme>, q: Query, q': Query) {
    Valid(t) && Root(t) == x && Yield(t) == text && Effect(t, q) == q'
  }

  lemma MakeNode(p: int, kids: seq<Tree>)
    requires 1 <= p <= PRODUCTIONS && |kids| == |Rhs(p)|
    requires forall i :: 0 <= i < |kids| ==> Valid(kids[i]) && Root(kids[i]) == Rhs(p)[i]
    ensures Valid(Node(p, kids))
  {
    hide Root;
    KidsValid(kids, p, 0);
  }

  lemma YieldsCons(a: Tree, ts: seq<Tree>)
    ensures Yields([a] + ts) == Yield(a) + Yields(ts)
  {
    assert ([a] + ts)[1..] == ts;
  }

  lemma EffectsCons(a: Tree, ts: seq<Tree>, q: Query)
    ensures Effects([a] + ts, q) == Effects(ts, Effect(a, q))
  {
    assert ([a] + ts)[1..] == ts;
  }

  // The yield and the effect of one to four trees.
  lemma One1(a: Tree, q: Query)
    ensures Yields([a]) == Yield(a) && Effects([a], q) == Effect(a, q)
  {
    assert [a] == [a] + [];
    YieldsCons(a, []);
    EffectsCons(a, [], q);
  }

  lemma Two(a: Tree, b: Tree, q: Query)
    ensures Yields([a, b]) == Yield(a) + Yield(b) && Effects([a, b], q) == Effect(b, Effect(a, q))
  {
    var ts := [b];
    assert [a, b] == [a] + ts;
    YieldsCons(a, ts);
    EffectsCons(a, ts, q);
    One1(b, Effect(a, q));
  }

  lemma Three(a: Tree, b: Tree, c: Tree, q: Query)
    ensures Yields([a, b, c]) == Yield(a) + Yield(b) + Yield(c)
    ensures Effects([a, b, c], q) == Effect(c, Effect(b, Effect(a, q)))
  {
    hide NodeEffect;
    var ts := [b, c];
    assert [a, b, c] == [a] + ts;
    YieldsCons(a, ts);
    EffectsCons(a, ts, q);
    Two(b, c, Effect(a, q));
    Joined(Yield(a), Yield(b), Yield(c));
  }

  lemma Four(a: Tree, b: Tree, c: Tree, d: Tree, q: Query)
    ensures Yields([a, b, c, d]) == Yield(a) + Yield(b) + Yield(c) + Yield(d)
    ensures Effects([a, b, c, d], q) == Effect(d, Effect(c, Effect(b, Effect(a, q))))
  {
    hide NodeEffect;
    var ts := [b, c, d];
    assert [a, b, c, d] == [a] + ts;
    YieldsCons(a, ts);
    EffectsCons(a, ts, q);
    Three(b, c, d, Effect(a, q));
    Joined(Yield(a), Yield(b) + Yield(c), Yield(d));
    Joined(Yield(a), Yield(b), Yield(c));
  }

  lemma Node1(p: int, a: Tree, x: int, ta: seq<Lexeme>, q: Query, qa: Query)
    requires 1 <= p <= PRODUCTIONS && Rhs(p) == [x] && Writes(a, x, ta, q, qa)
    ensures Writes(Node(p, [a]), Lhs(p), ta, q, NodeEffect(p, [a], qa))
  {
    hide NodeEffect, Lhs;
    MakeNode(p, [a]);
    One1(a, q);
  }

  lemma Node2(p: int, a: Tree, b: Tree, xs: seq<int>, ta: seq<Lexeme>, tb: seq<Lexeme>, q: Query, qa: Query,
    qb: Query)
    requires 1 <= p <= PRODUCTIONS && Rhs(p) == xs && |xs| == 2
    requires Writes(a, xs[0], ta, q, qa) && Writes(b, xs[1], tb, qa, qb)
    ensures Writes(Node(p, [a, b]), Lhs(p), ta + tb, q, NodeEffect(p, [a, b], qb))
  {
    hide NodeEffect, Lhs;
    MakeNode(p, [a, b]);
    Two(a, b, q);
  }

  lemma Node3(p: int, a: Tree, b: Tree, c: Tree, xs: seq<int>, ta: seq<Lexeme>, tb: seq<Lexeme>, tc: seq<Lexeme>,
              q: Query, qa: Query, qb: Query, qc: Query)
    requires 1 <= p <= PRODUCTIONS && Rhs(p) == xs && |xs| == 3
    requires Writes(a, xs[0], ta, q, qa) && Writes(b, xs[1], tb, qa, qb) && Writes(c, xs[2], tc, qb, qc)
    ensures Writes(Node(p, [a, b, c]), Lhs(p), ta + tb + tc, q, NodeEffect(p, [a, b, c], qc))
  {
    hide NodeEffect, Lhs;
    MakeNode(p, [a, b, c]);
    Three(a, b, c, q);
  }

  lemma Node4(p: int, a: Tree, b: Tree, c: Tree, d: Tree, xs: seq<int>,
              ta: seq<Lexeme>, tb: seq<Lexeme>, tc: seq<Lexeme>, td: seq<Lexeme>,
              q: Query, qa: Query, qb: Query, qc: Query, qd: Query)
    requires 1 <= p <= PRODUCTIONS && Rhs(p) == xs && |xs| == 4
    requires Writes(a, xs[0], ta, q, qa) && Writes(b, xs[1], tb, qa, qb)
    requires Writes(c, xs[2], tc, qb, qc) && Writes(d, xs[3], td, qc, qd)
    ensures Writes(Node(p, [a, b, c, d]), Lhs(p), ta + tb + tc + td, q, NodeEffect(p, [a, b, c, d], qd))
  {
    hide NodeEffect, Lhs;
    MakeNode(p, [a, b, c, d]);
    Four(a, b, c, d, q);
  }

  // ---- the trees of the pieces of a query ----

  lemma WordOk(t: int, text: string, q: Query)
    requires 3 <= t <= 42
    ensures Writes(Word(t, text), t, [Tok(t, text)], q, q) && TextOf(Word(t, text)) == text
  {
  }

  function WithKeys(q: Query, ks: set<string>): Query {
    q.(keys := q.keys + ks)
  }

  lemma KeyOk(k: string, q: Query)
    ensures Writes(KeyTree(k), N_LVALUE, [Tok(T_LVALUE, k)], q, WithKeys(q, {k})) && TextOf(KeyTree(k)) == k
  {
    WordOk(T_LVALUE, k, q);
    Node1(48, Word(T_LVALUE, k), T_LVALUE, [Tok(T_LVALUE, k)], q, q);
  }

  lemma TextOk(v: string, q: Query)
    ensures Writes(TextTree(v), N_QSTRING, [Tok(T_QSTRING, v)], q, q) && TextOf(TextTree(v)) == v
  {
    WordOk(T_QSTRING, v, q);
    Node1(47, Word(T_QSTRING, v), T_QSTRING, [Tok(T_QSTRING, v)], q, q);
  }

  lemma {:induction false} ValuesOk(f: string, o: seq<string>, q: Query)
    ensures Writes(ValuesTree(f, o), N_VALUELIST, PrintList(T_QSTRING, f, o), q, q)
    ensures TextsOf(ValuesTree(f, o)) == [f] + o
    decreases |o|
  {
    hide Tok;
    TextOk(f, q);
    if o == [] {
      Node1(9, TextTree(f), N_QSTRING, [Tok(T_QSTRING, f)], q, q);
    } else {
      WordOk(T_COMMA, ",", q);
      ValuesOk(o[0], o[1..], q);
      var rest := PrintList(T_QSTRING, o[0], o[1..]);
      Node3(10, TextTree(f), Word(T_COMMA, ","), ValuesTree(o[0], o[1..]), [N_QSTRING, T_COMMA, N_VALUELIST],
            [Tok(T_QSTRING, f)], [Tok(T_COMMA, ",")], rest, q, q, q, q);
      assert [Tok(T_QSTRING, f)] + [Tok(T_COMMA, ",")] == [Tok(T_QSTRING, f), Tok(T_COMMA, ",")];
      assert [o[0]] + o[1..] == o;
    }
  }

  lemma {:induction false} TagsOk(f: string, o: seq<string>, q: Query)
    ensures Writes(TagsTree(f, o), N_TAGLIST, PrintList(T_LVALUE, f, o), q, WithKeys(q, set k | k in [f] + o))
    ensures TextsOf(TagsTree(f, o)) == [f] + o
    decreases |o|
  {
    hide Tok;
    KeyOk(f, q);
    var q1 := WithKeys(q, {f});
    if o == [] {
      Node1(6, KeyTree(f), N_LVALUE, [Tok(T_LVALUE, f)], q, q1);
      assert (set k | k in [f] + o) == {f};
    } else {
      WordOk(T_COMMA, ",", q1);
      TagsOk(o[0], o[1..], q1);
      assert [o[0]] + o[1..] == o;
      var rest, q2 := PrintList(T_LVALUE, o[0], o[1..]), WithKeys(q1, set k | k in o);
      Node3(7, KeyTree(f), Word(T_COMMA, ","), TagsTree(o[0], o[1..]), [N_LVALUE, T_COMMA, N_TAGLIST],
            [Tok(T_LVALUE, f)], [Tok(T_COMMA, ",")], rest, q, q1, q1, q2);
      assert [Tok(T_LVALUE, f)] + [Tok(T_COMMA, ",")] == [Tok(T_LVALUE, f), Tok(T_COMMA, ",")];
      assert (set k | k in [f] + o) == {f} + (set k | k in o);
    }
  }

  lemma BrackOk(f: string, o: seq<string>, q: Query)
    ensures Writes(BrackTree(f, o), N_VALUELISTBRACK, PrintValues(f, o), q, q)
    ensures TextsOf(BrackTree(f, o)) == [f] + o
  {
    hide Tok;
    WordOk(T_LBRACK, "[", q);
    ValuesOk(f, o, q);
    WordOk(T_RBRACK, "]", q);
    Node3(8, Word(T_LBRACK, "["), ValuesTree(f, o), Word(T_RBRACK, "]"), [T_LBRACK, N_VALUELIST, T_RBRACK],
          [Tok(T_LBRACK, "[")], PrintList(T_QSTRING, f, o), [Tok(T_RBRACK, "]")], q, q, q, q);
  }

  lemma {:induction false} TermOk(t: Term, q: Query)
    ensures Writes(TermTree(t), N_WHERETERM, PrintTerm(t), q, WithKeys(q, TermKeys(t)))
    ensures TermOf(TermTree(t)) == t
  {
    match t
    case Paren(u) =>
      TermOk(u, q);
      ParenOk(u, q);
    case In(f, o, k) => InOk(f, o, k, q);
    case NotIn(f, o, k) => NotInOk(f, o, k, q);
    case Like(k, v) => ComparisonOk(38, T_LIKE, "like", k, v, q);
    case EqText(k, v) => ComparisonOk(39, T_EQ, "=", k, v, q);
    case Neq(k, v) => ComparisonOk(41, T_NEQ, "!=", k, v, q);
    case EqNumber(k, n) => NumberOk(k, n, q);
    case Has(k) => HasOk(k, q);
    case Matches(v) => MatchesOk(v, q);
  }

  lemma ComparisonOk(p: int, op: int, text: string, k: string, v: string, q: Query)
    requires (p == 38 && op == T_LIKE) || (p == 39 && op == T_EQ) || (p == 41 && op == T_NEQ)
    ensures Writes(Node(p, [KeyTree(k), Word(op, text), TextTree(v)]), N_WHERETERM,
                   [Tok(T_LVALUE, k), Tok(op, text), Tok(T_QSTRING, v)], q, WithKeys(q, {k}))
    ensures TextOf(KeyTree(k)) == k && TextOf(TextTree(v)) == v
  {
    hide Tok;
    var q1 := WithKeys(q, {k});
    KeyOk(k, q);
    WordOk(op, text, q1);
    TextOk(v, q1);
    Node3(p, KeyTree(k), Word(op, text), TextTree(v), [N_LVALUE, op, N_QSTRING],
          [Tok(T_LVALUE, k)], [Tok(op, text)], [Tok(T_QSTRING, v)], q, q1, q1, q1);
  }

  lemma NumberOk(k: string, n: string, q: Query)
    ensures Writes(TermTree(EqNumber(k, n)), N_WHERETERM, PrintTerm(EqNumber(k, n)), q, WithKeys(q, {k}))
    ensures TermOf(TermTree(EqNumber(k, n))) == EqNumber(k, n)
  {
    hide Tok;
    var q1 := WithKeys(q, {k});
    KeyOk(k, q);
    WordOk(T_EQ, "=", q1);
    WordOk(T_NUMBER, n, q1);
    Node3(40, KeyTree(k), Word(T_EQ, "="), Word(T_NUMBER, n), [N_LVALUE, T_EQ, T_NUMBER],
          [Tok(T_LVALUE, k)], [Tok(T_EQ, "=")], [Tok(T_NUMBER, n)], q, q1, q1, q1);
    assert [Tok(T_LVALUE, k)] + [Tok(T_EQ, "=")] + [Tok(T_NUMBER, n)] == PrintTerm(EqNumber(k, n));
    var kids := [KeyTree(k), Word(T_EQ, "="), Word(T_NUMBER, n)];
    assert TermTree(EqNumber(k, n)) == Node(40, kids) && NodeEffect(40, kids, q1) == q1;
  }

  lemma HasOk(k: string, q: Query)
    ensures Writes(TermTree(Has(k)), N_WHERETERM, PrintTerm(Has(k)), q, WithKeys(q, {k}))
    ensures TermOf(TermTree(Has(k))) == Has(k)
  {
    hide Tok;
    WordOk(T_HAS, "has", q);
    KeyOk(k, q);
    Node2(42, Word(T_HAS, "has"), KeyTree(k), [T_HAS, N_LVALUE], [Tok(T_HAS, "has")], [Tok(T_LVALUE, k)],
          q, q, WithKeys(q, {k}));
  }

  lemma MatchesOk(v: string, q: Query)
    ensures Writes(TermTree(Matches(v)), N_WHERETERM, PrintTerm(Matches(v)), q, WithKeys(q, {}))
    ensures TermOf(TermTree(Matches(v))) == Matches(v)
  {
    hide Tok;
    WordOk(T_MATCHES, "matches", q);
    TextOk(v, q);
    Node2(43, Word(T_MATCHES, "matches"), TextTree(v), [T_MATCHES, N_QSTRING],
          [Tok(T_MATCHES, "matches")], [Tok(T_QSTRING, v)], q, q, q);
    assert WithKeys(q, {}) == q;
    assert NodeEffect(43, [Word(T_MATCHES, "matches"), TextTree(v)], q) == q;
    assert [Tok(T_MATCHES, "matches")] + [Tok(T_QSTRING, v)] == PrintTerm(Matches(v));
    assert TermOf(TermTree(Matches(v))) == Matches(v);
  }

  lemma InOk(f: string, o: seq<string>, k: string, q: Query)
    ensures Writes(TermTree(In(f, o, k)), N_WHERETERM, PrintTerm(In(f, o, k)), q, WithKeys(q, {k}))
    ensures TermOf(TermTree(In(f, o, k))) == In(f, o, k)
  {
    hide Tok;
    BrackOk(f, o, q);
    WordOk(T_IN, "in", q);
    KeyOk(k, q);
    Node3(44, BrackTree(f, o), Word(T_IN, "in"), KeyTree(k), [N_VALUELISTBRACK, T_IN, N_LVALUE],
          PrintValues(f, o), [Tok(T_IN, "in")], [Tok(T_LVALUE, k)], q, q, q, WithKeys(q, {k}));
    assert PrintValues(f, o) + [Tok(T_IN, "in")] + [Tok(T_LVALUE, k)] == PrintTerm(In(f, o, k));
  }

  lemma NotInOk(f: string, o: seq<string>, k: string, q: Query)
    ensures Writes(TermTree(NotIn(f, o, k)), N_WHERETERM, PrintTerm(NotIn(f, o, k)), q, WithKeys(q, {k}))
    ensures TermOf(TermTree(NotIn(f, o, k))) == NotIn(f, o, k)
  {
    hide Tok;
    BrackOk(f, o, q);
    WordOk(T_NOT, "not", q);
    WordOk(T_IN, "in", q);
    KeyOk(k, q);
    Node4(45, BrackTree(f, o), Word(T_NOT, "not"), Word(T_IN, "in"), KeyTree(k),
          [N_VALUELISTBRACK, T_NOT, T_IN, N_LVALUE],
          PrintValues(f, o), [Tok(T_NOT, "not")], [Tok(T_IN, "in")], [Tok(T_LVALUE, k)],
          q, q, q, q, WithKeys(q, {k}));
    assert PrintTerm(NotIn(f, o, k))
        == PrintValues(f, o) + [Tok(T_NOT, "not")] + [Tok(T_IN, "in")] + [Tok(T_LVALUE, k)];
  }

  lemma ParenOk(u: Term, q: Query)
    requires Writes(TermTree(u), N_WHERETERM, PrintTerm(u), q, WithKeys(q, TermKeys(u)))
    requires TermOf(TermTree(u)) == u
    ensures Writes(TermTree(Paren(u)), N_WHERETERM, PrintTerm(Paren(u)), q, WithKeys(q, TermKeys(u)))
    ensures TermOf(TermTree(Paren(u))) == Paren(u)
  {
    hide Tok;
    var q1 := WithKeys(q, TermKeys(u));
    WordOk(T_LPAREN, "(", q);
    WordOk(T_RPAREN, ")", q1);
    Node3(46, Word(T_LPAREN, "("), TermTree(u), Word(T_RPAREN, ")"), [T_LPAREN, N_WHERETERM, T_RPAREN],
          [Tok(T_LPAREN, "(")], PrintTerm(u), [Tok(T_RPAREN, ")")], q, q, q1, q1);
  }

  lemma {:induction false} WhereOk(w: Where, q: Query)
    ensures Writes(WhereTree(w), N_WHERELIST, PrintWhere(w), q, WithKeys(q, WhereKeys(w)))
    ensures WhereOf(WhereTree(w)) == w
  {
    hide Tok;
    TermOk(w.term, q);
    var q1 := WithKeys(q, TermKeys(w.term));
    match w
    case One(t) => Node1(52, TermTree(t), N_WHERETERM, PrintTerm(t), q, q1);
    case Not(t) =>
      WordOk(T_NOT, "not", q);
      Node2(51, Word(T_NOT, "not"), TermTree(t), [T_NOT, N_WHERETERM], [Tok(T_NOT, "not")], PrintTerm(t), q, q, q1);
    case And(l, t) =>
      WhereOk(l, q);
      JoinOk(49, T_AND, "and", l, t, q);
    case Or(l, t) =>
      WhereOk(l, q);
      JoinOk(50, T_OR, "or", l, t, q);
  }

  lemma JoinOk(p: int, op: int, text: string, l: Where, t: Term, q: Query)
    requires (p == 49 && op == T_AND) || (p == 50 && op == T_OR)
    requires Writes(WhereTree(l), N_WHERELIST, PrintWhere(l), q, WithKeys(q, WhereKeys(l)))
    ensures Writes(Node(p, [WhereTree(l), Word(op, text), TermTree(t)]), N_WHERELIST,
                   PrintWhere(l) + [Tok(op, text)] + PrintTerm(t), q, WithKeys(q, WhereKeys(l) + TermKeys(t)))
    ensures TermOf(TermTree(t)) == t
  {
    hide Tok, Rhs;
    assert Rhs(p) == [N_WHERELIST, op, N_WHERETERM] by { JoinRhs(); }
    var q1 := WithKeys(q, WhereKeys(l));
    WordOk(op, text, q1);
    TermOk(t, q1);
    var q2 := WithKeys(q1, TermKeys(t));
    assert q2 == WithKeys(q, WhereKeys(l) + TermKeys(t));
    Node3(p, WhereTree(l), Word(op, text), TermTree(t), [N_WHERELIST, op, N_WHERETERM],
          PrintWhere(l), [Tok(op, text)], PrintTerm(t), q, q1, q1, q2);
  }

  lemma JoinRhs()
    ensures Rhs(49) == [N_WHERELIST, T_AND, N_WHERETERM] && Rhs(50) == [N_WHERELIST, T_OR, N_WHERETERM]
  {
  }

  lemma ClauseOk(w: Where, q: Query)
    ensures Writes(ClauseTree(w), N_WHERECLAUSE, [Tok(T_WHERE, "where")] + PrintWhere(w),
                   q, WithKeys(q, WhereKeys(w)))
    ensures DictOf(ClauseTree(w)) == Compile(w)
  {
    hide Tok;
    WordOk(T_WHERE, "where", q);
    WhereOk(w, q);
    Node2(37, Word(T_WHERE, "where"), WhereTree(w), [T_WHERE, N_WHERELIST],
          [Tok(T_WHERE, "where")], PrintWhere(w), q, q, WithKeys(q, WhereKeys(w)));
  }

  // A selector leaves its tags in the query when it is a list of tags, and the distinct flag.
  function AfterSelector(sel: Selector, q: Query): Query {
    var tags := SelectorTags(sel);
    q.(contents := if sel.Tags? then CleanAll(tags) else q.contents,
       distinct := q.distinct || sel.DistinctAll? || sel.DistinctKey?,
       keys := q.keys + set k | k in tags)
  }

  lemma SelectorOk(sel: Selector, q: Query)
    ensures Writes(SelectorTree(sel), N_SELECTOR, PrintSelector(sel), q, AfterSelector(sel, q))
    ensures ListOf(SelectorTree(sel)) == CleanAll(SelectorTags(sel))
  {
    hide Tok;
    assert (set k: string | k in []) == {};
    match sel
    case All =>
      WordOk(T_ALL, "*", q);
      Node1(12, Word(T_ALL, "*"), T_ALL, [Tok(T_ALL, "*")], q, q);
    case DistinctAll =>
      WordOk(T_DISTINCT, "distinct", q);
      Node1(14, Word(T_DISTINCT, "distinct"), T_DISTINCT, [Tok(T_DISTINCT, "distinct")], q, q);
    case DistinctKey(k) =>
      WordOk(T_DISTINCT, "distinct", q);
      KeyOk(k, q);
      Node2(13, Word(T_DISTINCT, "distinct"), KeyTree(k), [T_DISTINCT, N_LVALUE],
            [Tok(T_DISTINCT, "distinct")], [Tok(T_LVALUE, k)], q, q, WithKeys(q, {k}));
      assert (set x | x in [k]) == {k};
    case Tags(f, o) =>
      TagsOk(f, o, q);
      Node1(11, TagsTree(f, o), N_TAGLIST, PrintList(T_LVALUE, f, o), q, WithKeys(q, set k | k in [f] + o));
  }

  lemma SelectOk(sel: Selector)
    ensures Writes(AskTree(Select(sel)), N_QUERY, Print(Select(sel)), EMPTY_QUERY, Meaning(Select(sel)))
  {
    hide Tok, CleanAll;
    var q := EMPTY_QUERY;
    var q1 := AfterSelector(sel, q);
    WordOk(T_SELECT, "select", q);
    SelectorOk(sel, q);
    WordOk(T_SEMICOLON, ";", q1);
    Node3(2, Word(T_SELECT, "select"), SelectorTree(sel), Word(T_SEMICOLON, ";"), [T_SELECT, N_SELECTOR, T_SEMICOLON],
          [Tok(T_SELECT, "select")], PrintSelector(sel), [Tok(T_SEMICOLON, ";")], q, q, q1, q1);
  }

  lemma SelectWhereText(sel: Selector, w: Where)
    ensures Print(SelectWhere(sel, w)) ==
            [Tok(T_SELECT, "select")] + PrintSelector(sel) + ([Tok(T_WHERE, "where")] + PrintWhere(w))
            + [Tok(T_SEMICOLON, ";")]
  {
    hide Tok, PrintSelector, PrintWhere;
  }

  lemma SelectWhereOk(sel: Selector, w: Where)
    ensures var a := SelectWhere(sel, w);
            Writes(AskTree(a), N_QUERY, Print(a), EMPTY_QUERY, Meaning(a))
  {
    hide Tok, CleanAll, Compile, Print, PrintSelector, SelectorTree, WhereKeys, PrintWhere, WhereTree;
    var q := EMPTY_QUERY;
    var q1 := AfterSelector(sel, q);
    var q2 := WithKeys(q1, WhereKeys(w));
    WordOk(T_SELECT, "select", q);
    SelectorOk(sel, q);
    ClauseOk(w, q1);
    WordOk(T_SEMICOLON, ";", q2);
    var clause := [Tok(T_WHERE, "where")] + PrintWhere(w);
    Node4(1, Word(T_SELECT, "select"), SelectorTree(sel), ClauseTree(w), Word(T_SEMICOLON, ";"),
          [T_SELECT, N_SELECTOR, N_WHERECLAUSE, T_SEMICOLON],
          [Tok(T_SELECT, "select")], PrintSelector(sel), clause, [Tok(T_SEMICOLON, ";")], q, q, q1, q2, q2);
    SelectWhereText(sel, w);
  }

  lemma DeleteOk(w: Where)
    ensures Writes(AskTree(Delete(w)), N_QUERY, Print(Delete(w)), EMPTY_QUERY, Meaning(Delete(w)))
  {
    hide Tok, CleanAll;
    var q := EMPTY_QUERY;
    var q1 := WithKeys(q, WhereKeys(w));
    WordOk(T_DELETE, "delete", q);
    ClauseOk(w, q);
    WordOk(T_SEMICOLON, ";", q1);
    var clause := [Tok(T_WHERE, "where")] + PrintWhere(w);
    Node3(5, Word(T_DELETE, "delete"), ClauseTree(w), Word(T_SEMICOLON, ";"), [T_DELETE, N_WHERECLAUSE, T_SEMICOLON],
          [Tok(T_DELETE, "delete")], clause, [Tok(T_SEMICOLON, ";")], q, q, q1, q1);
    assert [Tok(T_DELETE, "delete")] + clause + [Tok(T_SEMICOLON, ";")] == Print(Delete(w));
  }

  lemma AskOk(a: Ask)
    ensures Writes(AskTree(a), N_QUERY, Print(a), EMPTY_QUERY, Meaning(a))
  {
    match a
    case Select(sel) => SelectOk(sel);
    case SelectWhere(sel, w) => SelectWhereOk(sel, w);
    case Delete(w) => DeleteOk(w);
  }

  // ---- main results ----

  /** Every query is read back: the parser accepts its text and leaves the query it asks for. */
  lemma RoundTrip(a: Ask)
    ensures Lexed(Print(a))
    ensures Parsing.Parse(Print(a)) == Some(AskTree(a))
    ensures Effect(AskTree(a), EMPTY_QUERY) == Meaning(a)
  {
    AskOk(a);
    YieldLexed(AskTree(a));
    ParseExact(Print(a), AskTree(a));
  }

  /** Different where-clauses are written differently: the text determines the clause. */
  lemma PrintInjective(v: Where, w: Where)
    requires PrintWhere(v) == PrintWhere(w)
    ensures v == w
  {
    var a, b := Delete(v), Delete(w);
    RoundTrip(a);
    RoundTrip(b);
    WhereOk(v, EMPTY_QUERY);
    WhereOk(w, EMPTY_QUERY);
    assert AskTree(a).kids[1] == ClauseTree(v) && AskTree(b).kids[1] == ClauseTree(w);
  }

  // The where-clause of an accepted query: the kid that holds it, if there is one.
  function WhereKid(t: Tree): Option<Tree> {
    match t
    case Leaf(_) => None
    case Node(p, kids) =>
      if p in {1, 3, 4} && |kids| == 4 then Some(kids[2])
      else if p == 5 && |kids| == 3 then Some(kids[1])
      else None
  }

  /**
   For whatever the parser accepts, data queries included: the filter it leaves in the query passes
   exactly the records on which the where-clause that was read is true.
   */
  lemma AcceptedMeaning(input: seq<Lexeme>, st: Store, r: Record)
    requires Lexed(input) && Parsing.Parse(input).Some? && WhereKid(Parsing.Parse(input).value).Some?
    ensures var t := Parsing.Parse(input).value;
            var w := WhereOf(WhereKid(t).value);
            && Effect(t, EMPTY_QUERY).where == Compile(w)
            && (PlainKeys(w) && NotsNegatable(st, w) ==>
                 (Filter(st, r, Effect(t, EMPTY_QUERY).where) <==> Holds(st, r, w)))
  {
    hide Rhs;
    var t := Parsing.Parse(input).value;
    ParseExact(input, t);
    KidsOf(t.prod, t.kids);
    var w := WhereOf(WhereKid(t).value);
    WhereKidRoot(t);
    if PlainKeys(w) && NotsNegatable(st, w) {
      CompileMeaning(st, r, w);
    }
  }

  lemma WhereKidRoot(t: Tree)
    requires Valid(t) && WhereKid(t).Some?
    ensures Root(WhereKid(t).value) == N_WHERECLAUSE
    ensures Effect(t, EMPTY_QUERY).where == Compile(WhereOf(WhereKid(t).value))
  {
    KidsOf(t.prod, t.kids);
  }
}
