/**
 What an accepted query leaves in the query record (querylang/query.y:57-135 and 361-367), told from its
 tokens alone: the type, the distinct flag, the tags to return and the keys that occur.
 */
module QueryTokens {
  import opened ParseTables
  import opened Grammar
  import opened AutomatonChecks
  import opened Parsing
  import opened Actions

  function Code(l: Lexeme): int {
    Translate(l.code)
  }

  // ---- what the tokens say ----

  // 1 select, 2 delete, 3 data: by the first two tokens.
  function TypeOf(input: seq<Lexeme>): int {
    if |input| < 2 then 0
    else if Code(input[0]) == T_DELETE then 2
    else if Code(input[1]) in {T_DATA, T_STATISTICAL, T_STATISTICS, T_WINDOW, T_CHANGED} then 3
    else 1
  }

  predicate DistinctOf(input: seq<Lexeme>) {
    |input| >= 2 && Code(input[1]) == T_DISTINCT
  }

  // The words of a list of tags at the beginning of the text.
  function TagTexts(text: seq<Lexeme>): seq<string> {
    if text == [] || Code(text[0]) != T_LVALUE then []
    else [text[0].text] + if |text| > 1 && Code(text[1]) == T_COMMA then TagTexts(text[2..]) else []
  }

  function TagsOf(input: seq<Lexeme>): seq<string> {
    if TypeOf(input) != 1 then [] else TagTexts(if DistinctOf(input) then input[2..] else input[1..])
  }

  // A number that comes after this token begins an absolute time.
  predicate OpensTime(input: seq<Lexeme>, i: nat)
    requires i < |input|
  {
    || Code(input[i]) in {T_IN, T_COMMA, T_BEFORE, T_AFTER}
    || (Code(input[i]) == T_LPAREN && i > 0 && Code(input[i - 1]) == T_IN)
  }

  // The word at i names a unit, after "as" or after the number of an absolute time.
  predicate NamesUnit(input: seq<Lexeme>, i: nat)
    requires i < |input|
  {
    i > 0 &&
    (Code(input[i - 1]) == T_AS || (Code(input[i - 1]) == T_NUMBER && i > 1 && OpensTime(input, i - 2)))
  }

  // Every other word is the key of a tag.
  predicate KeyAt(input: seq<Lexeme>, i: nat)
    requires i < |input|
  {
    Code(input[i]) == T_LVALUE && !NamesUnit(input, i)
  }

  function KeysOf(input: seq<Lexeme>): set<string> {
    set i | 0 <= i < |input| && KeyAt(input, i) :: input[i].text
  }

  // ---- the same, token by token ----

  datatype Place = Plain | AfterIn | Opening | OpenNumber | AfterAs

  predicate Opens(s: Place) {
    s.AfterIn? || s.Opening?
  }

  predicate Raw(s: Place) {
    s.OpenNumber? || s.AfterAs?
  }

  function Moved(s: Place, c: int): Place {
    if c == T_IN then AfterIn
    else if c == T_COMMA || c == T_BEFORE || c == T_AFTER then Opening
    else if c == T_LPAREN && s.AfterIn? then Opening
    else if c == T_NUMBER && Opens(s) then OpenNumber
    else if c == T_AS then AfterAs
    else Plain
  }

  function Reached(s: Place, text: seq<Lexeme>): Place
    decreases |text|
  {
    if text == [] then s else Reached(Moved(s, Code(text[0])), text[1..])
  }

  function KeysFrom(s: Place, text: seq<Lexeme>): set<string>
    decreases |text|
  {
    if text == [] then {}
    else (if Code(text[0]) == T_LVALUE && !Raw(s) then {text[0].text} else {})
         + KeysFrom(Moved(s, Code(text[0])), text[1..])
  }

  lemma {:induction false} FromAppend(s: Place, a: seq<Lexeme>, b: seq<Lexeme>)
    ensures Reached(s, a + b) == Reached(Reached(s, a), b)
    ensures KeysFrom(s, a + b) == KeysFrom(s, a) + KeysFrom(Reached(s, a), b)
    decreases |a|
  {
    hide Moved, Raw;
    if a == [] {
      assert a + b == b;
    } else {
      assert (a + b)[0] == a[0] && (a + b)[1..] == a[1..] + b;
      FromAppend(Moved(s, Code(a[0])), a[1..], b);
    }
  }

  // The place before token i, by the tokens before it.
  lemma PlaceIs(input: seq<Lexeme>, i: nat)
    requires i < |input|
    ensures Opens(Reached(Plain, input[..i + 1])) <==> OpensTime(input, i)
    ensures Raw(Reached(Plain, input[..i])) <==> NamesUnit(input, i)
  {
    PlaceStep(input, i);
    if i > 0 {
      PlaceStep(input, i - 1);
      if i > 1 {
        PlaceStep(input, i - 2);
        if i > 2 {
          PlaceStep(input, i - 3);
        }
      }
    }
    assert input[..0] == [];
  }

  lemma PlaceStep(input: seq<Lexeme>, i: nat)
    requires i < |input|
    ensures Reached(Plain, input[..i + 1]) == Moved(Reached(Plain, input[..i]), Code(input[i]))
  {
    hide Moved;
    assert input[..i + 1] == input[..i] + [input[i]];
    FromAppend(Plain, input[..i], [input[i]]);
    assert [input[i]][1..] == [];
  }

  lemma {:induction false} KeysAre(input: seq<Lexeme>, n: nat)
    requires n <= |input|
    ensures KeysFrom(Plain, input[..n]) == set i | 0 <= i < n && KeyAt(input, i) :: input[i].text
  {
    hide Moved, NamesUnit, Raw;
    if n == 0 {
      assert input[..0] == [];
    } else {
      KeysAre(input, n - 1);
      PlaceIs(input, n - 1);
      var l := input[n - 1];
      assert input[..n] == input[..n - 1] + [l];
      FromAppend(Plain, input[..n - 1], [l]);
      assert [l][1..] == [];
    }
  }

  // ---- keys along a tree ----

  // Where a symbol can begin.
  predicate Before(x: int, s: Place) {
    match x
    case -9 | -10 => Opens(s)
    case -11 => !Opens(s)
    case -1 | -2 | -4 | -5 | -15 => !Raw(s)
    case 19 => Raw(s)
    case _ => true
  }

  // Where a nonterminal can end.
  predicate Behind(x: int, s: Place) {
    match x
    case -9 | -10 => !Opens(s)
    case -11 => s.Plain?
    case -14 | -15 => s.Plain?
    case _ => true
  }

  // From this place the symbols of p from position d on can follow one another.
  predicate Fits(p: int, d: nat, s: Place)
    decreases |Rhs(p)| - d
  {
    if d >= |Rhs(p)| then Behind(Lhs(p), s)
    else
      Before(Rhs(p)[d], s) &&
      if Rhs(p)[d] > 0 then Fits(p, d + 1, Moved(s, Rhs(p)[d]))
      else
        && (Behind(Rhs(p)[d], Plain) ==> Fits(p, d + 1, Plain))
        && (Behind(Rhs(p)[d], AfterIn) ==> Fits(p, d + 1, AfterIn))
        && (Behind(Rhs(p)[d], Opening) ==> Fits(p, d + 1, Opening))
        && (Behind(Rhs(p)[d], OpenNumber) ==> Fits(p, d + 1, OpenNumber))
        && (Behind(Rhs(p)[d], AfterAs) ==> Fits(p, d + 1, AfterAs))
  }

  lemma Fits1To3(p: int, s: Place)
    requires 1 <= p <= 3 && Before(Lhs(p), s)
    ensures Fits(p, 0, s)
  {
  }

  lemma Fits4To10(p: int, s: Place)
    requires 4 <= p <= 10 && Before(Lhs(p), s)
    ensures Fits(p, 0, s)
  {
  }

  lemma Fits11To14(p: int, s: Place)
    requires 11 <= p <= 14 && Before(Lhs(p), s)
    ensures Fits(p, 0, s)
  {
  }

  lemma Spelled15()
    ensures Lhs(15) == N_DATACLAUSE && |Rhs(15)| == 9
    ensures Rhs(15)[0] == T_DATA && Rhs(15)[1] == T_IN && Rhs(15)[2] == T_LPAREN && Rhs(15)[3] == N_TIMEREF
    ensures Rhs(15)[4] == T_COMMA && Rhs(15)[5] == N_TIMEREF && Rhs(15)[6] == T_RPAREN && Rhs(15)[7] == N_LIMIT
    ensures Rhs(15)[8] == N_TIMECONV
  {
  }

  lemma Spelled17()
    ensures Lhs(17) == N_DATACLAUSE && |Rhs(17)| == 13
    ensures Rhs(17)[0] == T_STATISTICAL && Rhs(17)[1] == T_LPAREN && Rhs(17)[2] == T_NUMBER && Rhs(17)[3] == T_RPAREN
    ensures Rhs(17)[4] == T_DATA && Rhs(17)[5] == T_IN && Rhs(17)[6] == T_LPAREN && Rhs(17)[7] == N_TIMEREF
    ensures Rhs(17)[8] == T_COMMA && Rhs(17)[9] == N_TIMEREF && Rhs(17)[10] == T_RPAREN && Rhs(17)[11] == N_LIMIT
    ensures Rhs(17)[12] == N_TIMECONV
  {
  }

  lemma Spelled18()
    ensures Lhs(18) == N_DATACLAUSE && |Rhs(18)| == 13
    ensures Rhs(18)[0] == T_STATISTICS && Rhs(18)[1] == T_LPAREN && Rhs(18)[2] == T_NUMBER && Rhs(18)[3] == T_RPAREN
    ensures Rhs(18)[4] == T_DATA && Rhs(18)[5] == T_IN && Rhs(18)[6] == T_LPAREN && Rhs(18)[7] == N_TIMEREF
    ensures Rhs(18)[8] == T_COMMA && Rhs(18)[9] == N_TIMEREF && Rhs(18)[10] == T_RPAREN && Rhs(18)[11] == N_LIMIT
    ensures Rhs(18)[12] == N_TIMECONV
  {
  }

  lemma Spelled19()
    ensures Lhs(19) == N_DATACLAUSE && |Rhs(19)| == 14
    ensures Rhs(19)[0] == T_WINDOW && Rhs(19)[1] == T_LPAREN && Rhs(19)[2] == T_NUMBER && Rhs(19)[3] == N_LVALUE
    ensures Rhs(19)[4] == T_RPAREN && Rhs(19)[5] == T_DATA && Rhs(19)[6] == T_IN && Rhs(19)[7] == T_LPAREN
    ensures Rhs(19)[8] == N_TIMEREF && Rhs(19)[9] == T_COMMA && Rhs(19)[10] == N_TIMEREF && Rhs(19)[11] == T_RPAREN
    ensures Rhs(19)[12] == N_LIMIT && Rhs(19)[13] == N_TIMECONV
  {
  }

  // The data clauses from their first time on, and then from the start.
  lemma Times15()
    ensures Fits(15, 3, Opening)
  {
    Spelled15();
    hide Rhs, Lhs;
  }

  lemma Times17()
    ensures Fits(17, 7, Opening)
  {
    Spelled17();
    hide Rhs, Lhs;
  }

  lemma Times18()
    ensures Fits(18, 7, Opening)
  {
    Spelled18();
    hide Rhs, Lhs;
  }

  lemma Times19()
    ensures Fits(19, 8, Opening)
  {
    Spelled19();
    hide Rhs, Lhs;
  }

  lemma Fits15(s: Place)
    ensures Fits(15, 0, s)
  {
    Spelled15();
    Times15();
    hide Rhs, Lhs;
    assert Fits(15, 2, AfterIn) && Fits(15, 1, Plain);
  }

  lemma Fits17(s: Place)
    ensures Fits(17, 0, s)
  {
    Spelled17();
    Times17();
    hide Rhs, Lhs;
    assert Fits(17, 6, AfterIn) && Fits(17, 5, Plain);
  }

  lemma Fits18(s: Place)
    ensures Fits(18, 0, s)
  {
    Spelled18();
    Times18();
    hide Rhs, Lhs;
    assert Fits(18, 6, AfterIn) && Fits(18, 5, Plain);
  }

  lemma Fits19(s: Place)
    ensures Fits(19, 0, s)
  {
    Spelled19();
    Times19();
    hide Rhs, Lhs;
    assert Fits(19, 7, AfterIn) && Fits(19, 6, Plain);
  }

  lemma Fits16(p: int, s: Place)
    requires p == 16 && Before(Lhs(p), s)
    ensures Fits(p, 0, s)
  {
  }

  lemma Fits20(p: int, s: Place)
    requires p == 20 && Before(Lhs(p), s)
    ensures Fits(p, 0, s)
  {
  }

  lemma Fits21To22(p: int, s: Place)
    requires 21 <= p <= 22 && Before(Lhs(p), s)
    ensures Fits(p, 0, s)
  {
  }

  lemma Fits23To30(p: int, s: Place)
    requires 23 <= p <= 30 && Before(Lhs(p), s)
    ensures Fits(p, 0, s)
  {
  }

  lemma Fits31To36(p: int, s: Place)
    requires 31 <= p <= 36 && Before(Lhs(p), s)
    ensures Fits(p, 0, s)
  {
  }

  lemma Fits37To41(p: int, s: Place)
    requires 37 <= p <= 41 && Before(Lhs(p), s)
    ensures Fits(p, 0, s)
  {
  }

  lemma Fits42To47(p: int, s: Place)
    requires 42 <= p <= 47 && Before(Lhs(p), s)
    ensures Fits(p, 0, s)
  {
  }

  lemma Fits49To52(p: int, s: Place)
    requires 49 <= p <= 52 && Before(Lhs(p), s)
    ensures Fits(p, 0, s)
  {
  }

  // Every production can be read wherever its left-hand side can begin; 48 is a key itself.
  lemma ProductionFits(p: int, s: Place)
    requires 1 <= p <= PRODUCTIONS && p != 48 && Before(Lhs(p), s)
    ensures Fits(p, 0, s)
  {
    hide Fits, Before, Lhs;
    if p <= 3 { Fits1To3(p, s); }
    else if p <= 10 { Fits4To10(p, s); }
    else if p <= 14 { Fits11To14(p, s); }
    else if p <= 15 { Fits15(s); }
    else if p <= 16 { Fits16(p, s); }
    else if p <= 17 { Fits17(s); }
    else if p <= 18 { Fits18(s); }
    else if p <= 19 { Fits19(s); }
    else if p <= 20 { Fits20(p, s); }
    else if p <= 22 { Fits21To22(p, s); }
    else if p <= 30 { Fits23To30(p, s); }
    else if p <= 36 { Fits31To36(p, s); }
    else if p <= 41 { Fits37To41(p, s); }
    else if p <= 47 { Fits42To47(p, s); }
    else { Fits49To52(p, s); }
  }

  lemma {:induction false} TreeKeys(t: Tree, s: Place, q: Query)
    requires Valid(t) && Before(Root(t), s)
    ensures Effect(t, q).keys == q.keys + KeysFrom(s, Yield(t))
    ensures Root(t) < 0 ==> Behind(Root(t), Reached(s, Yield(t)))
    ensures Root(t) > 0 ==> Reached(s, Yield(t)) == Moved(s, Root(t))
    decreases t, 1
  {
    hide Fits, Moved, NodeEffect, Rhs, Lhs;
    RootSign(t);
    match t
    case Leaf(l) => LeafKeys(l, s);
    case Node(p, kids) =>
      KidsOf(p, kids);
      if p == 48 {
        WordKeys(t, s, q);
      } else {
        ProductionFits(p, s);
        KidsKeys(kids, p, 0, s, q);
        NodeKeys(p, kids, Effects(kids, q));
      }
  }

  lemma LeafKeys(l: Lexeme, s: Place)
    requires Before(Code(l), s)
    ensures KeysFrom(s, [l]) == {} && Reached(s, [l]) == Moved(s, Code(l))
  {
    hide Moved;
    assert [l][1..] == [];
  }

  lemma NodeKeys(p: int, kids: seq<Tree>, q: Query)
    requires p != 48
    ensures NodeEffect(p, kids, q).keys == q.keys
  {
    hide ListOf, DictOf;
  }

  lemma WordKeys(t: Tree, s: Place, q: Query)
    requires t.Node? && t.prod == 48 && Valid(t) && Before(Root(t), s)
    ensures Effect(t, q).keys == q.keys + KeysFrom(s, Yield(t))
    ensures Behind(Root(t), Reached(s, Yield(t)))
  {
    KidsOf(48, t.kids);
    RootSign(t.kids[0]);
    var l := t.kids[0].lex;
    assert t.kids == [Leaf(l)];
    OneLeaf(l, q);
    assert [l][1..] == [];
  }

  lemma OneLeaf(l: Lexeme, q: Query)
    ensures Yields([Leaf(l)]) == [l] && Effects([Leaf(l)], q) == q
  {
    assert [Leaf(l)][1..] == [];
    assert Effect(Leaf(l), q) == q;
  }

  lemma FitsNext(p: int, d: nat, s: Place, s': Place)
    requires d < |Rhs(p)| && Fits(p, d, s)
    requires if Rhs(p)[d] > 0 then s' == Moved(s, Rhs(p)[d]) else Behind(Rhs(p)[d], s')
    ensures Before(Rhs(p)[d], s) && Fits(p, d + 1, s')
  {
    hide Rhs, Moved, Before, Behind;
    match s'
    case Plain =>
    case AfterIn =>
    case Opening =>
    case OpenNumber =>
    case AfterAs =>
  }

  lemma {:induction false} KidsKeys(kids: seq<Tree>, p: int, d: nat, s: Place, q: Query)
    requires ValidKids(kids, p, d) && Fits(p, d, s)
    ensures Effects(kids, q).keys == q.keys + KeysFrom(s, Yields(kids))
    ensures Behind(Lhs(p), Reached(s, Yields(kids)))
    decreases kids, 0
  {
    hide Moved, NodeEffect, Rhs, Lhs, Before, Behind;
    if kids != [] {
      RootSign(kids[0]);
      assert Before(Rhs(p)[d], s);
      TreeKeys(kids[0], s, q);
      var s' := Reached(s, Yield(kids[0]));
      FitsNext(p, d, s, s');
      KidsKeys(kids[1..], p, d + 1, s', Effect(kids[0], q));
      FromAppend(s, Yield(kids[0]), Yields(kids[1..]));
    }
  }

  // ---- everything else in the query record ----

  // Below a query and its selector the actions record keys only.
  predicate Inner(x: int) {
    x != N_QUERY && x != N_SELECTOR
  }

  lemma InnerProductions(p: int, d: nat)
    requires 1 <= p <= PRODUCTIONS && d < |Rhs(p)| && Inner(Lhs(p))
    ensures Inner(Rhs(p)[d])
  {
    if p <= 20 {
      InnerUpTo20(p, d);
    }
  }

  lemma InnerUpTo20(p: int, d: nat)
    requires 1 <= p <= 20 && d < |Rhs(p)| && Inner(Lhs(p))
    ensures Inner(Rhs(p)[d])
  {
  }

  lemma {:induction false} InnerOnlyKeys(t: Tree, q: Query)
    requires Valid(t) && Inner(Root(t))
    ensures Effect(t, q) == q.(keys := Effect(t, q).keys)
    decreases t, 1
  {
    hide Rhs;
    match t
    case Leaf(_) =>
    case Node(p, kids) =>
      KidsOf(p, kids);
      forall d | 0 <= d < |Rhs(p)|
        ensures Inner(Rhs(p)[d])
      {
        InnerProductions(p, d);
      }
      InnerKids(kids, q);
      InnerNode(p, kids, Effects(kids, q));
  }

  lemma InnerNode(p: int, kids: seq<Tree>, q: Query)
    requires 1 <= p <= PRODUCTIONS && Inner(Lhs(p))
    ensures NodeEffect(p, kids, q) == q.(keys := NodeEffect(p, kids, q).keys)
  {
    hide Rhs, ListOf, DictOf;
  }

  lemma {:induction false} InnerKids(kids: seq<Tree>, q: Query)
    requires forall i :: 0 <= i < |kids| ==> Valid(kids[i]) && Inner(Root(kids[i]))
    ensures Effects(kids, q) == q.(keys := Effects(kids, q).keys)
    decreases kids, 0
  {
    hide Inner, NodeEffect;
    if kids != [] {
      InnerOnlyKeys(kids[0], q);
      InnerKids(kids[1..], Effect(kids[0], q));
    }
  }

  // ---- the tags of a selector ----

  lemma LeafYield(t: Tree)
    requires Valid(t) && Root(t) > 0
    ensures t.Leaf? && Yield(t) == [t.lex] && TextOf(t) == t.lex.text && Code(t.lex) == Root(t)
  {
    RootSign(t);
  }

  lemma WordYield(t: Tree)
    requires Valid(t) && Root(t) == N_LVALUE
    ensures |Yield(t)| == 1 && Yield(t)[0].text == TextOf(t) && Code(Yield(t)[0]) == T_LVALUE
  {
    RootSign(t);
    KidsOf(t.prod, t.kids);
    LeafYield(t.kids[0]);
    assert t.kids == [t.kids[0]];
    OneYield(t.kids[0]);
  }

  // What comes next ends a list of tags.
  predicate EndsTags(after: seq<Lexeme>) {
    LookAhead(after) != T_COMMA && LookAhead(after) != T_LVALUE
  }

  lemma {:induction false} TagListTexts(t: Tree, after: seq<Lexeme>)
    requires Valid(t) && Root(t) == N_TAGLIST && EndsTags(after)
    ensures TextsOf(t) == TagTexts(Yield(t) + after)
  {
    hide TagTexts, EndsTags, TextsOf;
    RootSign(t);
    TagListKids(t);
    var w := Yield(t.kids[0])[0];
    if t.prod == 6 {
      assert Yield(t) == [w];
      LastTag(w, after);
    } else {
      var c, rest := t.kids[1].lex, Yield(t.kids[2]);
      TagListTexts(t.kids[2], after);
      assert Yield(t) + after == [w, c] + (rest + after);
      MoreTags(w, c, rest + after);
    }
  }

  lemma TagListKids(t: Tree)
    requires Valid(t) && t.Node? && Root(t) == N_TAGLIST
    ensures (t.prod == 6 && |t.kids| == 1) || (t.prod == 7 && |t.kids| == 3)
    ensures |Yield(t.kids[0])| == 1 && Code(Yield(t.kids[0])[0]) == T_LVALUE
    ensures t.prod == 6 ==> Yield(t) == Yield(t.kids[0]) && TextsOf(t) == [Yield(t.kids[0])[0].text]
    ensures t.prod == 7 ==>
              && t.kids[1].Leaf? && Code(t.kids[1].lex) == T_COMMA
              && Valid(t.kids[2]) && Root(t.kids[2]) == N_TAGLIST
              && Yield(t) == Yield(t.kids[0]) + [t.kids[1].lex] + Yield(t.kids[2])
              && TextsOf(t) == [Yield(t.kids[0])[0].text] + TextsOf(t.kids[2])
  {
    KidsOf(t.prod, t.kids);
    WordYield(t.kids[0]);
    if t.prod == 6 {
      assert t.kids == [t.kids[0]];
      OneYield(t.kids[0]);
    } else {
      LeafYield(t.kids[1]);
      assert t.kids == [t.kids[0], t.kids[1], t.kids[2]];
      ThreeYields(t.kids[0], t.kids[1], t.kids[2]);
    }
  }

  lemma LastTag(w: Lexeme, after: seq<Lexeme>)
    requires Code(w) == T_LVALUE && EndsTags(after)
    ensures TagTexts([w] + after) == [w.text]
  {
    assert after != [] ==> ([w] + after)[1] == after[0];
  }

  lemma MoreTags(w: Lexeme, c: Lexeme, rest: seq<Lexeme>)
    requires Code(w) == T_LVALUE && Code(c) == T_COMMA
    ensures TagTexts([w, c] + rest) == [w.text] + TagTexts(rest)
  {
    assert ([w, c] + rest)[2..] == rest;
  }

  lemma ThreeYields(a: Tree, b: Tree, c: Tree)
    ensures Yields([a, b, c]) == Yield(a) + Yield(b) + Yield(c)
  {
    assert [a, b, c] == [a] + [b, c] && [b, c] == [b] + [c];
    YieldsAppend([a], [b, c]);
    YieldsAppend([b], [c]);
    OneYield(a);
    OneYield(b);
    OneYield(c);
  }

  lemma OneYield(a: Tree)
    ensures Yields([a]) == Yield(a)
  {
    assert [a][1..] == [];
  }

  // The words that a selector returns, and whether it says "distinct".
  lemma SelectorIs(t: Tree, after: seq<Lexeme>, q: Query)
    requires Valid(t) && Root(t) == N_SELECTOR && EndsTags(after)
    ensures var text := Yield(t) + after;
            && text != [] && Code(text[0]) in First(N_SELECTOR)
            && (Effect(t, q).distinct <==> q.distinct || Code(text[0]) == T_DISTINCT)
            && TextsOf(t) == TagTexts(if Code(text[0]) == T_DISTINCT then text[1..] else text)
  {
    hide ListOf, TagTexts;
    RootSign(t);
    KidsOf(t.prod, t.kids);
    TreeLook(t, after);
    InnerKids(t.kids, q);
    if t.prod == 11 {
      TagListTexts(t.kids[0], after);
      TreeLook(t.kids[0], after);
      assert t.kids == [t.kids[0]];
      OneYield(t.kids[0]);
    } else {
      LeafYield(t.kids[0]);
      PlainSelector(t, after);
    }
  }

  lemma PlainSelector(t: Tree, after: seq<Lexeme>)
    requires t.Node? && Valid(t) && 12 <= t.prod <= 14 && EndsTags(after) && t.kids != [] && t.kids[0].Leaf?
    requires Code(t.kids[0].lex) == (if t.prod == 12 then T_ALL else T_DISTINCT)
    ensures var text := Yield(t) + after;
            && text != [] && text[0] == t.kids[0].lex
            && TextsOf(t) == TagTexts(if Code(text[0]) == T_DISTINCT then text[1..] else text)
  {
    KidsOf(t.prod, t.kids);
    var l := t.kids[0].lex;
    if t.prod == 13 {
      WordYield(t.kids[1]);
      var w := Yield(t.kids[1])[0];
      assert t.kids == [Leaf(l)] + [t.kids[1]];
      YieldsAppend([Leaf(l)], [t.kids[1]]);
      OneYield(Leaf(l));
      OneYield(t.kids[1]);
      assert (Yield(t) + after)[1..] == [w] + after;
      LastTag(w, after);
    } else {
      assert t.kids == [Leaf(l)];
      OneYield(Leaf(l));
      assert ([l] + after)[1..] == after;
      assert TagTexts(after) == [];
    }
  }

  // ---- the whole query ----

  // The first token, the part after it, and the rest.
  lemma QueryText(t: Tree)
    requires Valid(t) && t.Node? && 1 <= t.prod <= 5
    ensures |t.kids| == |Rhs(t.prod)| && t.kids[0].Leaf?
    ensures Yield(t) == [t.kids[0].lex] + (Yield(t.kids[1]) + Yields(t.kids[2..]))
    ensures Code(t.kids[0].lex) == (if t.prod <= 3 then T_SELECT else T_DELETE)
    ensures forall i :: 0 <= i < |t.kids| ==> Valid(t.kids[i]) && Root(t.kids[i]) == Rhs(t.prod)[i]
    ensures LookAhead(Yield(t.kids[1]) + Yields(t.kids[2..])) in First(Rhs(t.prod)[1])
    ensures EndsTags(Yields(t.kids[2..]))
  {
    hide First;
    KidsOf(t.prod, t.kids);
    var kids := t.kids;
    LeafYield(kids[0]);
    assert kids == [kids[0]] + kids[1..] && kids[1..] == [kids[1]] + kids[2..];
    YieldsAppend([kids[0]], kids[1..]);
    YieldsAppend([kids[1]], kids[2..]);
    OneYield(kids[0]);
    OneYield(kids[1]);
    TreeLook(kids[1], Yields(kids[2..]));
    RestEndsTags(t);
  }

  lemma RestEndsTags(t: Tree)
    requires Valid(t) && t.Node? && 1 <= t.prod <= 5 && |t.kids| == |Rhs(t.prod)|
    requires forall i :: 0 <= i < |t.kids| ==> Valid(t.kids[i]) && Root(t.kids[i]) == Rhs(t.prod)[i]
    ensures EndsTags(Yields(t.kids[2..]))
  {
    var kids := t.kids;
    TreeLook(kids[2], Yields(kids[3..]));
    assert kids[2..] == [kids[2]] + kids[3..];
    YieldsAppend([kids[2]], kids[3..]);
    OneYield(kids[2]);
  }

  /** The query record of a derivation tree, by the tokens it derives. */
  lemma TreeTokens(t: Tree)
    requires Valid(t) && Root(t) == N_QUERY
    ensures var q, input := Effect(t, EMPTY_QUERY), Yield(t);
            && |input| >= 2 && q.qtype == TypeOf(input) && (q.distinct <==> DistinctOf(input))
            && q.contents == CleanAll(TagsOf(input)) && q.keys == KeysOf(input)
  {
    hide KeysOf, TagTexts, CleanAll;
    TreeKeys(t, Plain, EMPTY_QUERY);
    AllKeys(Yield(t));
    RootSign(t);
    QueryProductions(t.prod);
    QueryText(t);
    if t.prod <= 2 {
      SelectTokens(t);
    } else {
      OtherTokens(t);
    }
  }

  lemma QueryProductions(p: int)
    requires 1 <= p <= PRODUCTIONS && Lhs(p) == N_QUERY
    ensures p <= 5
  {
  }

  lemma AllKeys(input: seq<Lexeme>)
    ensures KeysFrom(Plain, input) == KeysOf(input)
  {
    KeysAre(input, |input|);
    assert input[..|input|] == input;
  }

  // The effects of the kids of a query: the second one's, and the keys of the others.
  lemma SecondKid(kids: seq<Tree>, q: Query)
    requires |kids| > 1 && kids[0].Leaf?
    requires forall i :: 1 < i < |kids| ==> Valid(kids[i]) && Inner(Root(kids[i]))
    ensures Effects(kids, q) == Effect(kids[1], q).(keys := Effects(kids, q).keys)
  {
    hide Inner, NodeEffect;
    assert kids == [kids[0]] + ([kids[1]] + kids[2..]);
    assert kids[1..] == [kids[1]] + kids[2..] && kids[1..][1..] == kids[2..];
    InnerKids(kids[2..], Effect(kids[1], q));
  }

  lemma SelectTokens(t: Tree)
    requires Valid(t) && t.Node? && 1 <= t.prod <= 2
    ensures var q, input := Effect(t, EMPTY_QUERY), Yield(t);
            && |input| >= 2 && q.qtype == TypeOf(input) && (q.distinct <==> DistinctOf(input))
            && q.contents == CleanAll(TagsOf(input))
  {
    hide TagTexts, CleanAll, DictOf, TextsOf;
    QueryText(t);
    SecondKid(t.kids, EMPTY_QUERY);
    var text := Yield(t.kids[1]) + Yields(t.kids[2..]);
    SelectorIs(t.kids[1], Yields(t.kids[2..]), EMPTY_QUERY);
    assert Yield(t)[1] == text[0] && Yield(t)[1..] == text && Yield(t)[2..] == text[1..];
  }

  lemma SecondSymbol(p: int)
    requires 3 <= p <= 5
    ensures |Rhs(p)| >= 3 && Rhs(p)[1] == (if p == 5 then N_WHERECLAUSE else N_DATACLAUSE)
    ensures forall i :: 1 < i < |Rhs(p)| ==> Inner(Rhs(p)[i])
  {
  }

  lemma RootFields(p: int, kids: seq<Tree>, q: Query)
    requires 3 <= p <= 5 && |kids| == |Rhs(p)|
    ensures var q' := NodeEffect(p, kids, q);
            && q'.qtype == (if p == 3 then 3 else 2) && q'.distinct == q.distinct
            && q'.contents == if p == 5 then [] else q.contents
  {
    hide DictOf;
  }

  lemma OtherTokens(t: Tree)
    requires Valid(t) && t.Node? && 3 <= t.prod <= 5
    ensures var q, input := Effect(t, EMPTY_QUERY), Yield(t);
            && |input| >= 2 && q.qtype == TypeOf(input) && (q.distinct <==> DistinctOf(input))
            && q.contents == CleanAll(TagsOf(input))
  {
    hide TagTexts, NodeEffect, Rhs;
    QueryText(t);
    SecondSymbol(t.prod);
    RootFields(t.prod, t.kids, Effects(t.kids, EMPTY_QUERY));
    SecondKid(t.kids, EMPTY_QUERY);
    InnerOnlyKeys(t.kids[1], EMPTY_QUERY);
    var text := Yield(t.kids[1]) + Yields(t.kids[2..]);
    assert text != [] && Yield(t)[1] == text[0];
  }

  /**
   What an accepted query leaves in the query record, from its tokens alone: the type, whether it asks for
   distinct values, the tags it returns, and the keys that occur in it.
   */
  lemma AcceptedTokens(input: seq<Lexeme>)
    requires Lexed(input) && Parsing.Parse(input).Some?
    ensures var q := Effect(Parsing.Parse(input).value, EMPTY_QUERY);
            && |input| >= 2 && q.qtype == TypeOf(input) && (q.distinct <==> DistinctOf(input))
            && q.contents == CleanAll(TagsOf(input)) && q.keys == KeysOf(input)
  {
    hide TypeOf, DistinctOf, TagsOf, KeysOf, CleanAll;
    ParseExact(input, Parsing.Parse(input).value);
    TreeTokens(Parsing.Parse(input).value);
  }
}
