/**
 The semantic actions of the grammar (querylang/query.y:57-390) for selectors, value lists and
 where-clauses: the value every stacked symbol carries, what the actions write to the query, and
 the where-clause a derivation tree stands for.
 */
module Actions {
  import opened Grammar
  import opened Filters

  // The fields of sqSymType that these actions read and write.
  datatype SymVal = SymVal(yys: int, str: string, list: seq<string>, dict: Dict)

  const SELECT_TYPE := 1
  const DELETE_TYPE := 2
  const DATA_TYPE := 3

  // The query under construction, and the raw keys met so far.
  datatype Query = Query(qtype: int, contents: seq<string>, distinct: bool, where: Dict, keys: set<string>)

  const EMPTY_QUERY := Query(0, [], false, Empty, {})

  // The value of $$ after the action of production p, when it holds v before; d[i] is $(i + 1).
  function ActionValue(p: int, v: SymVal, d: seq<SymVal>): SymVal
    requires |d| == |Rhs(p)|
  {
    match p
    case 6 | 9 => v.(list := [d[0].str])
    case 7 | 10 => v.(list := [d[0].str] + d[2].list)
    case 8 => v.(list := d[1].list)
    case 11 => v.(list := d[0].list)
    case 12 | 14 => v.(list := [])
    case 13 => v.(list := [d[1].str])
    case 37 => v.(dict := d[1].dict)
    case 38 => v.(dict := Single(d[0].str, Doc(Single("$regex", Str(d[2].str)))))
    case 39 | 40 => v.(dict := Single(d[0].str, Str(d[2].str)))
    case 41 => v.(dict := Single(d[0].str, Doc(Single("$neq", Str(d[2].str)))))
    case 42 => v.(dict := Single(d[1].str, Doc(Single("$exists", Flag(true)))))
    case 43 => v.(dict := Single("$where", Str(Script(d[1].str))))
    case 44 => v.(dict := Single(d[2].str, Doc(Single("$in", Strs(d[0].list)))))
    case 45 => v.(dict := Single(d[3].str, Doc(Single("$not", Doc(Single("$in", Strs(d[0].list)))))))
    case 46 => v.(dict := d[1].dict)
    case 47 => v.(str := Trim(d[0].str))
    case 48 => v.(str := Clean(d[0].str))
    case 49 => v.(dict := Single("$and", Docs([d[0].dict, d[2].dict])))
    case 50 => v.(dict := Single("$or", Docs([d[0].dict, d[2].dict])))
    case 51 => v.(dict := Negated(d[1].dict))
    case 52 => v.(dict := d[0].dict)
    case _ => v
  }

  // What the action of production p leaves of query q.
  function ActionQuery(p: int, d: seq<SymVal>, q: Query): Query
    requires |d| == |Rhs(p)|
  {
    match p
    case 1 => q.(contents := d[1].list, where := d[2].dict, qtype := SELECT_TYPE)
    case 2 => q.(contents := d[1].list, qtype := SELECT_TYPE)
    case 3 => q.(where := d[2].dict, qtype := DATA_TYPE)
    case 4 => q.(where := d[2].dict, qtype := DELETE_TYPE)
    case 5 => q.(contents := [], where := d[1].dict, qtype := DELETE_TYPE)
    case 11 => q.(contents := d[0].list)
    case 13 | 14 => q.(distinct := true)
    case 48 => q.(keys := q.keys + {d[0].str})
    case _ => q
  }

  // ---- the where-clause of a tree ----

  function TextOf(t: Tree): string {
    match t
    case Leaf(l) => l.text
    case Node(_, kids) => if kids == [] then "" else TextOf(kids[0])
  }

  function TextsOf(t: Tree): seq<string> {
    match t
    case Leaf(_) => []
    case Node(p, kids) =>
      if (p == 6 || p == 9) && |kids| == 1 then [TextOf(kids[0])]
      else if (p == 7 || p == 10) && |kids| == 3 then [TextOf(kids[0])] + TextsOf(kids[2])
      else if p == 8 && |kids| == 3 then TextsOf(kids[1])
      else if p == 11 && |kids| == 1 then TextsOf(kids[0])
      else if p == 13 && |kids| == 2 then [TextOf(kids[1])]
      else []
  }

  function TermOf(t: Tree): Term {
    match t
    case Leaf(_) => Has("")
    case Node(p, kids) =>
      if |kids| == 2 then (if p == 42 then Has(TextOf(kids[1])) else Matches(TextOf(kids[1])))
      else if |kids| == 3 then
        match p {
          case 38 => Like(TextOf(kids[0]), TextOf(kids[2]))
          case 39 => EqText(TextOf(kids[0]), TextOf(kids[2]))
          case 40 => EqNumber(TextOf(kids[0]), TextOf(kids[2]))
          case 41 => Neq(TextOf(kids[0]), TextOf(kids[2]))
          case 44 =>
            var texts := TextsOf(kids[0]);
            if texts == [] then Has("") else In(texts[0], texts[1..], TextOf(kids[2]))
          case _ => Paren(TermOf(kids[1]))
        }
      else if |kids| == 4 then
        var texts := TextsOf(kids[0]);
        if texts == [] then Has("") else NotIn(texts[0], texts[1..], TextOf(kids[3]))
      else Has("")
  }

  function WhereOf(t: Tree): Where {
    match t
    case Leaf(_) => One(Has(""))
    case Node(p, kids) =>
      if p == 52 && |kids| == 1 then One(TermOf(kids[0]))
      else if p == 51 && |kids| == 2 then Not(TermOf(kids[1]))
      else if p == 49 && |kids| == 3 then And(WhereOf(kids[0]), TermOf(kids[2]))
      else if p == 50 && |kids| == 3 then Or(WhereOf(kids[0]), TermOf(kids[2]))
      else if p == 37 && |kids| == 2 then WhereOf(kids[1])
      else One(Has(""))
  }

  // ---- what the actions compute, read off the tree ----

  // The string a terminal, a qstring or an lvalue carries.
  function StrOf(t: Tree): string {
    match t
    case Leaf(l) => l.text
    case Node(p, _) => if p == 47 then Trim(TextOf(t)) else Clean(TextOf(t))
  }

  function CleanAll(ss: seq<string>): seq<string> {
    if ss == [] then [] else [Clean(ss[0])] + CleanAll(ss[1..])
  }

  function ListOf(t: Tree): seq<string> {
    if Root(t) == N_VALUELIST || Root(t) == N_VALUELISTBRACK then TrimAll(TextsOf(t)) else CleanAll(TextsOf(t))
  }

  function DictOf(t: Tree): Dict {
    if Root(t) == N_WHERETERM then CompileTerm(TermOf(t)) else Compile(WhereOf(t))
  }

  function IsString(x: int): bool {
    x > 0 || x == N_QSTRING || x == N_LVALUE
  }

  function IsList(x: int): bool {
    x == N_SELECTOR || x == N_TAGLIST || x == N_VALUELIST || x == N_VALUELISTBRACK
  }

  function IsDict(x: int): bool {
    x == N_WHERELIST || x == N_WHERETERM || x == N_WHERECLAUSE
  }

  // The symbol value v carries what its tree says.
  predicate Carries(v: SymVal, t: Tree) {
    && (IsString(Root(t)) ==> v.str == StrOf(t))
    && (IsList(Root(t)) ==> v.list == ListOf(t))
    && (IsDict(Root(t)) ==> v.dict == DictOf(t))
  }

  predicate AllCarry(vs: seq<SymVal>, ts: seq<Tree>) {
    |vs| == |ts| && forall i :: 0 <= i < |vs| ==> Carries(vs[i], ts[i])
  }

  // The query after the actions of a whole tree, in the order the driver runs them.
  function Effect(t: Tree, q: Query): Query
    decreases t, 1
  {
    match t
    case Leaf(_) => q
    case Node(p, kids) => NodeEffect(p, kids, Effects(kids, q))
  }

  function Effects(ts: seq<Tree>, q: Query): Query
    decreases ts, 0
  {
    if ts == [] then q else Effects(ts[1..], Effect(ts[0], q))
  }

  // The part of the node itself, once its kids are done.
  function NodeEffect(p: int, kids: seq<Tree>, q: Query): Query {
    if |kids| != |Rhs(p)| then q else
    match p
    case 1 => q.(contents := ListOf(kids[1]), where := DictOf(kids[2]), qtype := SELECT_TYPE)
    case 2 => q.(contents := ListOf(kids[1]), qtype := SELECT_TYPE)
    case 3 => q.(where := DictOf(kids[2]), qtype := DATA_TYPE)
    case 4 => q.(where := DictOf(kids[2]), qtype := DELETE_TYPE)
    case 5 => q.(contents := [], where := DictOf(kids[1]), qtype := DELETE_TYPE)
    case 11 => q.(contents := ListOf(kids[0]))
    case 13 | 14 => q.(distinct := true)
    case 48 => q.(keys := q.keys + {TextOf(kids[0])})
    case _ => q
  }

  lemma {:induction false} EffectsAppend(a: seq<Tree>, b: seq<Tree>, q: Query)
    ensures Effects(a + b, q) == Effects(b, Effects(a, q))
  {
    if a == [] {
      assert a + b == b;
    } else {
      assert (a + b)[1..] == a[1..] + b;
      EffectsAppend(a[1..], b, Effect(a[0], q));
    }
  }

  // ---- the actions compute the attributes ----

  // What ValidKids says position by position.
  lemma KidAt(kids: seq<Tree>, p: int, d: nat, i: nat)
    requires ValidKids(kids, p, d) && i < |kids|
    ensures Valid(kids[i]) && d + i < |Rhs(p)| && Root(kids[i]) == Rhs(p)[d + i]
  {
    hide Rhs, Root, Valid;
    if i > 0 {
      KidAt(kids[1..], p, d + 1, i - 1);
    }
  }

  lemma KidsOf(p: int, kids: seq<Tree>)
    requires Valid(Node(p, kids))
    ensures 1 <= p <= PRODUCTIONS && |kids| == |Rhs(p)|
    ensures forall i :: 0 <= i < |kids| ==> Valid(kids[i]) && Root(kids[i]) == Rhs(p)[i]
  {
    hide Rhs, Root;
    forall i | 0 <= i < |kids|
      ensures Valid(kids[i]) && Root(kids[i]) == Rhs(p)[i]
    {
      KidAt(kids, p, 0, i);
    }
  }

  // Reading a string symbol: a terminal as it is, a qstring trimmed, an lvalue cleaned.
  lemma StringKid(t: Tree)
    requires Valid(t)
    ensures Root(t) > 0 ==> StrOf(t) == TextOf(t)
    ensures Root(t) == N_QSTRING ==> StrOf(t) == Trim(TextOf(t))
    ensures Root(t) == N_LVALUE ==> StrOf(t) == Clean(TextOf(t))
  {
    if t.Node? {
      KidsOf(t.prod, t.kids);
    }
  }

  lemma ListCons(x: string, xs: seq<string>)
    ensures TrimAll([x] + xs) == [Trim(x)] + TrimAll(xs) && CleanAll([x] + xs) == [Clean(x)] + CleanAll(xs)
    ensures TrimAll([x]) == [Trim(x)] && CleanAll([x]) == [Clean(x)]
  {
    assert ([x] + xs)[1..] == xs;
  }

  lemma {:induction false} SomeTexts(t: Tree)
    requires Valid(t) && (Root(t) == N_VALUELIST || Root(t) == N_VALUELISTBRACK || Root(t) == N_TAGLIST)
    ensures TextsOf(t) != []
  {
    KidsOf(t.prod, t.kids);
    if t.prod == 8 {
      SomeTexts(t.kids[1]);
    }
  }

  lemma ListActions(p: int, v: SymVal, d: seq<SymVal>, kids: seq<Tree>)
    requires 6 <= p <= 14 && Valid(Node(p, kids)) && AllCarry(d, kids)
    ensures Carries(ActionValue(p, v, d), Node(p, kids))
  {
    hide Trim, Clean;
    KidsOf(p, kids);
    match p
    case 6 | 9 => StringKid(kids[0]); ListCons(TextOf(kids[0]), []);
    case 7 | 10 => StringKid(kids[0]); ListCons(TextOf(kids[0]), TextsOf(kids[2]));
    case 13 => StringKid(kids[1]); ListCons(TextOf(kids[1]), []);
    case _ =>
  }

  lemma TermActions(p: int, v: SymVal, d: seq<SymVal>, kids: seq<Tree>)
    requires 38 <= p <= 43 && Valid(Node(p, kids)) && AllCarry(d, kids)
    ensures Carries(ActionValue(p, v, d), Node(p, kids))
  {
    hide Trim, Clean;
    KidsOf(p, kids);
    StringKid(kids[0]);
    StringKid(kids[1]);
    if p < 42 {
      StringKid(kids[2]);
    }
  }

  lemma MemberActions(p: int, v: SymVal, d: seq<SymVal>, kids: seq<Tree>)
    requires 44 <= p <= 48 && Valid(Node(p, kids)) && AllCarry(d, kids)
    ensures Carries(ActionValue(p, v, d), Node(p, kids))
  {
    hide Trim, Clean, TrimAll;
    KidsOf(p, kids);
    StringKid(kids[|kids| - 1]);
    if p <= 45 {
      SomeTexts(kids[0]);
      var texts := TextsOf(kids[0]);
      assert [texts[0]] + texts[1..] == texts;
    }
  }

  lemma WhereActions(p: int, v: SymVal, d: seq<SymVal>, kids: seq<Tree>)
    requires (p == 37 || 49 <= p <= 52) && Valid(Node(p, kids)) && AllCarry(d, kids)
    ensures Carries(ActionValue(p, v, d), Node(p, kids))
  {
    hide CompileTerm, Negated, TermOf, Valid, StrOf, ListOf;
    KidsOf(p, kids);
    assert Carries(d[|d| - 1], kids[|d| - 1]) && Carries(d[0], kids[0]);
  }

  /** After the action of p the value on the stack is the one the new tree stands for. */
  lemma ActionCarries(p: int, v: SymVal, d: seq<SymVal>, kids: seq<Tree>)
    requires Valid(Node(p, kids)) && AllCarry(d, kids)
    ensures Carries(ActionValue(p, v, d), Node(p, kids))
  {
    hide ActionValue, StrOf, ListOf, DictOf;
    if 6 <= p <= 14 {
      ListActions(p, v, d, kids);
    } else if 38 <= p <= 43 {
      TermActions(p, v, d, kids);
    } else if 44 <= p <= 48 {
      MemberActions(p, v, d, kids);
    } else if p == 37 || 49 <= p {
      WhereActions(p, v, d, kids);
    }
  }

  /** What the action writes to the query is the node's part of the effect of the tree. */
  lemma ActionWrites(p: int, d: seq<SymVal>, kids: seq<Tree>, q: Query)
    requires Valid(Node(p, kids)) && AllCarry(d, kids)
    ensures ActionQuery(p, d, q) == NodeEffect(p, kids, q)
  {
    hide StrOf, ListOf, DictOf;
    KidsOf(p, kids);
    if p == 48 {
      StringKid(kids[0]);
    }
  }
}
