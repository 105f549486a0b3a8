/**
 Where-clauses, the filter dictionaries they compile to (querylang/query.y:310-390), and what both
 mean on a metadata record.  The compiled filter is evaluated the way the document store reads
 filter documents; "$neq" is read as "not equal".
 */
module Filters {
  // common.Dict as its entries, and the values an entry takes in a filter.
  datatype Dict = Empty | Field(key: string, value: Value, rest: Dict)

  datatype Value =
    | Str(str: string)
    | Flag(flag: bool)
    | Strs(strs: seq<string>)
    | Doc(doc: Dict)
    | Docs(docs: seq<Dict>)

  function Single(key: string, v: Value): Dict {
    Field(key, v, Empty)
  }

  // A metadata record: one string value per key.
  type Record = map<string, string>

  // The store's regular-expression match, its evaluation of a script on a record, and what it makes of
  // any other top-level operator.
  datatype Store = Store(like: (string, string) -> bool, script: (string, Record) -> bool,
                         other: (string, Value, Record) -> bool)

  // ---- where-clauses as the grammar groups them, with the raw text of their tokens ----

  datatype Term =
    | Like(key: string, text: string)
    | EqText(key: string, text: string)
    | EqNumber(key: string, number: string)
    | Neq(key: string, text: string)
    | Has(key: string)
    | Matches(text: string)
    | In(first: string, others: seq<string>, key: string)
    | NotIn(first: string, others: seq<string>, key: string)
    | Paren(inner: Term)

  datatype Where =
    | One(term: Term)
    | Not(term: Term)
    | And(left: Where, term: Term)
    | Or(left: Where, term: Term)

  // strings.Trim(s, "\"'")
  function TrimLeft(s: string): string {
    if s != [] && (s[0] == '"' || s[0] == '\'') then TrimLeft(s[1..]) else s
  }

  function TrimRight(s: string): string {
    if s != [] && (s[|s| - 1] == '"' || s[|s| - 1] == '\'') then TrimRight(s[..|s| - 1]) else s
  }

  function Trim(s: string): string {
    TrimRight(TrimLeft(s))
  }

  // cleantagstring: a trailing comma goes, and every '/' becomes '.'
  function Dotted(s: string): string {
    if s == [] then [] else [if s[0] == '/' then '.' else s[0]] + Dotted(s[1..])
  }

  function Clean(s: string): string {
    Dotted(if s != [] && s[|s| - 1] == ',' then s[..|s| - 1] else s)
  }

  function TrimAll(ss: seq<string>): seq<string> {
    if ss == [] then [] else [Trim(ss[0])] + TrimAll(ss[1..])
  }

  function Script(text: string): string {
    "JSON.stringify(this).match(new RegExp('" + text + "'))"
  }

  // The action of NOT: every entry v of the term's dictionary becomes {"$ne": v}.
  function Negated(d: Dict): Dict {
    match d
    case Empty => Empty
    case Field(k, v, rest) => Field(k, Doc(Single("$ne", v)), Negated(rest))
  }

  function CompileTerm(t: Term): Dict {
    match t
    case Like(k, v) => Single(Clean(k), Doc(Single("$regex", Str(Trim(v)))))
    case EqText(k, v) => Single(Clean(k), Str(Trim(v)))
    case EqNumber(k, n) => Single(Clean(k), Str(n))
    case Neq(k, v) => Single(Clean(k), Doc(Single("$neq", Str(Trim(v)))))
    case Has(k) => Single(Clean(k), Doc(Single("$exists", Flag(true))))
    case Matches(v) => Single("$where", Str(Script(Trim(v))))
    case In(f, o, k) => Single(Clean(k), Doc(Single("$in", Strs(TrimAll([f] + o)))))
    case NotIn(f, o, k) => Single(Clean(k), Doc(Single("$not", Doc(Single("$in", Strs(TrimAll([f] + o)))))))
    case Paren(u) => CompileTerm(u)
  }

  function Compile(w: Where): Dict {
    match w
    case One(t) => CompileTerm(t)
    case Not(t) => Negated(CompileTerm(t))
    case And(l, t) => Single("$and", Docs([Compile(l), CompileTerm(t)]))
    case Or(l, t) => Single("$or", Docs([Compile(l), CompileTerm(t)]))
  }

  // ---- the meaning of a filter document ----

  predicate Equals(r: Record, key: string, v: Value) {
    key in r && v == Str(r[key])
  }

  // One operator entry of the document that constrains key.
  predicate Operator(st: Store, r: Record, key: string, op: string, arg: Value)
    decreases arg, 1
  {
    if op == "$regex" then arg.Str? && key in r && st.like(arg.str, r[key])
    else if op == "$neq" || op == "$ne" then !Equals(r, key, arg)
    else if op == "$exists" then arg.Flag? && arg.flag == (key in r)
    else if op == "$in" then arg.Strs? && key in r && r[key] in arg.strs
    else if op == "$not" then arg.Doc? && !Operators(st, r, key, arg.doc)
    else false
  }

  predicate Operators(st: Store, r: Record, key: string, doc: Dict)
    decreases doc, 0
  {
    match doc
    case Empty => true
    case Field(op, arg, rest) => Operator(st, r, key, op, arg) && Operators(st, r, key, rest)
  }

  // The store reads a key that begins with '$' as an operator.
  predicate OperatorKey(key: string) {
    key != "" && key[0] == '$'
  }

  predicate Entry(st: Store, r: Record, key: string, v: Value)
    decreases v, 1
  {
    if key == "$and" then v.Docs? && forall i :: 0 <= i < |v.docs| ==> Filter(st, r, v.docs[i])
    else if key == "$or" then v.Docs? && exists i :: 0 <= i < |v.docs| && Filter(st, r, v.docs[i])
    else if key == "$where" then v.Str? && st.script(v.str, r)
    else if OperatorKey(key) then st.other(key, v, r)
    else if v.Doc? then Operators(st, r, key, v.doc)
    else Equals(r, key, v)
  }

  /** The record passes the filter. */
  predicate Filter(st: Store, r: Record, d: Dict)
    decreases d, 0
  {
    match d
    case Empty => true
    case Field(key, v, rest) => Entry(st, r, key, v) && Filter(st, r, rest)
  }

  // ---- the boolean reading of a where-clause ----

  predicate HoldsTerm(st: Store, r: Record, t: Term) {
    match t
    case Like(k, v) => Clean(k) in r && st.like(Trim(v), r[Clean(k)])
    case EqText(k, v) => Clean(k) in r && r[Clean(k)] == Trim(v)
    case EqNumber(k, n) => Clean(k) in r && r[Clean(k)] == n
    case Neq(k, v) => !(Clean(k) in r && r[Clean(k)] == Trim(v))
    case Has(k) => Clean(k) in r
    case Matches(v) => st.script(Script(Trim(v)), r)
    case In(f, o, k) => Clean(k) in r && r[Clean(k)] in TrimAll([f] + o)
    case NotIn(f, o, k) => !(Clean(k) in r && r[Clean(k)] in TrimAll([f] + o))
    case Paren(u) => HoldsTerm(st, r, u)
  }

  predicate Holds(st: Store, r: Record, w: Where) {
    match w
    case One(t) => HoldsTerm(st, r, t)
    case Not(t) => !HoldsTerm(st, r, t)
    case And(l, t) => Holds(st, r, l) && HoldsTerm(st, r, t)
    case Or(l, t) => Holds(st, r, l) || HoldsTerm(st, r, t)
  }

  // ---- compilation preserves meaning ----

  function TermKey(t: Term): string {
    match t
    case Like(k, _) => Clean(k)
    case EqText(k, _) => Clean(k)
    case EqNumber(k, _) => Clean(k)
    case Neq(k, _) => Clean(k)
    case Has(k) => Clean(k)
    case Matches(_) => ""
    case In(_, _, k) => Clean(k)
    case NotIn(_, _, k) => Clean(k)
    case Paren(u) => TermKey(u)
  }

  // The key is not one that the store reads as an operator.
  predicate Plain(t: Term) {
    !OperatorKey(TermKey(t))
  }

  predicate PlainKeys(w: Where) {
    match w
    case One(t) => Plain(t)
    case Not(t) => Plain(t)
    case And(l, t) => PlainKeys(l) && Plain(t)
    case Or(l, t) => PlainKeys(l) && Plain(t)
  }

  function Core(t: Term): (u: Term)
    ensures !u.Paren?
  {
    match t
    case Paren(u) => Core(u)
    case _ => t
  }

  // What NOT may stand in front of: an equality, or a pattern that decides nothing.
  ghost predicate Negatable(st: Store, t: Term) {
    match Core(t)
    case EqText(_, _) => true
    case EqNumber(_, _) => true
    case Like(_, v) => forall s: string :: !st.like(Trim(v), s)
    case Matches(v) => forall r: Record :: st.script(Script(Trim(v)), r)
    case _ => false
  }

  ghost predicate NotsNegatable(st: Store, w: Where) {
    match w
    case One(_) => true
    case Not(t) => Negatable(st, t)
    case And(l, _) => NotsNegatable(st, l)
    case Or(l, _) => NotsNegatable(st, l)
  }

  // A filter with one field that constrains a key by one operator.
  lemma OneOperator(st: Store, r: Record, k: string, op: string, arg: Value)
    requires !OperatorKey(k)
    ensures Filter(st, r, Single(k, Doc(Single(op, arg)))) <==> Operator(st, r, k, op, arg)
  {
    assert Operators(st, r, k, Single(op, arg)) <==> Operator(st, r, k, op, arg);
    assert Entry(st, r, k, Doc(Single(op, arg))) <==> Operator(st, r, k, op, arg);
  }

  lemma {:induction false} TermMeaning(st: Store, r: Record, t: Term)
    requires Plain(t)
    ensures Filter(st, r, CompileTerm(t)) <==> HoldsTerm(st, r, t)
  {
    match t
    case Paren(u) => TermMeaning(st, r, u);
    case Like(k, v) => OneOperator(st, r, Clean(k), "$regex", Str(Trim(v)));
    case EqText(_, _) =>
    case EqNumber(_, _) =>
    case Neq(k, v) => OneOperator(st, r, Clean(k), "$neq", Str(Trim(v)));
    case Has(k) => OneOperator(st, r, Clean(k), "$exists", Flag(true));
    case Matches(_) =>
    case In(f, o, k) => OneOperator(st, r, Clean(k), "$in", Strs(TrimAll([f] + o)));
    case NotIn(f, o, k) =>
      var arg := Strs(TrimAll([f] + o));
      OneOperator(st, r, Clean(k), "$not", Doc(Single("$in", arg)));
      assert Operators(st, r, Clean(k), Single("$in", arg)) <==> Operator(st, r, Clean(k), "$in", arg);
  }

  lemma {:induction false} CoreMeaning(st: Store, r: Record, t: Term)
    ensures HoldsTerm(st, r, Core(t)) <==> HoldsTerm(st, r, t)
    ensures CompileTerm(Core(t)) == CompileTerm(t) && TermKey(Core(t)) == TermKey(t)
  {
    match t
    case Paren(u) => CoreMeaning(st, r, u);
    case _ =>
  }

  // A negated term other than an equality passes whatever the record holds.
  lemma NegatedIgnores(st: Store, r: Record, t: Term)
    requires Plain(t) && !t.Paren? && !t.EqText? && !t.EqNumber?
    ensures Filter(st, r, Negated(CompileTerm(t))) <==> !t.Matches?
  {
    var Field(k, v, _) := CompileTerm(t);
    assert Negated(CompileTerm(t)) == Single(k, Doc(Single("$ne", v)));
    if !t.Matches? {
      OneOperator(st, r, k, "$ne", v);
    }
  }

  lemma NegatedEquality(st: Store, r: Record, t: Term)
    requires Plain(t) && (t.EqText? || t.EqNumber?)
    ensures Filter(st, r, Negated(CompileTerm(t))) <==> !HoldsTerm(st, r, t)
  {
    var Field(k, v, _) := CompileTerm(t);
    assert Negated(CompileTerm(t)) == Single(k, Doc(Single("$ne", v)));
    OneOperator(st, r, k, "$ne", v);
  }

  lemma NotMeaning(st: Store, r: Record, t: Term)
    requires Plain(t)
    ensures Filter(st, r, Negated(CompileTerm(t))) <==>
            if Core(t).EqText? || Core(t).EqNumber? then !HoldsTerm(st, r, t) else !Core(t).Matches?
  {
    CoreMeaning(st, r, t);
    if Core(t).EqText? || Core(t).EqNumber? {
      NegatedEquality(st, r, Core(t));
    } else {
      NegatedIgnores(st, r, Core(t));
    }
  }

  ghost predicate NegatesOn(st: Store, r: Record, t: Term) {
    Filter(st, r, Negated(CompileTerm(t))) <==> !HoldsTerm(st, r, t)
  }

  /** NOT over a term means its negation on every record exactly when the term is negatable. */
  lemma NotExact(st: Store, t: Term)
    requires Plain(t)
    ensures (forall r: Record :: NegatesOn(st, r, t)) <==> Negatable(st, t)
  {
    if Negatable(st, t) {
      forall r: Record
        ensures NegatesOn(st, r, t)
      {
        NotMeaning(st, r, t);
        CoreMeaning(st, r, t);
      }
    } else {
      var r := Witness(st, Core(t));
      NotMeaning(st, r, t);
      CoreMeaning(st, r, t);
      assert !NegatesOn(st, r, t);
    }
  }

  // A record on which a term that is not negatable tells NOT apart from negation.
  ghost function Witness(st: Store, u: Term): (r: Record)
    requires !u.Paren? && !Negatable(st, u)
    ensures HoldsTerm(st, r, u) <==> !u.Matches?
  {
    match u
    case Like(k, v) =>
      var s: string :| st.like(Trim(v), s);
      map[Clean(k) := s]
    case Has(k) => map[Clean(k) := ""]
    case In(f, o, k) =>
      assert TrimAll([f] + o)[0] == Trim(f);
      map[Clean(k) := Trim(f)]
    case Matches(v) =>
      var r: Record :| !st.script(Script(Trim(v)), r);
      r
    case Neq(_, _) => map[]
    case NotIn(_, _, _) => map[]
  }

  /**
   A where-clause whose NOT stands before a negatable term compiles to a filter that passes exactly
   the records on which the clause is true, records without the key included.
   */
  lemma {:induction false} CompileMeaning(st: Store, r: Record, w: Where)
    requires PlainKeys(w) && NotsNegatable(st, w)
    ensures Filter(st, r, Compile(w)) <==> Holds(st, r, w)
  {
    match w
    case One(t) => TermMeaning(st, r, t);
    case Not(t) =>
      NotExact(st, t);
      assert NegatesOn(st, r, t);
    case And(l, t) =>
      CompileMeaning(st, r, l);
      TermMeaning(st, r, t);
      TwoDocs(st, r, Compile(l), CompileTerm(t));
    case Or(l, t) =>
      CompileMeaning(st, r, l);
      TermMeaning(st, r, t);
      TwoDocs(st, r, Compile(l), CompileTerm(t));
  }

  lemma TwoDocs(st: Store, r: Record, a: Dict, b: Dict)
    ensures Filter(st, r, Single("$and", Docs([a, b]))) <==> Filter(st, r, a) && Filter(st, r, b)
    ensures Filter(st, r, Single("$or", Docs([a, b]))) <==> Filter(st, r, a) || Filter(st, r, b)
  {
    var ds := [a, b];
    assert ds[0] == a && ds[1] == b;
  }

  // The term means on every record, in every store, what its filter passes.
  ghost predicate KeepsMeaning(t: Term) {
    forall st: Store, r: Record :: Filter(st, r, CompileTerm(t)) <==> HoldsTerm(st, r, t)
  }

  // A store that matches every pattern and refuses every script and every other operator.
  function Refusing(): Store {
    Store((p: string, s: string) => true, (s: string, r: Record) => false, (k: string, v: Value, r: Record) => false)
  }

  // A record on which a term with a key is true in that store.
  function Satisfying(u: Term): Record
    requires !u.Paren?
  {
    match u
    case Like(k, _) => map[Clean(k) := ""]
    case EqText(k, v) => map[Clean(k) := Trim(v)]
    case EqNumber(k, n) => map[Clean(k) := n]
    case Has(k) => map[Clean(k) := ""]
    case In(f, _, k) => map[Clean(k) := Trim(f)]
    case _ => map[]
  }

  // A key that spells an operator: the filter passes no record, also where the term is true.
  lemma OperatorTermFails(t: Term)
    requires !Plain(t)
    ensures HoldsTerm(Refusing(), Satisfying(Core(t)), t)
    ensures forall r :: !Filter(Refusing(), r, CompileTerm(t))
  {
    var u, st, r := Core(t), Refusing(), Satisfying(Core(t));
    CoreMeaning(st, r, t);
    if u.In? {
      assert TrimAll([u.first] + u.others)[0] == Trim(u.first);
    }
    var Field(k, v, _) := CompileTerm(u);
    assert OperatorKey(k) && !v.Docs?;
  }

  /** A term compiles to a filter with its meaning if and only if its key does not spell an operator. */
  lemma PlainExact(t: Term)
    ensures KeepsMeaning(t) <==> Plain(t)
  {
    if Plain(t) {
      forall st: Store, r: Record
        ensures Filter(st, r, CompileTerm(t)) <==> HoldsTerm(st, r, t)
      {
        TermMeaning(st, r, t);
      }
    } else {
      OperatorTermFails(t);
      assert !Filter(Refusing(), Satisfying(Core(t)), CompileTerm(t));
    }
  }

  /** NOT before "has" is such a failure: the filter passes a record that has the key. */
  lemma NotHasFails(st: Store, k: string)
    requires !OperatorKey(Clean(k))
    ensures Filter(st, map[Clean(k) := ""], Compile(Not(Has(k))))
    ensures !Holds(st, map[Clean(k) := ""], Not(Has(k)))
  {
    NegatedIgnores(st, map[Clean(k) := ""], Has(k));
  }

  /** A key that spells an operator is another: the filter passes no record at all. */
  lemma OperatorKeyFails(st: Store, r: Record, v: string)
    ensures !Filter(st, r, Compile(One(EqText("$or", v))))
    ensures r == map["$or" := Trim(v)] ==> Holds(st, r, One(EqText("$or", v)))
  {
    assert Clean("$or") == "$or" by {
      assert Dotted("r") == "r";
      assert Dotted("or") == "or";
    }
  }

  // ---- terms as they are written, with quotes, slashes and all ----

  predicate IsQuote(c: char) {
    c == '"' || c == '\''
  }

  predicate AllQuotes(s: string) {
    forall i :: 0 <= i < |s| ==> IsQuote(s[i])
  }

  // No quote at either end.
  predicate Bare(s: string) {
    s == "" || (!IsQuote(s[0]) && !IsQuote(s[|s| - 1]))
  }

  lemma {:induction false} TrimLeftDrops(a: string, s: string)
    requires AllQuotes(a) && (s == "" || !IsQuote(s[0]))
    ensures TrimLeft(a + s) == s
  {
    if a == "" {
      assert a + s == s;
    } else {
      assert (a + s)[0] == a[0] && (a + s)[1..] == a[1..] + s;
      TrimLeftDrops(a[1..], s);
    }
  }

  lemma {:induction false} TrimRightDrops(s: string, b: string)
    requires AllQuotes(b) && (s == "" || !IsQuote(s[|s| - 1]))
    ensures TrimRight(s + b) == s
  {
    if b == "" {
      assert s + b == s;
    } else {
      var n := |s + b| - 1;
      assert (s + b)[n] == b[|b| - 1] && (s + b)[..n] == s + b[..|b| - 1];
      TrimRightDrops(s, b[..|b| - 1]);
    }
  }

  /** Trimming takes away the quotes at both ends, and nothing else. */
  lemma TrimExact(a: string, m: string, b: string)
    requires AllQuotes(a) && AllQuotes(b) && Bare(m)
    ensures Trim(a + m + b) == m
  {
    if m == "" {
      TrimLeftDrops(a + b, "");
      assert a + m + b == a + b + "";
    } else {
      TrimLeftDrops(a, m + b);
      TrimRightDrops(m, b);
      assert a + m + b == a + (m + b);
    }
  }

  // The name that a word of a query gives a key: every '/' is a '.', and one trailing ',' is gone.
  predicate Names(word: string, key: string) {
    && |key| == (if word != "" && word[|word| - 1] == ',' then |word| - 1 else |word|)
    && forall i :: 0 <= i < |key| ==> key[i] == if word[i] == '/' then '.' else word[i]
  }

  lemma {:induction false} DottedAt(s: string)
    ensures |Dotted(s)| == |s| && forall i :: 0 <= i < |s| ==> Dotted(s)[i] == if s[i] == '/' then '.' else s[i]
  {
    if s != "" {
      DottedAt(s[1..]);
    }
  }

  /** Cleaning a word gives the key that it names, position by position. */
  lemma CleanExact(word: string, key: string)
    ensures Clean(word) == key <==> Names(word, key)
  {
    var w := if word != [] && word[|word| - 1] == ',' then word[..|word| - 1] else word;
    DottedAt(w);
  }

  // The value, with quotes before and behind it, as a token has it.
  ghost predicate Quotes(token: string, value: string) {
    Bare(value) && exists a, b :: AllQuotes(a) && AllQuotes(b) && token == a + value + b
  }

  /** A value in double or in single quotes, as the lexer matches it. */
  lemma QuotedToken(value: string)
    requires Bare(value)
    ensures Quotes("\"" + value + "\"", value) && Quotes("'" + value + "'", value)
  {
    var d, s := "\"", "'";
    assert AllQuotes(d) && AllQuotes(s);
  }

  lemma QuotesTrim(token: string, value: string)
    requires Quotes(token, value)
    ensures Trim(token) == value
  {
    var a, b :| AllQuotes(a) && AllQuotes(b) && token == a + value + b;
    TrimExact(a, value, b);
  }

  /** What the filter of a term passes, in the words of the query and the fields of the record alone. */
  lemma WrittenMeaning(st: Store, r: Record, word: string, key: string, token: string, value: string)
    requires Names(word, key) && !OperatorKey(key) && Quotes(token, value)
    ensures Filter(st, r, CompileTerm(EqText(word, token))) <==> key in r && r[key] == value
    ensures Filter(st, r, CompileTerm(Neq(word, token))) <==> !(key in r && r[key] == value)
    ensures Filter(st, r, CompileTerm(Like(word, token))) <==> key in r && st.like(value, r[key])
    ensures Filter(st, r, CompileTerm(EqNumber(word, token))) <==> key in r && r[key] == token
    ensures Filter(st, r, CompileTerm(Has(word))) <==> key in r
    ensures Filter(st, r, CompileTerm(Matches(token))) <==>
            st.script("JSON.stringify(this).match(new RegExp('" + value + "'))", r)
  {
    hide Trim, Clean, Filter, Names, Quotes;
    CleanExact(word, key);
    QuotesTrim(token, value);
    TermMeaning(st, r, EqText(word, token));
    TermMeaning(st, r, Neq(word, token));
    TermMeaning(st, r, Like(word, token));
    TermMeaning(st, r, EqNumber(word, token));
    TermMeaning(st, r, Has(word));
    TermMeaning(st, r, Matches(token));
  }

  /** The documents that terms become, as they are sent to the store. */
  lemma WrittenFilter(word: string, key: string, token: string, value: string)
    requires Names(word, key) && Quotes(token, value)
    ensures CompileTerm(EqText(word, token)) == Field(key, Str(value), Empty)
    ensures CompileTerm(EqNumber(word, token)) == Field(key, Str(token), Empty)
    ensures CompileTerm(Neq(word, token)) == Field(key, Doc(Field("$neq", Str(value), Empty)), Empty)
    ensures CompileTerm(Like(word, token)) == Field(key, Doc(Field("$regex", Str(value), Empty)), Empty)
    ensures CompileTerm(Has(word)) == Field(key, Doc(Field("$exists", Flag(true), Empty)), Empty)
    ensures CompileTerm(In(token, [], word)) == Field(key, Doc(Field("$in", Strs([value]), Empty)), Empty)
  {
    hide Trim, Clean, Names, Quotes;
    CleanExact(word, key);
    QuotesTrim(token, value);
    assert [token] + [] == [token] && [token][1..] == [];
    assert TrimAll([token]) == [value];
  }

  /** A clause with every connective, and its document. */
  lemma WrittenClause()
    ensures var ab := Field("a", Doc(Field("$ne", Str("b"), Empty)), Empty);
            var has := Field("c.d", Doc(Field("$exists", Flag(true), Empty)), Empty);
            var like := Field("e", Doc(Field("$regex", Str("f"), Empty)), Empty);
            Compile(Or(And(Not(EqText("a", "\"b\"")), Has("c/d")), Like("e", "'f'"))) ==
            Field("$or", Docs([Field("$and", Docs([ab, has]), Empty), like]), Empty)
  {
    hide Trim, Clean;
    CleanExact("a", "a");
    CleanExact("c/d", "c.d");
    CleanExact("e", "e");
    QuotedToken("b");
    QuotedToken("f");
    var d, s := "\"", "'";
    assert d + "b" + d == "\"b\"" && s + "f" + s == "'f'";
    QuotesTrim("\"b\"", "b");
    QuotesTrim("'f'", "f");
  }

  lemma {:induction false} TrimAllQuotes(tokens: seq<string>, values: seq<string>)
    requires |tokens| == |values| && forall i :: 0 <= i < |values| ==> Quotes(tokens[i], values[i])
    ensures TrimAll(tokens) == values
  {
    hide Trim, Quotes;
    if tokens != [] {
      QuotesTrim(tokens[0], values[0]);
      TrimAllQuotes(tokens[1..], values[1..]);
      assert values == [values[0]] + values[1..];
    }
  }

  /** The same for lists of values. */
  lemma WrittenMembers(st: Store, r: Record, word: string, key: string, tokens: seq<string>, values: seq<string>)
    requires Names(word, key) && !OperatorKey(key) && tokens != []
    requires |tokens| == |values| && forall i :: 0 <= i < |values| ==> Quotes(tokens[i], values[i])
    ensures Filter(st, r, CompileTerm(In(tokens[0], tokens[1..], word))) <==> key in r && r[key] in values
    ensures Filter(st, r, CompileTerm(NotIn(tokens[0], tokens[1..], word))) <==> !(key in r && r[key] in values)
  {
    hide TrimAll, Clean, Filter, Names, Quotes;
    CleanExact(word, key);
    TrimAllQuotes(tokens, values);
    assert [tokens[0]] + tokens[1..] == tokens;
    TermMeaning(st, r, In(tokens[0], tokens[1..], word));
    TermMeaning(st, r, NotIn(tokens[0], tokens[1..], word));
  }
}
