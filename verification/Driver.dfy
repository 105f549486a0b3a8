/**
 The generated parser as it runs (querylang/query.go:553-1133): a loop over a value stack that
 grows by doubling, a one-token buffer, the compressed tables, and the semantic actions.  Every
 method is tied to the configurations of Parsing; the run as a whole returns 0 exactly for the
 token sequences the grammar derives, and leaves in the query what their tree says.
 */
module Driver {
  import opened Wrappers
  import opened ParseTables
  import opened Grammar
  import opened Automaton
  import opened AutomatonChecks
  import opened Parsing
  import opened Filters
  import opened Actions
  import QueryTokens

  const ZERO := SymVal(0, "", [], Empty)

  // sqLex: the tokens of the query string, and the query that the actions fill in.
  class Lexer {
    const input: seq<Lexeme>
    var pos: nat
    var query: Query
    var error: Option<string>

    constructor (input: seq<Lexeme>)
      ensures this.input == input && pos == 0 && query == EMPTY_QUERY && error == None
    {
      this.input := input;
      pos := 0;
      query := EMPTY_QUERY;
      error := None;
    }

    // The next token, or code 0 at the end; str is left alone at the end.
    method Lex(old_str: string) returns (code: int, str: string)
      requires pos <= |input| && Lexed(input)
      modifies this`pos
      ensures old(pos) < |input| ==>
                pos == old(pos) + 1 && code == input[old(pos)].code > 0 && str == input[old(pos)].text
      ensures old(pos) == |input| ==> pos == old(pos) && code == 0 && str == old_str
    {
      if pos == |input| {
        return 0, old_str;
      }
      code, str := input[pos].code, input[pos].text;
      pos := pos + 1;
    }
  }

  // The value stack holds, above the start state, the states and the values of the entries.
  ghost predicate Agrees(S: seq<SymVal>, stack: seq<Entry>) {
    && |stack| < |S|
    && S[0].yys == 0
    && forall i :: 0 <= i < |stack| ==> S[i + 1].yys == stack[i].state && Carries(S[i + 1], stack[i].tree)
  }

  // What is still to be shifted: the token in the buffer, if any, and the unread ones.
  ghost predicate Buffered(ch: int, token: int, lval: string, unread: seq<Lexeme>, input: seq<Lexeme>) {
    if ch < 0 then input == unread
    else if ch == 0 then token == T_END && input == [] == unread
    else token == Translate(ch) && input == [Lexeme(ch, lval)] + unread
  }

  // ---- the decisions of one turn ----

  lemma ShiftIs(s: int, t: int)
    ensures ShiftTo(s, t) == if Pact(s) > FLAG && 0 <= Pact(s) + t < LAST && Chk(Act(Pact(s) + t)) == t
                             then Act(Pact(s) + t) else -1
  {
    hide Pact, Chk, Act;
  }

  lemma Continues(c: Config)
    requires ConfigOk(c) && Step(c).Running?
    ensures ConfigOk(Step(c).next) && Run(Step(c).next) == Run(c) && Measure(Step(c).next) < Measure(c)
  {
    hide Step;
    StepProgress(c);
  }

  lemma Accepts(c: Config)
    requires ConfigOk(c) && Top(c.stack) == 1
    requires ShiftTo(1, LookAhead(c.input)) == -1 && DefaultAction(1, LookAhead(c.input)) < 0
    ensures Run(c).Some? && Effects(Trees(c.stack), EMPTY_QUERY) == Effect(Run(c).value, EMPTY_QUERY)
  {
    hide ShiftTo, DefaultAction, Chk, Linked, EntryOk, Effect;
    AcceptFits(c.stack);
    var tree := c.stack[0].tree;
    assert Step(c) == Accepted(tree);
    assert Trees(c.stack) == [tree];
    assert [tree][1..] == [];
  }

  lemma Fails(c: Config)
    requires ConfigOk(c)
    requires ShiftTo(Top(c.stack), LookAhead(c.input)) == -1 && DefaultAction(Top(c.stack), LookAhead(c.input)) == 0
    ensures Run(c) == None
  {
    hide ShiftTo, DefaultAction, StackOk;
    assert Step(c) == Failed;
  }

  // Only state 1 has exceptions: accept at the end marker, an error at any other token.
  lemma ExceptionIs(s: int, t: int)
    requires s == 1
    ensures ExcaState(s, 0) < 6 && ExcaToken(t, ExcaState(s, 0) + 2) < 6
    ensures ExceptionAction(s, t) == if t == T_END then -1 else 0
    ensures DefaultAction(s, t) == ExceptionAction(s, t)
  {
    assert ExcaState(1, 0) == 0;
    if t == T_END {
      assert ExcaToken(T_END, 2) == 2;
    } else {
      assert ExcaToken(t, 2) == ExcaToken(t, 4) == 4;
    }
    assert Def(1) == -2;
  }

  lemma Starts(input: seq<Lexeme>)
    requires Lexed(input)
    ensures ConfigOk(Start(input)) && Run(Start(input)) == Parsing.Parse(input)
    ensures Effects(Trees([]), EMPTY_QUERY) == EMPTY_QUERY
  {
  }

  // ---- the query along a run ----

  lemma ShiftedStep(c: Config, to: int)
    requires ConfigOk(c) && ShiftTo(Top(c.stack), LookAhead(c.input)) == to != -1
    ensures c.input != [] && c.input[0].code > 0
    ensures Step(c) == Running(Config(c.stack + [Entry(to, Leaf(c.input[0]))], c.input[1..]))
  {
    hide ShiftTo, DefaultAction, StackOk, Linked, Chk;
    TopRange(c.stack, |c.stack|);
    LookAheadEnd(c.input);
    ShiftLinks(Top(c.stack), LookAhead(c.input));
  }

  lemma AgreesSize(S: seq<SymVal>, stack: seq<Entry>)
    requires Agrees(S, stack)
    ensures |stack| < |S|
  {
  }

  // The value of a shifted token goes on top.
  lemma ShiftAgrees(S0: seq<SymVal>, stack: seq<Entry>, e: Entry, S: seq<SymVal>)
    requires Agrees(S0, stack) && |stack| + 1 < |S| && S[..|stack| + 1] == S0[..|stack| + 1]
    requires e.tree.Leaf? && S[|stack| + 1].yys == e.state && S[|stack| + 1].str == e.tree.lex.text
    requires e.tree.lex.code > 0
    ensures Agrees(S, stack + [e])
  {
    forall i | 0 <= i <= |stack|
      ensures S[i + 1].yys == (stack + [e])[i].state && Carries(S[i + 1], (stack + [e])[i].tree)
    {
      if i < |stack| {
        assert S[i + 1] == S[..|stack| + 1][i + 1] == S0[i + 1];
      }
    }
    assert S[0] == S[..|stack| + 1][0] == S0[0];
  }

  lemma PushEffect(stack: seq<Entry>, e: Entry, q: Query)
    ensures Effects(Trees(stack + [e]), q) == Effect(e.tree, Effects(Trees(stack), q))
  {
    assert (stack + [e])[..|stack|] == stack;
    assert Trees(stack + [e]) == Trees(stack) + [e.tree];
    EffectsAppend(Trees(stack), [e.tree], q);
    assert [e.tree][1..] == [];
  }

  lemma ReduceEffect(stack: seq<Entry>, p: int, q: Query)
    requires 0 <= R2(p) <= |stack|
    ensures Effects(Trees(Reduced(stack, p)), q)
         == NodeEffect(p, Trees(stack[|stack| - R2(p)..]), Effects(Trees(stack), q))
  {
    hide NodeEffect, R1, R2, GotoTo;
    var n := |stack| - R2(p);
    var kids := Trees(stack[n..]);
    TreesSplit(stack, n);
    EffectsAppend(Trees(stack[..n]), kids, q);
    PushEffect(stack[..n], Entry(GotoTo(Top(stack[..n]), R1(p)), Node(p, kids)), q);
  }

  // ---- values along a reduction ----

  lemma DollarCarries(S: seq<SymVal>, stack: seq<Entry>, n: nat)
    requires Agrees(S, stack) && n <= |stack|
    ensures AllCarry(S[n + 1..|stack| + 1], Trees(stack[n..]))
  {
    hide Carries;
    var d, kids := S[n + 1..|stack| + 1], Trees(stack[n..]);
    forall i | 0 <= i < |d|
      ensures Carries(d[i], kids[i])
    {
      assert d[i] == S[n + i + 1] && kids[i] == stack[n + i].tree;
    }
  }

  lemma ReduceAgrees(S: seq<SymVal>, stack: seq<Entry>, p: int, T: seq<SymVal>, v: SymVal)
    requires Agrees(S, stack) && 0 <= R2(p) <= |stack|
    requires var n := |stack| - R2(p);
             && n + 1 < |T| && T[..n + 1] == S[..n + 1]
             && T[n + 1] == v.(yys := GotoTo(Top(stack[..n]), R1(p)))
             && Carries(v, Node(p, Trees(stack[n..])))
    ensures Agrees(T, Reduced(stack, p))
  {
    hide R1, R2, GotoTo, StrOf, ListOf, DictOf;
    var n := |stack| - R2(p);
    var st := Reduced(stack, p);
    forall i | 0 <= i < |st|
      ensures T[i + 1].yys == st[i].state && Carries(T[i + 1], st[i].tree)
    {
      if i < n {
        assert T[i + 1] == T[..n + 1][i + 1] == S[i + 1] && st[i] == stack[i];
      }
    }
    assert T[0] == T[..n + 1][0] == S[0];
  }

  function Concat(a: Dict, b: Dict): Dict {
    match a
    case Empty => b
    case Field(k, v, rest) => Field(k, v, Concat(rest, b))
  }

  lemma {:induction false} ConcatAssoc(a: Dict, b: Dict, c: Dict)
    ensures Concat(Concat(a, b), c) == Concat(a, Concat(b, c))
    ensures Concat(a, Empty) == a
  {
    if a.Field? {
      ConcatAssoc(a.rest, b, c);
    }
  }

  // The loop of the NOT action.
  method Negate(d: Dict) returns (tmp: Dict)
    ensures tmp == Negated(d)
  {
    tmp := Empty;
    var rest := d;
    while rest.Field?
      invariant Concat(tmp, Negated(rest)) == Negated(d)
      decreases rest
    {
      var entry := Single(rest.key, Doc(Single("$ne", rest.value)));
      ConcatAssoc(tmp, entry, Negated(rest.rest));
      tmp := Concat(tmp, entry);
      rest := rest.rest;
    }
    ConcatAssoc(tmp, Empty, Empty);
  }

  class Parser {
    const lex: Lexer
    var S: seq<SymVal>
    var sp: int
    var state: int
    var ch: int
    var token: int
    var lval: string
    var VAL: SymVal
    ghost var cfg: Config

    constructor (lex: Lexer)
      ensures this.lex == lex && fresh(this)
    {
      this.lex := lex;
      S, sp, state := seq(16, _ => ZERO), -1, 0;
      ch, token, lval, VAL := -1, -1, "", ZERO;
      cfg := Config([], []);
    }

    // At the label sqnewstate: the parser stands for configuration cfg.
    ghost predicate At()
      reads this, lex
    {
      && ConfigOk(cfg)
      && Lexed(lex.input) && lex.pos <= |lex.input|
      && sp == |cfg.stack| && state == Top(cfg.stack)
      && Agrees(S, cfg.stack)
      && Buffered(ch, token, lval, lex.input[lex.pos..], cfg.input)
      && lex.query == Effects(Trees(cfg.stack), EMPTY_QUERY)
    }

    // The same, with the token in the buffer.
    ghost predicate AtToken()
      reads this, lex
    {
      At() && ch >= 0 && token == LookAhead(cfg.input)
    }

    // Fetch the look-ahead unless it is already there.
    method ReadToken()
      requires At()
      modifies this`ch, this`token, this`lval, lex`pos
      ensures AtToken()
    {
      hide Agrees, ConfigOk, Effects, Trees, Lexed;
      if ch < 0 {
        ch, lval := lex.Lex(lval);
        token := Translate(ch);
      }
    }

    // The label sqstack: push VAL with the current state, growing the stack when it is full.
    method Push()
      requires 0 <= sp + 1 <= |S| && |S| > 0
      modifies this`S, this`sp
      ensures sp == old(sp) + 1 && sp < |S|
      ensures S[..sp] == old(S)[..sp] && S[sp] == VAL.(yys := state)
    {
      sp := sp + 1;
      if sp >= |S| {
        S := S + seq(|S|, _ => ZERO);
      }
      S := S[sp := VAL.(yys := state)];
    }

    // A valid shift: the token goes onto the stack with the state it leads to.
    method Shift(to: int)
      requires AtToken() && ShiftTo(state, token) == to != -1
      modifies this
      ensures At() && Step(old(cfg)) == Running(cfg)
    {
      hide ShiftTo, DefaultAction, StackOk, Lexed, Valid, Linked, Chk, Effects, Trees, Agrees, Carries, Step,
           ConfigOk;
      ShiftedStep(cfg, to);
      AgreesSize(S, cfg.stack);
      assert ch > 0;
      ghost var e, S0 := Entry(to, Leaf(cfg.input[0])), S;
      ShiftStep(cfg, e);
      PushEffect(cfg.stack, e, EMPTY_QUERY);
      ch, token := -1, -1;
      VAL := ZERO.(str := lval);
      state := to;
      Push();
      ShiftAgrees(S0, cfg.stack, e, S);
      cfg := Config(cfg.stack + [e], cfg.input[1..]);
      assert state == Top(cfg.stack);
    }

    // The switch over the productions: it computes VAL and writes to the query.
    method RunAction(p: int, d: seq<SymVal>)
      requires |d| == |Rhs(p)|
      modifies this`VAL, lex`query
      ensures VAL == ActionValue(p, old(VAL), d) && lex.query == ActionQuery(p, d, old(lex.query))
    {
      lex.query := ActionQuery(p, d, lex.query);
      if p == 51 {
        var tmp := Negate(d[1].dict);
        VAL := VAL.(dict := tmp);
      } else {
        VAL := ActionValue(p, VAL, d);
      }
    }

    // The goto table is consulted for the state below the right-hand side.
    method Goto(below: int, n: int) returns (to: int)
      ensures to == GotoTo(below, n)
    {
      var g := Pgo(n);
      var j := g + below + 1;
      if j >= LAST {
        to := Act(g);
      } else {
        to := Act(j);
        if Chk(to) != -n {
          to := Act(g);
        }
      }
    }

    // A reduction by production p, with its action and its goto.
    method Reduce(p: int)
      requires At() && p > 0
      requires ShiftTo(state, LookAhead(cfg.input)) == -1 &&
               DefaultAction(state, LookAhead(cfg.input)) == Def(state) == p
      modifies this, lex`query
      ensures At() && Step(old(cfg)) == Running(cfg)
      ensures ch == old(ch) && token == old(token)
    {
      hide ShiftTo, DefaultAction, Def, StackOk, Lexed, Valid, Linked, Chk, Effects, GotoTo, R1, R2, Rhs, Lhs,
           ActionValue, ActionQuery, Carries, Buffered, EntryOk, NodeEffect, HasGoto, AllCarry, Trees;
      ghost var stack, S0 := cfg.stack, S;
      ReduceFits(stack, p);
      ReduceLinks(stack, p);
      ReduceEffect(stack, p, EMPTY_QUERY);
      ghost var n := |stack| - |Rhs(p)|;
      NodeValid(stack, n, p);
      DollarCarries(S, stack, n);

      var pt := sp;
      sp := sp - R2(p);
      var d := S[sp + 1..pt + 1];
      if sp + 1 >= |S| {
        S := S + seq(|S|, _ => ZERO);
      }
      VAL := S[sp + 1];
      state := Goto(S[sp].yys, R1(p));
      ActionCarries(p, VAL, d, Trees(stack[n..]));
      ActionWrites(p, d, Trees(stack[n..]), lex.query);
      RunAction(p, d);
      Push();
      ReduceAgrees(S0, stack, p, S, VAL);
      StartFacts();
      cfg := Config(Reduced(stack, p), cfg.input);
      assert state == Top(cfg.stack);
    }

    // The walk through the exception table for a state whose default depends on the token.
    method Exception() returns (n: int)
      requires ExcaState(state, 0) < 6 && ExcaToken(token, ExcaState(state, 0) + 2) < 6
      ensures n == ExceptionAction(state, token)
    {
      hide Exca;
      var xi: nat := 0;
      while !(Exca(xi) == -1 && Exca(xi + 1) == state)
        invariant xi <= ExcaState(state, 0) == ExcaState(state, xi)
        decreases 6 - xi
      {
        xi := xi + 2;
      }
      ghost var first := xi + 2;
      xi := xi + 2;
      n := Exca(xi);
      while !(n < 0 || n == token)
        invariant n == Exca(xi) && xi <= ExcaToken(token, first) == ExcaToken(token, xi)
        decreases 6 - xi
      {
        xi := xi + 2;
        n := Exca(xi);
      }
      n := Exca(xi + 1);
    }

    // The search for a state that can shift the error token: no state can, the stack is emptied.
    method Abort()
      requires -1 <= sp < |S|
      modifies this`sp
      ensures sp == -1
    {
      hide Act, Chk, Pact;
      while sp >= 0
        invariant -1 <= sp < |S|
      {
        var n := Pact(S[sp].yys) + 2;
        if 0 <= n < LAST {
          CellChecked(n);
          BaseChecked(Act(n));
          if Chk(Act(n)) == 2 {
            assert false;
          }
        }
        sp := sp - 1;
      }
    }

    // One turn from the label sqnewstate: on to the next one, or out with 0 or 1.
    method Turn() returns (ret: Option<int>)
      requires At()
      modifies this, lex
      ensures ret == None || ret == Some(0) || ret == Some(1)
      ensures ConfigOk(cfg) && (ret != None ==> cfg == old(cfg))
      ensures ret == None ==> At() && Step(old(cfg)) == Running(cfg)
      ensures ret == Some(0) ==> Run(cfg).Some? && lex.query == Effect(Run(cfg).value, EMPTY_QUERY)
      ensures ret == Some(1) ==> Run(cfg) == None && lex.error == Some("syntax error")
      ensures ret != Some(1) ==> lex.error == old(lex.error)
    {
      hide ShiftTo, DefaultAction, Def, Act, Chk, Pact, StackOk, Effects, Trees, Run, Measure,
           Exca, ExcaToken, ExcaState, ExceptionAction, LookAhead, Carries, Buffered, Step;
      var n := Pact(state);
      TopRange(cfg.stack, |cfg.stack|);
      ShiftIs(state, LookAhead(cfg.input));
      if n > FLAG {
        ReadToken();
        n := n + token;
        if 0 <= n < LAST {
          n := Act(n);
          if Chk(n) == token {
            CellChecked(Pact(state) + token);
            Shift(n);
            return None;
          }
        }
      }
      DefaultIs(state, LookAhead(cfg.input));
      DefaultChecked(state);
      n := Def(state);
      if n == -2 {
        ReadToken();
        ExceptionIs(state, token);
        n := Exception();
        if n < 0 {
          Accepts(cfg);
          return Some(0);
        }
      }
      if n == 0 {
        Fails(cfg);
        lex.error := Some("syntax error");
        Abort();
        return Some(1);
      }
      Reduce(n);
      return None;
    }

    /**
     The parser returns 0 exactly for the token sequences that the grammar derives.  It then leaves
     in the query the effect of the one tree they have, with the type, the distinct flag, the tags and the
     keys that the tokens say; otherwise it reports a syntax error.
     */
    method Parse() returns (ret: int)
      requires Lexed(lex.input) && lex.pos == 0 && lex.query == EMPTY_QUERY
      modifies this, lex
      ensures ret == match Parsing.Parse(lex.input) { case Some(_) => 0 case None => 1 }
      ensures ret == 0 ==>
                lex.query == Effect(Parsing.Parse(lex.input).value, EMPTY_QUERY) && lex.error == old(lex.error)
      ensures ret == 0 ==>
                && lex.query.qtype == QueryTokens.TypeOf(lex.input)
                && (lex.query.distinct <==> QueryTokens.DistinctOf(lex.input))
                && lex.query.contents == CleanAll(QueryTokens.TagsOf(lex.input))
                && lex.query.keys == QueryTokens.KeysOf(lex.input)
      ensures ret == 1 ==> lex.error == Some("syntax error")
    {
      hide QueryTokens.TypeOf, QueryTokens.DistinctOf, QueryTokens.TagsOf, QueryTokens.KeysOf, CleanAll;
      hide StackOk, Effects, Trees, Run, Measure, Carries, Step;
      S, sp, state := seq(16, _ => ZERO), -1, 0;
      ch, token, lval, VAL := -1, -1, "", ZERO;
      Push();
      cfg := Start(lex.input);
      Starts(lex.input);
      while true
        invariant At() && Run(cfg) == Parsing.Parse(lex.input)
        invariant lex.error == old(lex.error)
        decreases Measure(cfg)
      {
        ghost var c := cfg;
        var out := Turn();
        if out.Some? {
          if out.value == 0 {
            QueryTokens.AcceptedTokens(lex.input);
          }
          return out.value;
        }
        Continues(c);
      }
    }
  }
}
