/**
 The shift-reduce driver (querylang/query.go:553-724) as a step function on configurations, with
 the trees it builds kept beside the states.  Proved here for every token sequence: the driver
 halts, it accepts exactly the sequences the grammar derives, and the tree it builds is the only
 one.
 */
module Parsing {
  import opened Wrappers
  import opened ParseTables
  import opened Grammar
  import opened Automaton
  import opened AutomatonChecks

  datatype Entry = Entry(state: int, tree: Tree)

  // The stack above the start state 0, and the lexemes not yet shifted.
  datatype Config = Config(stack: seq<Entry>, input: seq<Lexeme>)

  datatype Outcome = Running(next: Config) | Accepted(tree: Tree) | Failed

  function StateAt(stack: seq<Entry>, n: nat): int
    requires n <= |stack|
  {
    if n == 0 then 0 else stack[n - 1].state
  }

  function Top(stack: seq<Entry>): int {
    StateAt(stack, |stack|)
  }

  function Trees(stack: seq<Entry>): (ts: seq<Tree>)
    ensures |ts| == |stack|
    ensures forall i :: 0 <= i < |ts| ==> ts[i] == stack[i].tree
  {
    if stack == [] then [] else Trees(stack[..|stack| - 1]) + [stack[|stack| - 1].tree]
  }

  // The stack after a reduction by p: the right-hand side gives way to one tree.
  function Reduced(stack: seq<Entry>, p: int): seq<Entry>
    requires 0 <= R2(p) <= |stack|
  {
    var base := stack[..|stack| - R2(p)];
    base + [Entry(GotoTo(Top(base), R1(p)), Node(p, Trees(stack[|stack| - R2(p)..])))]
  }

  /** One turn of the driver: a shift, a reduction with its goto, accept, or the error abort. */
  function Step(c: Config): Outcome {
    var s := Top(c.stack);
    var t := LookAhead(c.input);
    var p := DefaultAction(s, t);
    if ShiftTo(s, t) != -1 && c.input != [] then
      Running(Config(c.stack + [Entry(ShiftTo(s, t), Leaf(c.input[0]))], c.input[1..]))
    else if p == 0 || c.stack == [] then Failed
    else if p < 0 then Accepted(c.stack[|c.stack| - 1].tree)
    else if 0 <= R2(p) <= |c.stack| then Running(Config(Reduced(c.stack, p), c.input))
    else Failed
  }

  // ---- what every configuration of a run satisfies ----

  predicate EntryOk(below: int, e: Entry) {
    0 < e.state < STATES && Linked(below, e.state) && Valid(e.tree) && Root(e.tree) == Chk(e.state)
  }

  predicate StackOk(stack: seq<Entry>) {
    forall i :: 0 <= i < |stack| ==> EntryOk(StateAt(stack, i), stack[i])
  }

  predicate ConfigOk(c: Config) {
    StackOk(c.stack) && Lexed(c.input)
  }

  // The token string the configuration stands for: the yields of the stacked trees, then the rest.
  function Text(c: Config): seq<Lexeme> {
    Yields(Trees(c.stack)) + c.input
  }

  lemma TopRange(stack: seq<Entry>, n: nat)
    requires StackOk(stack) && n <= |stack|
    ensures 0 <= StateAt(stack, n) < STATES
  {
    if n > 0 {
      assert EntryOk(StateAt(stack, n - 1), stack[n - 1]);
    }
  }

  lemma Push(stack: seq<Entry>, e: Entry)
    requires StackOk(stack) && EntryOk(Top(stack), e)
    ensures StackOk(stack + [e])
  {
    hide EntryOk;
    var st := stack + [e];
    forall i | 0 <= i < |st|
      ensures EntryOk(StateAt(st, i), st[i])
    {
      assert StateAt(st, i) == StateAt(stack, i);
      if i < |stack| {
        assert EntryOk(StateAt(stack, i), stack[i]);
      } else {
        assert st[i] == e;
      }
    }
  }

  lemma Pop(stack: seq<Entry>, n: nat)
    requires StackOk(stack) && n <= |stack|
    ensures StackOk(stack[..n]) && Top(stack[..n]) == StateAt(stack, n)
  {
    hide EntryOk;
    forall i | 0 <= i < n
      ensures EntryOk(StateAt(stack[..n], i), stack[..n][i])
    {
      assert EntryOk(StateAt(stack, i), stack[i]);
    }
  }

  // ---- shifts ----

  lemma ShiftLinks(s: int, t: int)
    requires 0 <= s < STATES && t >= 1 && ShiftTo(s, t) != -1
    ensures t != T_END && 0 < ShiftTo(s, t) < STATES && Chk(ShiftTo(s, t)) == t && Linked(s, ShiftTo(s, t))
  {
    hide Act, Chk, Pact, StatesWithBase, Below, GotoStates;
    var n := Pact(s) + t;
    CellChecked(n);
    BaseChecked(s);
    BaseChecked(0);
    BaseChecked(Act(n));
    assert s in StatesWithBase(n - t);
  }

  // ---- reductions ----

  lemma TrailStep(p: int, d: int, b: int)
    requires 1 <= p <= PRODUCTIONS && 1 <= d <= |Rhs(p)|
    ensures |Trail(p)| == |Rhs(p)| && 0 < Trail(p)[d - 1] < STATES && Chk(Trail(p)[d - 1]) == Rhs(p)[d - 1]
    ensures Linked(b, Trail(p)[d - 1]) ==> if d == 1 then HasGoto(b, Lhs(p)) else b == Trail(p)[d - 2]
  {
    hide Trail, Rhs, Lhs, Chk, Below, ShiftTo, GotoTo, GotoStates;
    FirstStepChecked(p);
    StepChecked(p, d - 1);
  }

  lemma EntryIs(below: int, e: Entry)
    requires EntryOk(below, e)
    ensures Linked(below, e.state) && Root(e.tree) == Chk(e.state)
  {
    hide Linked, Chk, Root;
  }

  // From a state with the dot of p behind d symbols, the stack holds those symbols, and below them
  // a state where p can begin.
  lemma {:induction false} BackTrack(stack: seq<Entry>, n: nat, p: int, d: nat)
    requires StackOk(stack) && n <= |stack|
    requires 1 <= p <= PRODUCTIONS && 1 <= d <= |Rhs(p)| == |Trail(p)|
    requires StateAt(stack, n) == Trail(p)[d - 1]
    ensures d <= n && HasGoto(StateAt(stack, n - d), Lhs(p))
    ensures forall j :: 0 <= j < d ==> Root(stack[n - d + j].tree) == Rhs(p)[j]
  {
    hide Trail, Rhs, Lhs, Chk, Linked, HasGoto, Root, EntryOk;
    TrailStep(p, d, 0);
    assert EntryOk(StateAt(stack, n - 1), stack[n - 1]);
    EntryIs(StateAt(stack, n - 1), stack[n - 1]);
    TrailStep(p, d, StateAt(stack, n - 1));
    if d > 1 {
      BackTrack(stack, n - 1, p, d - 1);
    }
  }

  lemma {:induction false} KidsValid(kids: seq<Tree>, p: int, d: nat)
    requires d + |kids| == |Rhs(p)|
    requires forall i :: 0 <= i < |kids| ==> Valid(kids[i]) && Root(kids[i]) == Rhs(p)[d + i]
    ensures ValidKids(kids, p, d)
  {
    hide Rhs, Root;
    if kids != [] {
      forall i | 0 <= i < |kids[1..]|
        ensures Valid(kids[1..][i]) && Root(kids[1..][i]) == Rhs(p)[d + 1 + i]
      {
        assert kids[1..][i] == kids[i + 1];
      }
      KidsValid(kids[1..], p, d + 1);
    }
  }

  // Where a reduction by p is due, its right-hand side is on the stack and the goto is defined.
  lemma ReduceFits(stack: seq<Entry>, p: int)
    requires StackOk(stack) && Def(Top(stack)) == p && p > 0
    ensures p <= PRODUCTIONS && R2(p) == |Rhs(p)| <= |stack| && R1(p) == -Lhs(p)
    ensures HasGoto(StateAt(stack, |stack| - |Rhs(p)|), Lhs(p))
    ensures forall j :: 0 <= j < |Rhs(p)| ==> Root(stack[|stack| - |Rhs(p)| + j].tree) == Rhs(p)[j]
  {
    hide Trail, Rhs, Lhs, Chk, Def, R1, R2, ShiftTo, GotoTo, GotoStates, Linked, HasGoto,
         Nullable, First, StackOk, EntryOk, Root;
    TopRange(stack, |stack|);
    DefaultChecked(Top(stack));
    ProductionChecked(p);
    FirstStepChecked(p);
    if |Rhs(p)| > 0 {
      BackTrack(stack, |stack|, p, |Rhs(p)|);
    }
  }

  // The trees of a right-hand side that lies on the stack make a valid node.
  lemma NodeValid(stack: seq<Entry>, n: nat, p: int)
    requires StackOk(stack) && n <= |stack| && 1 <= p <= PRODUCTIONS && n + |Rhs(p)| == |stack|
    requires forall j :: 0 <= j < |Rhs(p)| ==> Root(stack[n + j].tree) == Rhs(p)[j]
    ensures Valid(Node(p, Trees(stack[n..])))
  {
    hide Rhs, Lhs, Chk, Linked;
    var kids := Trees(stack[n..]);
    forall i | 0 <= i < |kids|
      ensures Valid(kids[i]) && Root(kids[i]) == Rhs(p)[i]
    {
      assert kids[i] == stack[n + i].tree;
      assert EntryOk(StateAt(stack, n + i), stack[n + i]);
    }
    KidsValid(kids, p, 0);
  }

  lemma ReduceLinks(stack: seq<Entry>, p: int)
    requires StackOk(stack) && Def(Top(stack)) == p && p > 0
    ensures 0 <= R2(p) <= |stack| && StackOk(Reduced(stack, p))
  {
    hide Rhs, Lhs, Chk, Def, R1, R2, GotoTo, Linked, HasGoto, Valid, StackOk;
    ReduceFits(stack, p);
    var n := |stack| - |Rhs(p)|;
    Pop(stack, n);
    NodeValid(stack, n, p);
    GotoChecked(StateAt(stack, n), Lhs(p));
    Push(stack[..n], Entry(GotoTo(StateAt(stack, n), R1(p)), Node(p, Trees(stack[n..]))));
  }

  lemma {:induction false} TreesSplit(stack: seq<Entry>, n: nat)
    requires n <= |stack|
    ensures Trees(stack) == Trees(stack[..n]) + Trees(stack[n..])
  {
  }

  lemma ReduceKeepsText(stack: seq<Entry>, p: int)
    requires 0 <= R2(p) <= |stack|
    ensures Yields(Trees(Reduced(stack, p))) == Yields(Trees(stack))
  {
    hide GotoTo, R1, R2;
    var n := |stack| - R2(p);
    var kids := Trees(stack[n..]);
    TreesSplit(stack, n);
    YieldsAppend(Trees(stack[..n]), kids);
    assert Trees(Reduced(stack, p)) == Trees(stack[..n]) + [Node(p, kids)];
    YieldsAppend(Trees(stack[..n]), [Node(p, kids)]);
    YieldOfNode(p, kids);
  }

  lemma YieldOfNode(p: int, kids: seq<Tree>)
    ensures Yields([Node(p, kids)]) == Yields(kids)
  {
    var one := [Node(p, kids)];
    assert one[1..] == [];
    assert Yield(one[0]) + Yields([]) == Yields(kids);
  }

  // ---- accept ----

  lemma DefaultIs(s: int, t: int)
    ensures Def(s) != -2 ==> DefaultAction(s, t) == Def(s)
    ensures s == 1 ==> DefaultAction(s, t) == if t == T_END then -1 else 0
  {
    DefaultChecked(1);
    assert ExcaState(1, 0) == 0;
    if t == T_END {
      assert ExcaToken(T_END, 2) == 2;
    } else {
      assert ExcaToken(t, 2) == ExcaToken(t, 4) == 4;
    }
  }

  // At accept the stack holds one tree, a query, and the input is used up.
  lemma AcceptFits(stack: seq<Entry>)
    requires StackOk(stack) && Top(stack) == 1
    ensures |stack| == 1 && Root(stack[0].tree) == N_QUERY && Valid(stack[0].tree)
  {
    var n := |stack| - 1;
    assert EntryOk(StateAt(stack, n), stack[n]);
    assert Below(1) == After(0) && Chk(1) == N_QUERY;
  }

  lemma LookAheadEnd(input: seq<Lexeme>)
    requires Lexed(input)
    ensures LookAhead(input) == T_END <==> input == []
    ensures LookAhead(input) >= 1
  {
  }

  // ---- the measure: tokens to come, then the weight of the stack ----

  const TOKEN_WEIGHT := 15

  function StackWeight(stack: seq<Entry>): nat {
    if stack == [] then 0
    else StackWeight(stack[..|stack| - 1]) + Weight(Root(stack[|stack| - 1].tree))
  }

  function Measure(c: Config): nat {
    TOKEN_WEIGHT * |c.input| + StackWeight(c.stack) + Pending(Top(c.stack))
  }

  lemma {:induction false} WeightOfRhs(stack: seq<Entry>, p: int, d: nat)
    requires d <= |stack| && d <= |Rhs(p)|
    requires forall j :: 0 <= j < d ==> Root(stack[|stack| - d + j].tree) == Rhs(p)[j]
    ensures StackWeight(stack) == StackWeight(stack[..|stack| - d]) + RhsWeight(p, d)
  {
    hide Rhs, Lhs, Weight;
    if d == 0 {
      assert stack[..|stack|] == stack;
    } else {
      var st := stack[..|stack| - 1];
      assert Root(stack[|stack| - d + (d - 1)].tree) == Rhs(p)[d - 1];
      WeightOfRhs(st, p, d - 1);
      assert st[..|st| - (d - 1)] == stack[..|stack| - d];
    }
  }

  lemma ShiftLowers(c: Config, e: Entry)
    requires c.input != [] && StackOk(c.stack) && EntryOk(Top(c.stack), e) && e.tree.Leaf? && e.tree.lex == c.input[0]
    ensures Measure(Config(c.stack + [e], c.input[1..])) < Measure(c)
  {
    hide Linked, Chk, Pending;
    var st := c.stack + [e];
    PendingChecked(e.state);
    assert st[..|st| - 1] == c.stack;
    assert Root(e.tree) >= 1;
    assert Weight(Root(e.tree)) == 10 && MaxPending(Root(e.tree)) == 4;
  }

  lemma ReduceLowers(stack: seq<Entry>, p: int)
    requires StackOk(stack) && Def(Top(stack)) == p && p > 0 && 0 <= R2(p) <= |stack|
    ensures StackWeight(Reduced(stack, p)) + Pending(Top(Reduced(stack, p))) <
            StackWeight(stack) + Pending(Top(stack))
  {
    hide Rhs, Lhs, Chk, Def, R1, R2, GotoTo, Linked, HasGoto, StackOk, Weight, Pending, RhsWeight, Reduced,
         PendingOk, WeightOk;
    ReduceFits(stack, p);
    var n := |stack| - |Rhs(p)|;
    var b := StateAt(stack, n);
    var g := GotoTo(b, R1(p));
    ReducedIs(stack, p, n);
    Pop(stack, n);
    GotoChecked(b, Lhs(p));
    PendingChecked(g);
    TopRange(stack, |stack|);
    PendingChecked(Top(stack));
    WeightChecked(p);
    WeightsFall(p, Top(stack), g);
    WeightOfRhs(stack, p, |Rhs(p)|);
    WeightOnTop(stack[..n], Entry(g, Node(p, Trees(stack[n..]))));
  }

  lemma ReducedIs(stack: seq<Entry>, p: int, n: nat)
    requires n <= |stack| && R2(p) == |stack| - n
    ensures Reduced(stack, p) == stack[..n] + [Entry(GotoTo(StateAt(stack, n), R1(p)), Node(p, Trees(stack[n..])))]
  {
    hide GotoTo, R1, R2;
  }

  // What a reduction by p in state s leaves weighs less, in state g behind it.
  lemma WeightsFall(p: int, s: int, g: int)
    requires p > 0 && Def(s) == p && Chk(g) == Lhs(p) && PendingOk(s) && PendingOk(g) && WeightOk(p)
    ensures Weight(Lhs(p)) + Pending(g) < RhsWeight(p, |Rhs(p)|) + Pending(s)
  {
    hide Rhs, Lhs, Chk, Def, Weight, Pending, MaxPending;
  }

  lemma WeightOnTop(stack: seq<Entry>, e: Entry)
    ensures StackWeight(stack + [e]) == StackWeight(stack) + Weight(Root(e.tree)) && Top(stack + [e]) == e.state
  {
    hide Weight, Root;
    var st := stack + [e];
    assert st[..|st| - 1] == stack;
  }

  // ---- one step ----

  /** A step keeps the configuration well formed and the text it stands for, and lowers the measure. */
  lemma StepProgress(c: Config)
    requires ConfigOk(c) && Step(c).Running?
    ensures ConfigOk(Step(c).next) && Text(Step(c).next) == Text(c)
    ensures Measure(Step(c).next) < Measure(c)
  {
    hide ShiftTo, Def, R2, Linked, Chk, StackOk, EntryOk, DefaultAction, Pending, StackWeight, Yields, Reduced;
    var s, t := Top(c.stack), LookAhead(c.input);
    TopRange(c.stack, |c.stack|);
    LookAheadEnd(c.input);
    if ShiftTo(s, t) != -1 && c.input != [] {
      var e := Entry(ShiftTo(s, t), Leaf(c.input[0]));
      ShiftStep(c, e);
    } else {
      DefaultIs(s, t);
      DefaultChecked(s);
      var p := DefaultAction(s, t);
      ReduceLinks(c.stack, p);
      ReduceKeepsText(c.stack, p);
      ReduceLowers(c.stack, p);
    }
  }

  lemma ShiftStep(c: Config, e: Entry)
    requires ConfigOk(c) && c.input != [] && ShiftTo(Top(c.stack), LookAhead(c.input)) != -1
    requires e == Entry(ShiftTo(Top(c.stack), LookAhead(c.input)), Leaf(c.input[0]))
    ensures ConfigOk(Config(c.stack + [e], c.input[1..]))
    ensures Text(Config(c.stack + [e], c.input[1..])) == Text(c)
    ensures Measure(Config(c.stack + [e], c.input[1..])) < Measure(c)
  {
    hide ShiftTo, Linked, Chk, StackOk;
    TopRange(c.stack, |c.stack|);
    LookAheadEnd(c.input);
    ShiftLinks(Top(c.stack), LookAhead(c.input));
    Push(c.stack, e);
    ShiftLowers(c, e);
    ShiftKeepsText(c, e);
  }

  lemma ShiftKeepsText(c: Config, e: Entry)
    requires c.input != [] && e.tree == Leaf(c.input[0])
    ensures Text(Config(c.stack + [e], c.input[1..])) == Text(c)
  {
    assert (c.stack + [e])[..|c.stack|] == c.stack;
    assert Trees(c.stack + [e]) == Trees(c.stack) + [e.tree];
    YieldsAppend(Trees(c.stack), [e.tree]);
    assert Yields([e.tree]) == [c.input[0]];
  }

  /** An accepted tree derives exactly the text of the configuration. */
  lemma StepAccepts(c: Config)
    requires ConfigOk(c) && Step(c).Accepted?
    ensures Derives(Step(c).tree, Text(c))
  {
    hide ShiftTo, Linked, Chk, StackOk, EntryOk, Def;
    var s, t := Top(c.stack), LookAhead(c.input);
    TopRange(c.stack, |c.stack|);
    LookAheadEnd(c.input);
    DefaultIs(s, t);
    DefaultChecked(s);
    AcceptFits(c.stack);
    var tree := c.stack[0].tree;
    assert Trees(c.stack) == [tree];
    assert Yields([tree]) == Yield(tree);
  }

  // ---- runs ----

  /** The whole run of the driver: the tree it accepts, or None for a syntax error. */
  function Run(c: Config): Option<Tree>
    requires ConfigOk(c)
    decreases Measure(c)
  {
    match Step(c)
    case Failed => None
    case Accepted(t) => Some(t)
    case Running(c') =>
      StepProgress(c);
      Run(c')
  }

  function Start(input: seq<Lexeme>): Config {
    Config([], input)
  }

  function Parse(input: seq<Lexeme>): Option<Tree>
    requires Lexed(input)
  {
    Run(Start(input))
  }

  // The number of turns the driver takes.
  function Turns(c: Config): nat
    requires ConfigOk(c)
    decreases Measure(c)
  {
    if Step(c).Running? then
      StepProgress(c);
      1 + Turns(Step(c).next)
    else 1
  }

  lemma {:induction false} TurnsBound(c: Config)
    requires ConfigOk(c)
    ensures Turns(c) <= Measure(c) + 1
    decreases Measure(c)
  {
    hide Step, Measure;
    if Step(c).Running? {
      StepProgress(c);
      TurnsBound(Step(c).next);
    }
  }

  /** Whatever the tokens, the driver stops after a number of turns linear in their number. */
  lemma DriverHalts(input: seq<Lexeme>)
    requires Lexed(input)
    ensures Turns(Start(input)) <= TOKEN_WEIGHT * |input| + 1
  {
    TurnsBound(Start(input));
  }

  lemma {:induction false} RunSound(c: Config)
    requires ConfigOk(c) && Run(c).Some?
    ensures Derives(Run(c).value, Text(c))
    decreases Measure(c)
  {
    hide Step, Measure, Text, Valid, Root;
    if Step(c).Running? {
      StepProgress(c);
      RunSound(Step(c).next);
    } else {
      StepAccepts(c);
    }
  }

  // ---- completeness: the driver finds every tree ----

  // State s holds production p with the dot behind d symbols.
  predicate Position(s: int, p: int, d: nat) {
    if d == 0 then HasGoto(s, Lhs(p)) else d <= |Trail(p)| && s == Trail(p)[d - 1]
  }

  lemma NextMove(s: int, p: int, d: nat)
    requires 1 <= p <= PRODUCTIONS && d <= |Rhs(p)| && Position(s, p, d)
    ensures |Trail(p)| == |Rhs(p)|
    ensures if d < |Rhs(p)| then Moves(s, Rhs(p)[d], Trail(p)[d]) else Reduces(s, p)
  {
    hide Rhs, Lhs, Trail, HasGoto, ShiftTo, GotoTo, Nullable, First, Chk, Below, Reduces, Moves;
    ProductionChecked(p);
    FirstStepChecked(p);
    if d == 0 {
      BeginsChecked(s, p);
    } else {
      StepChecked(p, d);
      CompleteChecked(p);
    }
  }

  lemma NoShiftAt(s: int, ts: seq<int>, k: nat, t: int)
    requires k <= |ts| && NoShift(s, ts, k) && t in ts[k..]
    ensures ShiftTo(s, t) == -1
    decreases |ts| - k
  {
    hide ShiftTo;
    if ts[k] != t {
      assert ts[k..][1..] == ts[k + 1..];
      NoShiftAt(s, ts, k + 1, t);
    }
  }

  lemma ReducesOn(s: int, p: int, t: int)
    requires Reduces(s, p) && t in Follow(Lhs(p))
    ensures ShiftTo(s, t) == -1 && Def(s) == p
  {
    hide Follow, Lhs, Def, Pact, Act, Chk;
    if Pact(s) > FLAG {
      assert Follow(Lhs(p))[0..] == Follow(Lhs(p));
      NoShiftAt(s, Follow(Lhs(p)), 0, t);
    }
  }

  // The first token of a valid tree followed by more text.
  lemma {:induction false} TreeLook(t: Tree, after: seq<Lexeme>)
    requires Valid(t)
    ensures LookAhead(Yield(t) + after) in First(Root(t)) || (Nullable(Root(t)) && Yield(t) == [])
    decreases t
  {
    match t
    case Leaf(l) => LeafLook(l, after);
    case Node(p, kids) =>
      hide Rhs, Lhs, First, Nullable, LookAhead, R1, R2;
      ProductionChecked(p);
      if kids != [] {
        TreeLook(kids[0], Yields(kids[1..]) + after);
        assert Yield(t) + after == Yield(kids[0]) + (Yields(kids[1..]) + after);
      }
  }

  lemma LeafLook(l: Lexeme, after: seq<Lexeme>)
    requires l.code > 0
    ensures LookAhead([l] + after) == Translate(l.code) && Translate(l.code) in First(Translate(l.code))
  {
  }

  // What can come next when the rest of a right-hand side is still to be read.
  lemma {:induction false} KidsLook(kids: seq<Tree>, p: int, d: nat, after: seq<Lexeme>)
    requires ValidKids(kids, p, d) && LookAhead(after) in Follow(Lhs(p))
    ensures LookAhead(Yields(kids) + after) in Next(p, d)
    decreases |kids|
  {
    hide Rhs, Lhs, First, Follow, Nullable, LookAhead;
    if kids == [] {
      assert Yields(kids) + after == after;
    } else {
      var rest := Yields(kids[1..]) + after;
      KidsLook(kids[1..], p, d + 1, after);
      TreeLook(kids[0], rest);
      assert Yields(kids) + after == Yield(kids[0]) + rest;
      NotNullableFirst(kids[0], rest);
    }
  }

  lemma NotNullableFirst(t: Tree, rest: seq<Lexeme>)
    ensures Yield(t) == [] ==> Yield(t) + rest == rest
  {
  }

  // The configuration after p has been recognised on top of base.
  function Recognised(base: seq<Entry>, p: int, kids: seq<Tree>, after: seq<Lexeme>): Config {
    Config(base + [Entry(GotoTo(Top(base), R1(p)), Node(p, kids))], after)
  }

  lemma RunStep(c: Config)
    requires ConfigOk(c) && Step(c).Running?
    ensures ConfigOk(Step(c).next) && Run(c) == Run(Step(c).next)
  {
    hide Step;
    StepProgress(c);
  }

  lemma RunReduce(stack: seq<Entry>, p: int, after: seq<Lexeme>)
    requires StackOk(stack) && 1 <= p <= PRODUCTIONS && Lexed(after)
    requires |Rhs(p)| <= |stack| && Reduces(Top(stack), p) && LookAhead(after) in Follow(Lhs(p))
    ensures var n := |stack| - |Rhs(p)|;
            var c' := Recognised(stack[..n], p, Trees(stack[n..]), after);
            ConfigOk(c') && Run(Config(stack, after)) == Run(c')
  {
    hide Def, ShiftTo, GotoTo, R1, R2, Rhs, Lhs, Follow, HasGoto, StackOk, Lexed, Measure, DefaultAction, Reduces,
         LookAhead;
    var c := Config(stack, after);
    ReducesOn(Top(stack), p, LookAhead(after));
    DefaultIs(Top(stack), LookAhead(after));
    StartFacts();
    ProductionChecked(p);
    assert Step(c) == Running(Config(Reduced(stack, p), after));
    RunStep(c);
  }

  lemma RunShift(stack: seq<Entry>, b: int, l: Lexeme, rest: seq<Lexeme>)
    requires StackOk(stack) && Lexed([l] + rest)
    requires ShiftTo(Top(stack), Translate(l.code)) == b != -1
    ensures var c' := Config(stack + [Entry(b, Leaf(l))], rest);
            ConfigOk(c') && Run(Config(stack, [l] + rest)) == Run(c')
  {
    hide Def, ShiftTo, GotoTo, StackOk, Lexed, Measure, DefaultAction;
    var c := Config(stack, [l] + rest);
    assert c.input[1..] == rest;
    assert Step(c) == Running(Config(stack + [Entry(b, Leaf(l))], rest));
    RunStep(c);
  }

  // A valid tree of a terminal is a leaf, one of a nonterminal is a node.
  lemma RootSign(t: Tree)
    requires Valid(t)
    ensures t.Leaf? <==> Root(t) > 0
    ensures t.Node? <==> Root(t) < 0
  {
    hide Rhs, Lhs, R1, R2, First, Nullable;
    if t.Node? {
      ProductionChecked(t.prod);
    }
  }

  lemma LexedAppend(a: seq<Lexeme>, b: seq<Lexeme>)
    requires Lexed(a) && Lexed(b)
    ensures Lexed(a + b)
  {
  }

  // One more symbol of a right-hand side: the trees done so far, and those to come.
  lemma OneMore(stack: seq<Entry>, d: nat, b: int, kids: seq<Tree>)
    requires d <= |stack| && kids != []
    ensures var n := |stack| - d;
            var st := stack + [Entry(b, kids[0])];
            st[..n] == stack[..n] && Trees(st[n..]) + kids[1..] == Trees(stack[n..]) + kids
  {
    var n := |stack| - d;
    var st := stack + [Entry(b, kids[0])];
    assert st[n..][..|stack| - n] == stack[n..];
    assert Trees(st[n..]) == Trees(stack[n..]) + [kids[0]];
  }

  lemma YieldsFirst(kids: seq<Tree>, after: seq<Lexeme>)
    requires kids != []
    ensures Yields(kids) + after == Yield(kids[0]) + (Yields(kids[1..]) + after)
  {
  }

  // Trees in the remaining positions of p are read one after the other, and p is recognised.
  lemma {:induction false} Complete(stack: seq<Entry>, p: int, d: nat, kids: seq<Tree>, after: seq<Lexeme>)
    requires StackOk(stack) && 1 <= p <= PRODUCTIONS && d <= |stack| && Position(Top(stack), p, d)
    requires ValidKids(kids, p, d) && Lexed(after) && LookAhead(after) in Follow(Lhs(p))
    ensures Lexed(Yields(kids) + after)
    ensures var n := |stack| - d;
            var c' := Recognised(stack[..n], p, Trees(stack[n..]) + kids, after);
            ConfigOk(c') && Run(Config(stack, Yields(kids) + after)) == Run(c')
    decreases kids
  {
    hide Rhs, Lhs, Follow, Trail, ShiftTo, GotoTo, HasGoto, R1, R2, StackOk, Lexed, Recognised, LookAhead, Step,
         Run, Reduces, Next;
    var n := |stack| - d;
    YieldsLexed(kids, p, d);
    LexedAppend(Yields(kids), after);
    NextMove(Top(stack), p, d);
    if kids == [] {
      assert Yields(kids) + after == after;
      assert Trees(stack[n..]) + kids == Trees(stack[n..]);
      RunReduce(stack, p, after);
    } else {
      var kid, rest, b := kids[0], Yields(kids[1..]) + after, Trail(p)[d];
      YieldsLexed(kids[1..], p, d + 1);
      LexedAppend(Yields(kids[1..]), after);
      YieldsFirst(kids, after);
      RootSign(kid);
      if kid.Leaf? {
        TrailStep(p, d + 1, 0);
        RunShift(stack, b, kid.lex, rest);
      } else {
        KidsLook(kids[1..], p, d + 1, after);
        FollowChecked(p, d);
        ProductionChecked(kid.prod);
        Complete(stack, kid.prod, 0, kid.kids, rest);
        NothingDone(stack, kid.prod, kid.kids, rest);
      }
      OneMore(stack, d, b, kids);
      Complete(stack + [Entry(b, kid)], p, d + 1, kids[1..], after);
    }
  }

  lemma NothingDone(stack: seq<Entry>, p: int, kids: seq<Tree>, after: seq<Lexeme>)
    ensures Recognised(stack[..|stack| - 0], p, Trees(stack[|stack| - 0..]) + kids, after)
         == Config(stack + [Entry(GotoTo(Top(stack), R1(p)), Node(p, kids))], after)
  {
    hide GotoTo, R1;
    assert stack[..|stack| - 0] == stack;
    assert Trees(stack[|stack| - 0..]) + kids == kids;
  }

  lemma ParseComplete(t: Tree, input: seq<Lexeme>)
    requires Derives(t, input) && Lexed(input)
    ensures Parse(input) == Some(t)
  {
    hide Rhs, Lhs, Trail, ShiftTo, R1, R2, Run, HasGoto, Follow, GotoTo;
    RootSign(t);
    StartFacts();
    ProductionChecked(t.prod);
    Complete([], t.prod, 0, t.kids, []);
    NothingDone([], t.prod, t.kids, []);
    assert Yields(t.kids) + [] == input;
    assert R1(t.prod) == 16 && t == Node(t.prod, t.kids);
    var empty: seq<Entry> := [];
    assert empty + [Entry(GotoTo(0, 16), t)] == [Entry(GotoTo(0, 16), t)];
    AcceptsQuery(t);
  }

  lemma StartFacts()
    ensures HasGoto(0, N_QUERY) && T_END in Follow(N_QUERY) && GotoTo(0, 16) == 1 && Def(0) == 0
  {
  }

  lemma AcceptsQuery(t: Tree)
    requires ConfigOk(Config([Entry(GotoTo(0, 16), t)], []))
    ensures Run(Config([Entry(GotoTo(0, 16), t)], [])) == Some(t)
  {
    hide GotoTo, ShiftTo, Def, Linked, Chk, DefaultAction;
    var c := Config([Entry(GotoTo(0, 16), t)], []);
    StartFacts();
    DefaultIs(1, T_END);
    if ShiftTo(1, T_END) != -1 {
      ShiftLinks(1, T_END);
    }
    assert Step(c) == Accepted(t);
  }

  // ---- main results ----

  /** The driver accepts a token sequence with a tree exactly when the grammar derives it by that tree. */
  lemma ParseExact(input: seq<Lexeme>, t: Tree)
    requires Lexed(input)
    ensures Parse(input) == Some(t) <==> Derives(t, input)
  {
    if Parse(input) == Some(t) {
      RunSound(Start(input));
      assert Text(Start(input)) == input;
    } else if Derives(t, input) {
      ParseComplete(t, input);
    }
  }

  /** No query has two derivations. */
  lemma Unambiguous(t: Tree, u: Tree)
    requires Valid(t) && Root(t) == N_QUERY && Valid(u) && Root(u) == N_QUERY && Yield(t) == Yield(u)
    ensures t == u
  {
    YieldLexed(t);
    ParseExact(Yield(t), t);
    ParseExact(Yield(t), u);
  }
}
