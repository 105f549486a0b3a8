/**
 The automaton behind the tables, as goyacc lists it in querylang/y.output, and closed checks that
 the compressed tables agree with it.  A state is described by its place in the productions: the
 state reached after the first d symbols of production p is Trail(p)[d - 1], whatever came before.
 AutomatonChecks evaluates the checks.
 */
module Automaton {
  import opened ParseTables
  import opened Grammar

  // The states in which production p has its dot after the first, second, ... symbol.
  function Trail(p: int): (t: seq<int>) {
    match p
    case 1 => [2, 4, 19, 42]
    case 2 => [2, 4, 20]
    case 3 => [2, 5, 21, 43]
    case 4 => [3, 16, 31, 58]
    case 5 => [3, 17, 32]
    case 6 => [14]
    case 7 => [14, 30, 57]
    case 8 => [41, 70, 94]
    case 9 => [71]
    case 10 => [71, 95, 109]
    case 11 => [6]
    case 12 => [7]
    case 13 => [8, 22]
    case 14 => [8]
    case 15 => [9, 23, 44, 72, 96, 110, 119, 126, 131]
    case 16 => [9, 23, 45, 73, 97, 111, 120]
    case 17 => [10, 26, 53, 81, 104, 115, 122, 127, 132, 136, 139, 142, 145]
    case 18 => [11, 27, 54, 82, 105, 116, 123, 128, 133, 137, 140, 143, 146]
    case 19 => [12, 28, 55, 83, 106, 117, 124, 129, 134, 138, 141, 144, 147, 148]
    case 20 => [13, 29, 56, 84, 107, 118, 125, 130, 135]
    case 21 => [9, 24, 51, 77, 99]
    case 22 => [9, 25, 52, 80, 103]
    case 23 => [46]
    case 24 => [46, 74]
    case 25 => [47, 76]
    case 26 => [47]
    case 27 => [48]
    case 28 => [49]
    case 29 => [75, 98]
    case 30 => [75, 98, 112]
    case 32 => [78, 101]
    case 33 => [79, 102]
    case 34 => [78, 101, 114, 121]
    case 36 => [100, 113]
    case 37 => [18, 33]
    case 38 => [36, 62, 87]
    case 39 => [36, 63, 88]
    case 40 => [36, 63, 89]
    case 41 => [36, 64, 90]
    case 42 => [37, 65]
    case 43 => [38, 66]
    case 44 => [39, 67, 91]
    case 45 => [39, 68, 92, 108]
    case 46 => [40, 69, 93]
    case 47 => [50]
    case 48 => [15]
    case 49 => [33, 59, 85]
    case 50 => [33, 60, 86]
    case 51 => [34, 61]
    case 52 => [35]
    case _ => []
  }

  // The states with a goto on nonterminal a, that is, those where a production of a can begin.
  function GotoStates(a: int): set<int> {
    match a
    case -1 => {18}
    case -2 => {18, 34, 40, 59, 60}
    case -3 => {3, 4, 5, 16}
    case -4 => {2}
    case -5 => {2, 30}
    case -6 => {41, 95}
    case -7 => {18, 34, 40, 59, 60}
    case -8 => {2, 3}
    case -9 => {23, 24, 25, 44, 73, 96, 122, 123, 129, 132, 133, 138}
    case -10 => {23, 24, 25, 44, 73, 96, 122, 123, 129, 132, 133, 138}
    case -11 => {46, 98}
    case -12 => {51, 52, 97, 119, 139, 140, 144}
    case -13 => {77, 80, 111, 126, 142, 143, 147}
    case -14 => {23, 24, 25, 38, 41, 44, 62, 63, 64, 73, 95, 96, 122, 123, 129, 132, 133, 138}
    case -15 => {2, 8, 18, 30, 34, 37, 40, 55, 59, 60, 67, 75, 92}
    case -16 => {0}
    case _ => {}
  }

  predicate HasGoto(s: int, a: int) {
    s in GotoStates(a)
  }

  // What stands right below a state: inside a production the state before, at the first symbol of
  // one any state with a goto on the left-hand side.
  datatype Origin = Bottom | After(state: int) | Opens(lhs: int)

  function Below(s: int): Origin {
    if s < 70 then
      if s < 30 then
        if s < 10 then Below0(s) else if s < 20 then Below1(s) else Below2(s)
      else
        if s < 50 then
          if s < 40 then Below3(s) else Below4(s)
        else
          if s < 60 then Below5(s) else Below6(s)
    else
      if s < 110 then
        if s < 90 then
          if s < 80 then Below7(s) else Below8(s)
        else
          if s < 100 then Below9(s) else Below10(s)
      else
        if s < 130 then
          if s < 120 then Below11(s) else Below12(s)
        else
          if s < 140 then Below13(s) else Below14(s)
  }

  function Below0(s: int): Origin {
    match s
    case 1 => After(0)
    case 2 | 3 => Opens(N_QUERY)
    case 4 | 5 => After(2)
    case 6 | 7 | 8 => Opens(N_SELECTOR)
    case 9 => Opens(N_DATACLAUSE)
    case _ => Bottom
  }

  function Below1(s: int): Origin {
    match s
    case 10 | 11 | 12 | 13 => Opens(N_DATACLAUSE)
    case 14 => Opens(N_TAGLIST)
    case 15 => Opens(N_LVALUE)
    case 16 | 17 => After(3)
    case 18 => Opens(N_WHERECLAUSE)
    case 19 => After(4)
    case _ => Bottom
  }

  function Below2(s: int): Origin {
    match s
    case 20 => After(4)
    case 21 => After(5)
    case 22 => After(8)
    case 23 | 24 | 25 => After(9)
    case 26 => After(10)
    case 27 => After(11)
    case 28 => After(12)
    case 29 => After(13)
    case _ => Bottom
  }

  function Below3(s: int): Origin {
    match s
    case 30 => After(14)
    case 31 => After(16)
    case 32 => After(17)
    case 33 => After(18)
    case 34 | 35 => Opens(N_WHERELIST)
    case 36 | 37 | 38 | 39 => Opens(N_WHERETERM)
    case _ => Bottom
  }

  function Below4(s: int): Origin {
    match s
    case 40 => Opens(N_WHERETERM)
    case 41 => Opens(N_VALUELISTBRACK)
    case 42 => After(19)
    case 43 => After(21)
    case 44 | 45 => After(23)
    case 46 => Opens(N_TIMEREF)
    case 47 | 48 | 49 => Opens(N_ABSTIME)
    case _ => Bottom
  }

  function Below5(s: int): Origin {
    match s
    case 50 => Opens(N_QSTRING)
    case 51 => After(24)
    case 52 => After(25)
    case 53 => After(26)
    case 54 => After(27)
    case 55 => After(28)
    case 56 => After(29)
    case 57 => After(30)
    case 58 => After(31)
    case 59 => After(33)
    case _ => Bottom
  }

  function Below6(s: int): Origin {
    match s
    case 60 => After(33)
    case 61 => After(34)
    case 62 | 63 | 64 => After(36)
    case 65 => After(37)
    case 66 => After(38)
    case 67 | 68 => After(39)
    case 69 => After(40)
    case _ => Bottom
  }

  function Below7(s: int): Origin {
    match s
    case 70 => After(41)
    case 71 => Opens(N_VALUELIST)
    case 72 => After(44)
    case 73 => After(45)
    case 74 => After(46)
    case 75 => Opens(N_RELTIME)
    case 76 => After(47)
    case 77 => After(51)
    case 78 | 79 => Opens(N_LIMIT)
    case _ => Bottom
  }

  function Below8(s: int): Origin {
    match s
    case 80 => After(52)
    case 81 => After(53)
    case 82 => After(54)
    case 83 => After(55)
    case 84 => After(56)
    case 85 => After(59)
    case 86 => After(60)
    case 87 => After(62)
    case 88 | 89 => After(63)
    case _ => Bottom
  }

  function Below9(s: int): Origin {
    match s
    case 90 => After(64)
    case 91 => After(67)
    case 92 => After(68)
    case 93 => After(69)
    case 94 => After(70)
    case 95 => After(71)
    case 96 => After(72)
    case 97 => After(73)
    case 98 => After(75)
    case 99 => After(77)
    case _ => Bottom
  }

  function Below10(s: int): Origin {
    match s
    case 100 => Opens(N_TIMECONV)
    case 101 => After(78)
    case 102 => After(79)
    case 103 => After(80)
    case 104 => After(81)
    case 105 => After(82)
    case 106 => After(83)
    case 107 => After(84)
    case 108 => After(92)
    case 109 => After(95)
    case _ => Bottom
  }

  function Below11(s: int): Origin {
    match s
    case 110 => After(96)
    case 111 => After(97)
    case 112 => After(98)
    case 113 => After(100)
    case 114 => After(101)
    case 115 => After(104)
    case 116 => After(105)
    case 117 => After(106)
    case 118 => After(107)
    case 119 => After(110)
    case _ => Bottom
  }

  function Below12(s: int): Origin {
    match s
    case 120 => After(111)
    case 121 => After(114)
    case 122 => After(115)
    case 123 => After(116)
    case 124 => After(117)
    case 125 => After(118)
    case 126 => After(119)
    case 127 => After(122)
    case 128 => After(123)
    case 129 => After(124)
    case _ => Bottom
  }

  function Below13(s: int): Origin {
    match s
    case 130 => After(125)
    case 131 => After(126)
    case 132 => After(127)
    case 133 => After(128)
    case 134 => After(129)
    case 135 => After(130)
    case 136 => After(132)
    case 137 => After(133)
    case 138 => After(134)
    case 139 => After(136)
    case _ => Bottom
  }

  function Below14(s: int): Origin {
    match s
    case 140 => After(137)
    case 141 => After(138)
    case 142 => After(139)
    case 143 => After(140)
    case 144 => After(141)
    case 145 => After(142)
    case 146 => After(143)
    case 147 => After(144)
    case 148 => After(147)
    case _ => Bottom
  }

  predicate Linked(b: int, s: int) {
    match Below(s)
    case Bottom => false
    case After(q) => b == q
    case Opens(a) => HasGoto(b, a)
  }

  // The states to which sqPact gives a certain base.
  function StatesWithBase(b: int): set<int> {
    if b < 44 then
      if b < 9 then
        if b < -12 then StatesWithBase0(b) else StatesWithBase1(b)
      else
        if b < 27 then StatesWithBase2(b) else StatesWithBase3(b)
    else
      if b < 99 then
        if b < 72 then StatesWithBase4(b) else StatesWithBase5(b)
      else
        if b < 142 then StatesWithBase6(b) else StatesWithBase7(b)
  }

  function StatesWithBase0(b: int): set<int> {
    match b
    case -28 => {31}
    case -26 => {21}
    case -23 => {19}
    case -22 => {17}
    case -19 => {118}
    case -18 => {114}
    case -17 => {46, 98}
    case -16 => {63}
    case -14 => {84}
    case _ => {}
  }

  function StatesWithBase1(b: int): set<int> {
    match b
    case -12 => {79}
    case -11 => {78}
    case -10 => {29}
    case -9 => {23}
    case -5 => {24, 25, 44, 73, 96, 122, 123, 129, 132, 133, 138}
    case -4 => {28}
    case 0 => {27}
    case 5 => {18}
    case 7 => {4}
    case _ => {}
  }

  function StatesWithBase2(b: int): set<int> {
    match b
    case 9 => {26}
    case 12 => {70}
    case 16 => {141}
    case 17 => {137}
    case 20 => {136}
    case 21 => {125}
    case 23 => {110}
    case 24 => {83}
    case 25 => {69}
    case _ => {}
  }

  function StatesWithBase3(b: int): set<int> {
    match b
    case 27 => {34, 40, 59, 60}
    case 34 => {54}
    case 35 => {53}
    case 37 => {124}
    case 38 => {116}
    case 39 => {115}
    case 41 => {13}
    case 42 => {12}
    case 43 => {11}
    case _ => {}
  }

  function StatesWithBase4(b: int): set<int> {
    match b
    case 44 => {10}
    case 49 => {117}
    case 51 => {105}
    case 55 => {39}
    case 56 => {104}
    case 57 => {68}
    case 62 => {33}
    case 66 => {77, 80, 111, 126, 142, 143, 147}
    case 71 => {9}
    case _ => {}
  }

  function StatesWithBase5(b: int): set<int> {
    match b
    case 72 => {134}
    case 73 => {128}
    case 74 => {127}
    case 83 => {107}
    case 84 => {72}
    case 91 => {71}
    case 94 => {36}
    case 95 => {56}
    case 97 => {38, 41, 62, 64, 95}
    case _ => {}
  }

  function StatesWithBase6(b: int): set<int> {
    match b
    case 99 => {45}
    case 100 => {2}
    case 103 => {14}
    case 104 => {100}
    case 109 => {8, 30, 37, 55, 67, 75, 92}
    case 112 => {47}
    case 117 => {51, 52, 97, 119, 139, 140, 144}
    case 118 => {101}
    case 134 => {130}
    case _ => {}
  }

  function StatesWithBase7(b: int): set<int> {
    match b
    case 142 => {3}
    case 143 => {106}
    case 144 => {82}
    case 145 => {81}
    case 147 => {5, 16}
    case 156 => {0}
    case _ => {}
  }

  // ---- the tables move along the productions ----

  // In state s the tables move over symbol x to state b.
  predicate Moves(s: int, x: int, b: int) {
    if x > 0 then ShiftTo(s, x) == b else HasGoto(s, x) && GotoTo(s, -x) == b
  }

  // The dot of production p moves over symbol number d, and nothing else leads to that state.
  predicate StepOk(p: int, d: int) {
    1 <= d < |Rhs(p)| == |Trail(p)| ==>
      && Moves(Trail(p)[d - 1], Rhs(p)[d], Trail(p)[d])
      && Chk(Trail(p)[d]) == Rhs(p)[d]
      && 0 < Trail(p)[d] < STATES
      && Below(Trail(p)[d]) == After(Trail(p)[d - 1])
  }

  predicate FirstStepOk(p: int) {
    |Rhs(p)| == |Trail(p)| &&
    (|Rhs(p)| > 0 ==>
      && Chk(Trail(p)[0]) == Rhs(p)[0]
      && 0 < Trail(p)[0] < STATES
      && match Below(Trail(p)[0])
         case Bottom => false
         case After(q) => HasGoto(q, Lhs(p))
         case Opens(a) => a == Lhs(p))
  }

  predicate NoShift(s: int, ts: seq<int>, k: nat)
    decreases |ts| - k
  {
    k >= |ts| || (ShiftTo(s, ts[k]) == -1 && NoShift(s, ts, k + 1))
  }

  // In state s production p is reduced, whatever may follow its left-hand side.
  predicate Reduces(s: int, p: int) {
    Def(s) == p && (Pact(s) <= FLAG || NoShift(s, Follow(Lhs(p)), 0))
  }

  predicate CompleteOk(p: int) {
    |Trail(p)| > 0 ==> Reduces(Trail(p)[|Trail(p)| - 1], p)
  }

  // The goto of s on a leads to a state that may stand on s.
  predicate GotoOk(s: int, a: int) {
    && 1 <= GotoTo(s, -a) < STATES
    && Chk(GotoTo(s, -a)) == a
    && Linked(s, GotoTo(s, -a))
  }

  // State s begins production p.
  predicate BeginsOk(s: int, p: int) {
    if |Rhs(p)| > 0 && |Trail(p)| > 0 then Moves(s, Rhs(p)[0], Trail(p)[0]) else Reduces(s, p)
  }

  // A default reduction is by a production that is complete in its state.
  predicate DefaultOk(s: int) {
    && (Def(s) == -2 <==> s == 1)
    && -2 <= Def(s) <= PRODUCTIONS && Def(s) != -1
    && (Def(s) > 0 ==>
          if |Rhs(Def(s))| > 0 && |Trail(Def(s))| > 0 then s == Trail(Def(s))[|Trail(Def(s))| - 1]
          else HasGoto(s, Lhs(Def(s))))
  }

  // ---- every shift the tables hold is one of the automaton ----

  predicate AllLinked(bs: set<int>, s: int) {
    match Below(s)
    case Bottom => bs == {}
    case After(q) => bs <= {q}
    case Opens(a) => bs <= GotoStates(a)
  }

  // Cell n of sqAct: every state that reaches it by a shift may stand below the state it holds.
  predicate CellOk(n: int) {
    0 <= Act(n) < STATES && (Chk(Act(n)) > 0 ==> AllLinked(StatesWithBase(n - Chk(Act(n))), Act(n)))
  }

  // No state is entered by the end marker or by the error token.
  predicate BaseOk(s: int) {
    && Chk(s) != T_END && Chk(s) != 2 && (s == 0 ==> Chk(s) < -16)
    && (Pact(s) > FLAG ==> s in StatesWithBase(Pact(s)))
  }

  // ---- the productions agree with sqR1, sqR2, FIRST, FOLLOW and Nullable ----

  // Terminals that can stand at position d of production p when one of the FOLLOW set of the
  // left-hand side comes after it.
  function Next(p: int, d: nat): set<int>
    decreases |Rhs(p)| - d
  {
    if d >= |Rhs(p)| then set t | t in Follow(Lhs(p))
    else if Nullable(Rhs(p)[d]) then First(Rhs(p)[d]) + Next(p, d + 1)
    else First(Rhs(p)[d])
  }

  predicate FollowOk(p: int, d: int) {
    0 <= d < |Rhs(p)| && Rhs(p)[d] < 0 ==> forall t :: t in Next(p, d + 1) ==> t in Follow(Rhs(p)[d])
  }

  predicate ProductionOk(p: int) {
    && (p > 0 ==> R1(p) == -Lhs(p) && R2(p) == |Rhs(p)|)
    && (if |Rhs(p)| == 0 then Nullable(Lhs(p))
        else p > 0 ==> !Nullable(Rhs(p)[0]) && First(Rhs(p)[0]) <= First(Lhs(p)))
    && (p > 0 ==> -16 <= Lhs(p) <= -1)
  }

  // ---- a weight that every reduction lowers ----

  // Stacking a symbol costs its weight; a state that may still reduce the empty string adds to it.
  function Weight(x: int): nat {
    match x
    case -14 | -15 => 9
    case -2 | -5 | -6 | -10 => 8
    case -1 | -4 => 7
    case -9 => 3
    case _ => if x > 0 then 10 else 1
  }

  function Pending(s: int): nat {
    match s
    case 51 | 52 | 97 | 119 | 139 | 140 | 144 => 4
    case 77 | 80 | 111 | 126 | 142 | 143 | 147 => 2
    case _ => 0
  }

  function MaxPending(x: int): nat {
    if x > 0 || x == N_TIMEREF then 4 else if x == N_LIMIT then 2 else 0
  }

  function RhsWeight(p: int, d: nat): nat {
    if d == 0 || d > |Rhs(p)| then 0 else RhsWeight(p, d - 1) + Weight(Rhs(p)[d - 1])
  }

  predicate WeightOk(p: int) {
    |Rhs(p)| > 0 && p > 0 ==> Weight(Lhs(p)) + MaxPending(Lhs(p)) < RhsWeight(p, |Rhs(p)|)
  }

  predicate PendingOk(s: int) {
    && Pending(s) <= MaxPending(Chk(s))
    && (Def(s) > 0 && |Rhs(Def(s))| == 0 ==> Weight(Lhs(Def(s))) + MaxPending(Lhs(Def(s))) < Pending(s))
  }
}
