/**
 Evaluation of the closed checks of Automaton over ranges of states, cells or productions.
 Each family ends in a lemma for an arbitrary index.
 */
module AutomatonChecks {
  import opened Grammar
  import opened Automaton

  lemma StepChecked1To4(p: int, d: int)
    requires 1 <= p <= 4
    ensures StepOk(p, d)
  {
  }

  lemma StepChecked5To7(p: int, d: int)
    requires 5 <= p <= 7
    ensures StepOk(p, d)
  {
  }

  lemma StepChecked8To10(p: int, d: int)
    requires 8 <= p <= 10
    ensures StepOk(p, d)
  {
  }

  lemma StepChecked11To13(p: int, d: int)
    requires 11 <= p <= 13
    ensures StepOk(p, d)
  {
  }

  lemma StepChecked14To15(p: int, d: int)
    requires 14 <= p <= 15
    ensures StepOk(p, d)
  {
  }

  lemma StepChecked16(p: int, d: int)
    requires p == 16
    ensures StepOk(p, d)
  {
  }

  lemma StepChecked17From1(d: int)
    requires d <= 2
    ensures StepOk(17, d)
  {
    match d
    case 1 => assert StepOk(17, 1);
    case 2 => assert StepOk(17, 2);
    case _ =>
  }

  lemma StepChecked17From3(d: int)
    requires 3 <= d <= 5
    ensures StepOk(17, d)
  {
    match d
    case 3 => assert StepOk(17, 3);
    case 4 => assert StepOk(17, 4);
    case 5 => assert StepOk(17, 5);
    case _ =>
  }

  lemma StepChecked17From6(d: int)
    requires 6 <= d <= 8
    ensures StepOk(17, d)
  {
    match d
    case 6 => assert StepOk(17, 6);
    case 7 => assert StepOk(17, 7);
    case 8 => assert StepOk(17, 8);
    case _ =>
  }

  lemma StepChecked17From9(d: int)
    requires 9 <= d
    ensures StepOk(17, d)
  {
    match d
    case 9 => assert StepOk(17, 9);
    case 10 => assert StepOk(17, 10);
    case 11 => assert StepOk(17, 11);
    case 12 => assert StepOk(17, 12);
    case 13 => assert StepOk(17, 13);
    case _ =>
  }

  lemma StepChecked18From1(d: int)
    requires d <= 2
    ensures StepOk(18, d)
  {
    match d
    case 1 => assert StepOk(18, 1);
    case 2 => assert StepOk(18, 2);
    case _ =>
  }

  lemma StepChecked18From3(d: int)
    requires 3 <= d <= 5
    ensures StepOk(18, d)
  {
    match d
    case 3 => assert StepOk(18, 3);
    case 4 => assert StepOk(18, 4);
    case 5 => assert StepOk(18, 5);
    case _ =>
  }

  lemma StepChecked18From6(d: int)
    requires 6 <= d <= 8
    ensures StepOk(18, d)
  {
    match d
    case 6 => assert StepOk(18, 6);
    case 7 => assert StepOk(18, 7);
    case 8 => assert StepOk(18, 8);
    case _ =>
  }

  lemma StepChecked18From9(d: int)
    requires 9 <= d
    ensures StepOk(18, d)
  {
    match d
    case 9 => assert StepOk(18, 9);
    case 10 => assert StepOk(18, 10);
    case 11 => assert StepOk(18, 11);
    case 12 => assert StepOk(18, 12);
    case 13 => assert StepOk(18, 13);
    case _ =>
  }

  lemma StepChecked19From1(d: int)
    requires d <= 2
    ensures StepOk(19, d)
  {
    match d
    case 1 => assert StepOk(19, 1);
    case 2 => assert StepOk(19, 2);
    case _ =>
  }

  lemma StepChecked19From3(d: int)
    requires 3 <= d <= 5
    ensures StepOk(19, d)
  {
    match d
    case 3 => assert StepOk(19, 3);
    case 4 => assert StepOk(19, 4);
    case 5 => assert StepOk(19, 5);
    case _ =>
  }

  lemma StepChecked19From6(d: int)
    requires 6 <= d <= 8
    ensures StepOk(19, d)
  {
    match d
    case 6 => assert StepOk(19, 6);
    case 7 => assert StepOk(19, 7);
    case 8 => assert StepOk(19, 8);
    case _ =>
  }

  lemma StepChecked19From9(d: int)
    requires 9 <= d
    ensures StepOk(19, d)
  {
    match d
    case 9 => assert StepOk(19, 9);
    case 10 => assert StepOk(19, 10);
    case 11 => assert StepOk(19, 11);
    case 12 => assert StepOk(19, 12);
    case 13 => assert StepOk(19, 13);
    case _ =>
  }

  lemma StepChecked20From1(d: int)
    requires d <= 2
    ensures StepOk(20, d)
  {
    match d
    case 1 => assert StepOk(20, 1);
    case 2 => assert StepOk(20, 2);
    case _ =>
  }

  lemma StepChecked20From3(d: int)
    requires 3 <= d <= 5
    ensures StepOk(20, d)
  {
    match d
    case 3 => assert StepOk(20, 3);
    case 4 => assert StepOk(20, 4);
    case 5 => assert StepOk(20, 5);
    case _ =>
  }

  lemma StepChecked20From6(d: int)
    requires 6 <= d <= 8
    ensures StepOk(20, d)
  {
    match d
    case 6 => assert StepOk(20, 6);
    case 7 => assert StepOk(20, 7);
    case 8 => assert StepOk(20, 8);
    case _ =>
  }

  lemma StepChecked20From9(d: int)
    requires 9 <= d
    ensures StepOk(20, d)
  {
    match d
    case 9 => assert StepOk(20, 9);
    case 10 => assert StepOk(20, 10);
    case 11 => assert StepOk(20, 11);
    case 12 => assert StepOk(20, 12);
    case 13 => assert StepOk(20, 13);
    case _ =>
  }

  lemma StepChecked21To22(p: int, d: int)
    requires 21 <= p <= 22
    ensures StepOk(p, d)
  {
  }

  lemma StepChecked23To26(p: int, d: int)
    requires 23 <= p <= 26
    ensures StepOk(p, d)
  {
  }

  lemma StepChecked27To30(p: int, d: int)
    requires 27 <= p <= 30
    ensures StepOk(p, d)
  {
  }

  lemma StepChecked31To36(p: int, d: int)
    requires 31 <= p <= 36
    ensures StepOk(p, d)
  {
  }

  lemma StepChecked37To40(p: int, d: int)
    requires 37 <= p <= 40
    ensures StepOk(p, d)
  {
  }

  lemma StepChecked41To43(p: int, d: int)
    requires 41 <= p <= 43
    ensures StepOk(p, d)
  {
  }

  lemma StepChecked44To45(p: int, d: int)
    requires 44 <= p <= 45
    ensures StepOk(p, d)
  {
  }

  lemma StepChecked46To47(p: int, d: int)
    requires 46 <= p <= 47
    ensures StepOk(p, d)
  {
  }

  lemma StepChecked48To52(p: int, d: int)
    requires 48 <= p <= 52
    ensures StepOk(p, d)
  {
  }

  // Every production moves its dot as the tables do.
  lemma StepChecked(p: int, d: int)
    requires 1 <= p <= 52
    ensures StepOk(p, d)
  {
    if p <= 4 { StepChecked1To4(p, d); }
    else if p <= 7 { StepChecked5To7(p, d); }
    else if p <= 10 { StepChecked8To10(p, d); }
    else if p <= 13 { StepChecked11To13(p, d); }
    else if p <= 15 { StepChecked14To15(p, d); }
    else if p <= 16 { StepChecked16(p, d); }
    else if p == 17 && d <= 2 { StepChecked17From1(d); }
    else if p == 17 && d <= 5 { StepChecked17From3(d); }
    else if p == 17 && d <= 8 { StepChecked17From6(d); }
    else if p <= 17 { StepChecked17From9(d); }
    else if p == 18 && d <= 2 { StepChecked18From1(d); }
    else if p == 18 && d <= 5 { StepChecked18From3(d); }
    else if p == 18 && d <= 8 { StepChecked18From6(d); }
    else if p <= 18 { StepChecked18From9(d); }
    else if p == 19 && d <= 2 { StepChecked19From1(d); }
    else if p == 19 && d <= 5 { StepChecked19From3(d); }
    else if p == 19 && d <= 8 { StepChecked19From6(d); }
    else if p <= 19 { StepChecked19From9(d); }
    else if p == 20 && d <= 2 { StepChecked20From1(d); }
    else if p == 20 && d <= 5 { StepChecked20From3(d); }
    else if p == 20 && d <= 8 { StepChecked20From6(d); }
    else if p <= 20 { StepChecked20From9(d); }
    else if p <= 22 { StepChecked21To22(p, d); }
    else if p <= 26 { StepChecked23To26(p, d); }
    else if p <= 30 { StepChecked27To30(p, d); }
    else if p <= 36 { StepChecked31To36(p, d); }
    else if p <= 40 { StepChecked37To40(p, d); }
    else if p <= 43 { StepChecked41To43(p, d); }
    else if p <= 45 { StepChecked44To45(p, d); }
    else if p <= 47 { StepChecked46To47(p, d); }
    else { StepChecked48To52(p, d); }
  }

  lemma FirstStepChecked1To13(p: int)
    requires 1 <= p <= 13
    ensures FirstStepOk(p)
  {
  }

  lemma FirstStepChecked14To20(p: int)
    requires 14 <= p <= 20
    ensures FirstStepOk(p)
  {
  }

  lemma FirstStepChecked21To33(p: int)
    requires 21 <= p <= 33
    ensures FirstStepOk(p)
  {
  }

  lemma FirstStepChecked34To46(p: int)
    requires 34 <= p <= 46
    ensures FirstStepOk(p)
  {
  }

  lemma FirstStepChecked47To52(p: int)
    requires 47 <= p <= 52
    ensures FirstStepOk(p)
  {
  }

  // Every production begins with the symbol its first state is entered by.
  lemma FirstStepChecked(p: int)
    requires 1 <= p < 53
    ensures FirstStepOk(p)
  {
    if p <= 13 { FirstStepChecked1To13(p); }
    else if p <= 20 { FirstStepChecked14To20(p); }
    else if p <= 33 { FirstStepChecked21To33(p); }
    else if p <= 46 { FirstStepChecked34To46(p); }
    else { FirstStepChecked47To52(p); }
  }

  lemma CompleteChecked1To7(p: int)
    requires 1 <= p <= 7
    ensures CompleteOk(p)
  {
  }

  lemma CompleteChecked8To13(p: int)
    requires 8 <= p <= 13
    ensures CompleteOk(p)
  {
  }

  lemma CompleteChecked14To16(p: int)
    requires 14 <= p <= 16
    ensures CompleteOk(p)
  {
    match p
    case 14 => assert CompleteOk(14);
    case 15 => assert CompleteOk(15);
    case 16 => assert CompleteOk(16);
  }

  lemma CompleteChecked17To19(p: int)
    requires 17 <= p <= 19
    ensures CompleteOk(p)
  {
    match p
    case 17 => assert CompleteOk(17);
    case 18 => assert CompleteOk(18);
    case 19 => assert CompleteOk(19);
  }

  lemma CompleteChecked20To22(p: int)
    requires 20 <= p <= 22
    ensures CompleteOk(p)
  {
    match p
    case 20 => assert CompleteOk(20);
    case 21 => assert CompleteOk(21);
    case 22 => assert CompleteOk(22);
  }

  lemma CompleteChecked23To24(p: int)
    requires 23 <= p <= 24
    ensures CompleteOk(p)
  {
    match p
    case 23 => assert CompleteOk(23);
    case 24 => assert CompleteOk(24);
  }

  lemma CompleteChecked25(p: int)
    requires p == 25
    ensures CompleteOk(p)
  {
    assert CompleteOk(25);
  }

  lemma CompleteChecked26(p: int)
    requires p == 26
    ensures CompleteOk(p)
  {
    assert CompleteOk(26);
  }

  lemma CompleteChecked27To30(p: int)
    requires 27 <= p <= 30
    ensures CompleteOk(p)
  {
    match p
    case 27 => assert CompleteOk(27);
    case 28 => assert CompleteOk(28);
    case 29 => assert CompleteOk(29);
    case 30 => assert CompleteOk(30);
  }

  lemma CompleteChecked31To33(p: int)
    requires 31 <= p <= 33
    ensures CompleteOk(p)
  {
    match p
    case 31 => assert CompleteOk(31);
    case 32 => assert CompleteOk(32);
    case 33 => assert CompleteOk(33);
  }

  lemma CompleteChecked34To39(p: int)
    requires 34 <= p <= 39
    ensures CompleteOk(p)
  {
  }

  lemma CompleteChecked40To46(p: int)
    requires 40 <= p <= 46
    ensures CompleteOk(p)
  {
  }

  lemma CompleteChecked47To52(p: int)
    requires 47 <= p <= 52
    ensures CompleteOk(p)
  {
  }

  // A recognised production is reduced.
  lemma CompleteChecked(p: int)
    requires 1 <= p < 53
    ensures CompleteOk(p)
  {
    if p <= 7 { CompleteChecked1To7(p); }
    else if p <= 13 { CompleteChecked8To13(p); }
    else if p <= 16 { CompleteChecked14To16(p); }
    else if p <= 19 { CompleteChecked17To19(p); }
    else if p <= 22 { CompleteChecked20To22(p); }
    else if p <= 24 { CompleteChecked23To24(p); }
    else if p <= 25 { CompleteChecked25(p); }
    else if p <= 26 { CompleteChecked26(p); }
    else if p <= 30 { CompleteChecked27To30(p); }
    else if p <= 33 { CompleteChecked31To33(p); }
    else if p <= 39 { CompleteChecked34To39(p); }
    else if p <= 46 { CompleteChecked40To46(p); }
    else { CompleteChecked47To52(p); }
  }

  lemma GotoChecked16(s: int, a: int)
    requires a == -16 && HasGoto(s, a)
    ensures GotoOk(s, a)
  {
  }

  lemma GotoChecked15At2(s: int)
    requires s in {2, 8, 18, 30, 34, 37, 40}
    ensures GotoOk(s, -15)
  {
    match s
    case 2 => assert GotoOk(2, -15);
    case 8 => assert GotoOk(8, -15);
    case 18 => assert GotoOk(18, -15);
    case 30 => assert GotoOk(30, -15);
    case 34 => assert GotoOk(34, -15);
    case 37 => assert GotoOk(37, -15);
    case 40 => assert GotoOk(40, -15);
  }

  lemma GotoChecked15At55(s: int)
    requires s in {55, 59, 60, 67, 75, 92}
    ensures GotoOk(s, -15)
  {
    match s
    case 55 => assert GotoOk(55, -15);
    case 59 => assert GotoOk(59, -15);
    case 60 => assert GotoOk(60, -15);
    case 67 => assert GotoOk(67, -15);
    case 75 => assert GotoOk(75, -15);
    case 92 => assert GotoOk(92, -15);
  }

  lemma GotoChecked14At23(s: int)
    requires s in {23, 24, 25, 38, 41, 44}
    ensures GotoOk(s, -14)
  {
    match s
    case 23 => assert GotoOk(23, -14);
    case 24 => assert GotoOk(24, -14);
    case 25 => assert GotoOk(25, -14);
    case 38 => assert GotoOk(38, -14);
    case 41 => assert GotoOk(41, -14);
    case 44 => assert GotoOk(44, -14);
  }

  lemma GotoChecked14At62(s: int)
    requires s in {62, 63, 64, 73, 95, 96}
    ensures GotoOk(s, -14)
  {
    match s
    case 62 => assert GotoOk(62, -14);
    case 63 => assert GotoOk(63, -14);
    case 64 => assert GotoOk(64, -14);
    case 73 => assert GotoOk(73, -14);
    case 95 => assert GotoOk(95, -14);
    case 96 => assert GotoOk(96, -14);
  }

  lemma GotoChecked14At122(s: int)
    requires s in {122, 123, 129, 132, 133, 138}
    ensures GotoOk(s, -14)
  {
    match s
    case 122 => assert GotoOk(122, -14);
    case 123 => assert GotoOk(123, -14);
    case 129 => assert GotoOk(129, -14);
    case 132 => assert GotoOk(132, -14);
    case 133 => assert GotoOk(133, -14);
    case 138 => assert GotoOk(138, -14);
  }

  lemma GotoChecked13At77(s: int)
    requires s in {77, 80, 111, 126, 142, 143, 147}
    ensures GotoOk(s, -13)
  {
    match s
    case 77 => assert GotoOk(77, -13);
    case 80 => assert GotoOk(80, -13);
    case 111 => assert GotoOk(111, -13);
    case 126 => assert GotoOk(126, -13);
    case 142 => assert GotoOk(142, -13);
    case 143 => assert GotoOk(143, -13);
    case 147 => assert GotoOk(147, -13);
  }

  lemma GotoChecked12At51(s: int)
    requires s in {51, 52, 97, 119, 139, 140, 144}
    ensures GotoOk(s, -12)
  {
    match s
    case 51 => assert GotoOk(51, -12);
    case 52 => assert GotoOk(52, -12);
    case 97 => assert GotoOk(97, -12);
    case 119 => assert GotoOk(119, -12);
    case 139 => assert GotoOk(139, -12);
    case 140 => assert GotoOk(140, -12);
    case 144 => assert GotoOk(144, -12);
  }

  lemma GotoChecked10To11(s: int, a: int)
    requires -11 <= a <= -10 && HasGoto(s, a)
    ensures GotoOk(s, a)
  {
  }

  lemma GotoChecked9At23(s: int)
    requires s in {23, 24, 25, 44, 73, 96}
    ensures GotoOk(s, -9)
  {
    match s
    case 23 => assert GotoOk(23, -9);
    case 24 => assert GotoOk(24, -9);
    case 25 => assert GotoOk(25, -9);
    case 44 => assert GotoOk(44, -9);
    case 73 => assert GotoOk(73, -9);
    case 96 => assert GotoOk(96, -9);
  }

  lemma GotoChecked9At122(s: int)
    requires s in {122, 123, 129, 132, 133, 138}
    ensures GotoOk(s, -9)
  {
    match s
    case 122 => assert GotoOk(122, -9);
    case 123 => assert GotoOk(123, -9);
    case 129 => assert GotoOk(129, -9);
    case 132 => assert GotoOk(132, -9);
    case 133 => assert GotoOk(133, -9);
    case 138 => assert GotoOk(138, -9);
  }

  lemma GotoChecked8(s: int, a: int)
    requires a == -8 && HasGoto(s, a)
    ensures GotoOk(s, a)
  {
  }

  lemma GotoChecked4To7(s: int, a: int)
    requires -7 <= a <= -4 && HasGoto(s, a)
    ensures GotoOk(s, a)
  {
  }

  lemma GotoChecked1To3(s: int, a: int)
    requires -3 <= a <= -1 && HasGoto(s, a)
    ensures GotoOk(s, a)
  {
  }

  // Every goto leads to a state that may stand on the one below it.
  lemma GotoChecked(s: int, a: int)
    requires HasGoto(s, a)
    ensures GotoOk(s, a)
  {
    if a <= -16 { GotoChecked16(s, a); }
    else if a == -15 && s <= 40 { GotoChecked15At2(s); }
    else if a <= -15 { GotoChecked15At55(s); }
    else if a == -14 && s <= 44 { GotoChecked14At23(s); }
    else if a == -14 && s <= 96 { GotoChecked14At62(s); }
    else if a <= -14 { GotoChecked14At122(s); }
    else if a <= -13 { GotoChecked13At77(s); }
    else if a <= -12 { GotoChecked12At51(s); }
    else if a <= -10 { GotoChecked10To11(s, a); }
    else if a == -9 && s <= 96 { GotoChecked9At23(s); }
    else if a <= -9 { GotoChecked9At122(s); }
    else if a <= -8 { GotoChecked8(s, a); }
    else if a <= -4 { GotoChecked4To7(s, a); }
    else { GotoChecked1To3(s, a); }
  }

  lemma BeginsChecked1To5(s: int, p: int)
    requires 1 <= p <= 5 && HasGoto(s, Lhs(p))
    ensures BeginsOk(s, p)
  {
  }

  lemma BeginsChecked6To8(s: int, p: int)
    requires 6 <= p <= 8 && HasGoto(s, Lhs(p))
    ensures BeginsOk(s, p)
  {
  }

  lemma BeginsChecked9To14(s: int, p: int)
    requires 9 <= p <= 14 && HasGoto(s, Lhs(p))
    ensures BeginsOk(s, p)
  {
  }

  lemma BeginsChecked15To22(s: int, p: int)
    requires 15 <= p <= 22 && HasGoto(s, Lhs(p))
    ensures BeginsOk(s, p)
  {
  }

  lemma BeginsChecked23To24(s: int, p: int)
    requires 23 <= p <= 24 && HasGoto(s, Lhs(p))
    ensures BeginsOk(s, p)
  {
  }

  lemma BeginsChecked25(s: int, p: int)
    requires p == 25 && HasGoto(s, Lhs(p))
    ensures BeginsOk(s, p)
  {
  }

  lemma BeginsChecked26To28(s: int, p: int)
    requires 26 <= p <= 28 && HasGoto(s, Lhs(p))
    ensures BeginsOk(s, p)
  {
  }

  lemma BeginsChecked29To30(s: int, p: int)
    requires 29 <= p <= 30 && HasGoto(s, Lhs(p))
    ensures BeginsOk(s, p)
  {
  }

  lemma BeginsChecked31To32(s: int, p: int)
    requires 31 <= p <= 32 && HasGoto(s, Lhs(p))
    ensures BeginsOk(s, p)
  {
  }

  lemma BeginsChecked33To34(s: int, p: int)
    requires 33 <= p <= 34 && HasGoto(s, Lhs(p))
    ensures BeginsOk(s, p)
  {
  }

  lemma BeginsChecked35To36(s: int, p: int)
    requires 35 <= p <= 36 && HasGoto(s, Lhs(p))
    ensures BeginsOk(s, p)
  {
  }

  lemma BeginsChecked37To46(s: int, p: int)
    requires 37 <= p <= 46 && HasGoto(s, Lhs(p))
    ensures BeginsOk(s, p)
  {
  }

  lemma BeginsChecked47At23(s: int)
    requires s in {23, 24, 25, 38, 41, 44, 62, 63, 64}
    ensures BeginsOk(s, 47)
  {
    match s
    case 23 => assert BeginsOk(23, 47);
    case 24 => assert BeginsOk(24, 47);
    case 25 => assert BeginsOk(25, 47);
    case 38 => assert BeginsOk(38, 47);
    case 41 => assert BeginsOk(41, 47);
    case 44 => assert BeginsOk(44, 47);
    case 62 => assert BeginsOk(62, 47);
    case 63 => assert BeginsOk(63, 47);
    case 64 => assert BeginsOk(64, 47);
  }

  lemma BeginsChecked47At73(s: int)
    requires s in {73, 95, 96, 122, 123, 129, 132, 133, 138}
    ensures BeginsOk(s, 47)
  {
    match s
    case 73 => assert BeginsOk(73, 47);
    case 95 => assert BeginsOk(95, 47);
    case 96 => assert BeginsOk(96, 47);
    case 122 => assert BeginsOk(122, 47);
    case 123 => assert BeginsOk(123, 47);
    case 129 => assert BeginsOk(129, 47);
    case 132 => assert BeginsOk(132, 47);
    case 133 => assert BeginsOk(133, 47);
    case 138 => assert BeginsOk(138, 47);
  }

  lemma BeginsChecked48(s: int, p: int)
    requires p == 48 && HasGoto(s, Lhs(p))
    ensures BeginsOk(s, p)
  {
  }

  lemma BeginsChecked49To52(s: int, p: int)
    requires 49 <= p <= 52 && HasGoto(s, Lhs(p))
    ensures BeginsOk(s, p)
  {
  }

  // A state with a goto on a nonterminal begins its productions.
  lemma BeginsChecked(s: int, p: int)
    requires 1 <= p <= 52 && HasGoto(s, Lhs(p))
    ensures BeginsOk(s, p)
  {
    if p <= 5 { BeginsChecked1To5(s, p); }
    else if p <= 8 { BeginsChecked6To8(s, p); }
    else if p <= 14 { BeginsChecked9To14(s, p); }
    else if p <= 22 { BeginsChecked15To22(s, p); }
    else if p <= 24 { BeginsChecked23To24(s, p); }
    else if p <= 25 { BeginsChecked25(s, p); }
    else if p <= 28 { BeginsChecked26To28(s, p); }
    else if p <= 30 { BeginsChecked29To30(s, p); }
    else if p <= 32 { BeginsChecked31To32(s, p); }
    else if p <= 34 { BeginsChecked33To34(s, p); }
    else if p <= 36 { BeginsChecked35To36(s, p); }
    else if p <= 46 { BeginsChecked37To46(s, p); }
    else if p == 47 && s <= 64 { BeginsChecked47At23(s); }
    else if p <= 47 { BeginsChecked47At73(s); }
    else if p <= 48 { BeginsChecked48(s, p); }
    else { BeginsChecked49To52(s, p); }
  }

  lemma DefaultChecked0To50(s: int)
    requires 0 <= s <= 50
    ensures DefaultOk(s)
  {
  }

  lemma DefaultChecked51To100(s: int)
    requires 51 <= s <= 100
    ensures DefaultOk(s)
  {
  }

  lemma DefaultChecked101To148(s: int)
    requires 101 <= s <= 148
    ensures DefaultOk(s)
  {
  }

  // Default reductions are by complete productions.
  lemma DefaultChecked(s: int)
    requires 0 <= s < 149
    ensures DefaultOk(s)
  {
    if s <= 50 { DefaultChecked0To50(s); }
    else if s <= 100 { DefaultChecked51To100(s); }
    else { DefaultChecked101To148(s); }
  }

  lemma CellChecked0To12(n: int)
    requires 0 <= n <= 12
    ensures CellOk(n)
  {
  }

  lemma CellChecked13To19(n: int)
    requires 13 <= n <= 19
    ensures CellOk(n)
  {
  }

  lemma CellChecked20To29(n: int)
    requires 20 <= n <= 29
    ensures CellOk(n)
  {
  }

  lemma CellChecked30To38(n: int)
    requires 30 <= n <= 38
    ensures CellOk(n)
  {
  }

  lemma CellChecked39To51(n: int)
    requires 39 <= n <= 51
    ensures CellOk(n)
  {
  }

  lemma CellChecked52To64(n: int)
    requires 52 <= n <= 64
    ensures CellOk(n)
  {
  }

  lemma CellChecked65To77(n: int)
    requires 65 <= n <= 77
    ensures CellOk(n)
  {
  }

  lemma CellChecked78To86(n: int)
    requires 78 <= n <= 86
    ensures CellOk(n)
  {
  }

  lemma CellChecked87To100(n: int)
    requires 87 <= n <= 100
    ensures CellOk(n)
  {
  }

  lemma CellChecked101To110(n: int)
    requires 101 <= n <= 110
    ensures CellOk(n)
  {
  }

  lemma CellChecked111To123(n: int)
    requires 111 <= n <= 123
    ensures CellOk(n)
  {
  }

  lemma CellChecked124To136(n: int)
    requires 124 <= n <= 136
    ensures CellOk(n)
  {
  }

  lemma CellChecked137To149(n: int)
    requires 137 <= n <= 149
    ensures CellOk(n)
  {
  }

  lemma CellChecked150To162(n: int)
    requires 150 <= n <= 162
    ensures CellOk(n)
  {
  }

  lemma CellChecked163To168(n: int)
    requires 163 <= n <= 168
    ensures CellOk(n)
  {
  }

  // Every cell of the packed action table is a move of the automaton.
  lemma CellChecked(n: int)
    requires 0 <= n < 169
    ensures CellOk(n)
  {
    if n <= 12 { CellChecked0To12(n); }
    else if n <= 19 { CellChecked13To19(n); }
    else if n <= 29 { CellChecked20To29(n); }
    else if n <= 38 { CellChecked30To38(n); }
    else if n <= 51 { CellChecked39To51(n); }
    else if n <= 64 { CellChecked52To64(n); }
    else if n <= 77 { CellChecked65To77(n); }
    else if n <= 86 { CellChecked78To86(n); }
    else if n <= 100 { CellChecked87To100(n); }
    else if n <= 110 { CellChecked101To110(n); }
    else if n <= 123 { CellChecked111To123(n); }
    else if n <= 136 { CellChecked124To136(n); }
    else if n <= 149 { CellChecked137To149(n); }
    else if n <= 162 { CellChecked150To162(n); }
    else { CellChecked163To168(n); }
  }

  lemma BaseChecked0To74(s: int)
    requires 0 <= s <= 74
    ensures BaseOk(s)
  {
  }

  lemma BaseChecked75To148(s: int)
    requires 75 <= s <= 148
    ensures BaseOk(s)
  {
  }

  // Every state is filed under its base, and none is entered by the end marker or error token.
  lemma BaseChecked(s: int)
    requires 0 <= s < 149
    ensures BaseOk(s)
  {
    if s <= 74 { BaseChecked0To74(s); }
    else { BaseChecked75To148(s); }
  }

  lemma FollowChecked1To10(p: int, d: int)
    requires 1 <= p <= 10
    ensures FollowOk(p, d)
  {
  }

  lemma FollowChecked11To13(p: int, d: int)
    requires 11 <= p <= 13
    ensures FollowOk(p, d)
  {
  }

  lemma FollowChecked14To15(p: int, d: int)
    requires 14 <= p <= 15
    ensures FollowOk(p, d)
  {
  }

  lemma FollowChecked16To17(p: int, d: int)
    requires 16 <= p <= 17
    ensures FollowOk(p, d)
  {
  }

  lemma FollowChecked18To19(p: int, d: int)
    requires 18 <= p <= 19
    ensures FollowOk(p, d)
  {
  }

  lemma FollowChecked20To22(p: int, d: int)
    requires 20 <= p <= 22
    ensures FollowOk(p, d)
  {
  }

  lemma FollowChecked23To26(p: int, d: int)
    requires 23 <= p <= 26
    ensures FollowOk(p, d)
  {
  }

  lemma FollowChecked27To30(p: int, d: int)
    requires 27 <= p <= 30
    ensures FollowOk(p, d)
  {
  }

  lemma FollowChecked31To36(p: int, d: int)
    requires 31 <= p <= 36
    ensures FollowOk(p, d)
  {
  }

  lemma FollowChecked37To40(p: int, d: int)
    requires 37 <= p <= 40
    ensures FollowOk(p, d)
  {
  }

  lemma FollowChecked41To43(p: int, d: int)
    requires 41 <= p <= 43
    ensures FollowOk(p, d)
  {
  }

  lemma FollowChecked44To45(p: int, d: int)
    requires 44 <= p <= 45
    ensures FollowOk(p, d)
  {
  }

  lemma FollowChecked46(p: int, d: int)
    requires p == 46
    ensures FollowOk(p, d)
  {
  }

  lemma FollowChecked47(p: int, d: int)
    requires p == 47
    ensures FollowOk(p, d)
  {
  }

  lemma FollowChecked48To49(p: int, d: int)
    requires 48 <= p <= 49
    ensures FollowOk(p, d)
  {
  }

  lemma FollowChecked50To52(p: int, d: int)
    requires 50 <= p <= 52
    ensures FollowOk(p, d)
  {
  }

  // FOLLOW is closed under the productions.
  lemma FollowChecked(p: int, d: int)
    requires 1 <= p <= 52
    ensures FollowOk(p, d)
  {
    if p <= 10 { FollowChecked1To10(p, d); }
    else if p <= 13 { FollowChecked11To13(p, d); }
    else if p <= 15 { FollowChecked14To15(p, d); }
    else if p <= 17 { FollowChecked16To17(p, d); }
    else if p <= 19 { FollowChecked18To19(p, d); }
    else if p <= 22 { FollowChecked20To22(p, d); }
    else if p <= 26 { FollowChecked23To26(p, d); }
    else if p <= 30 { FollowChecked27To30(p, d); }
    else if p <= 36 { FollowChecked31To36(p, d); }
    else if p <= 40 { FollowChecked37To40(p, d); }
    else if p <= 43 { FollowChecked41To43(p, d); }
    else if p <= 45 { FollowChecked44To45(p, d); }
    else if p <= 46 { FollowChecked46(p, d); }
    else if p <= 47 { FollowChecked47(p, d); }
    else if p <= 49 { FollowChecked48To49(p, d); }
    else { FollowChecked50To52(p, d); }
  }

  lemma ProductionChecked0To13(p: int)
    requires 0 <= p <= 13
    ensures ProductionOk(p)
  {
  }

  lemma ProductionChecked14To20(p: int)
    requires 14 <= p <= 20
    ensures ProductionOk(p)
  {
  }

  lemma ProductionChecked21To26(p: int)
    requires 21 <= p <= 26
    ensures ProductionOk(p)
  {
  }

  lemma ProductionChecked27To39(p: int)
    requires 27 <= p <= 39
    ensures ProductionOk(p)
  {
  }

  lemma ProductionChecked40To52(p: int)
    requires 40 <= p <= 52
    ensures ProductionOk(p)
  {
  }

  // The productions agree with sqR1, sqR2, FIRST and Nullable.
  lemma ProductionChecked(p: int)
    requires 0 <= p < 53
    ensures ProductionOk(p)
  {
    if p <= 13 { ProductionChecked0To13(p); }
    else if p <= 20 { ProductionChecked14To20(p); }
    else if p <= 26 { ProductionChecked21To26(p); }
    else if p <= 39 { ProductionChecked27To39(p); }
    else { ProductionChecked40To52(p); }
  }

  lemma WeightChecked1To26(p: int)
    requires 1 <= p <= 26
    ensures WeightOk(p)
  {
  }

  lemma WeightChecked27To52(p: int)
    requires 27 <= p <= 52
    ensures WeightOk(p)
  {
  }

  // Every reduction by a non-empty production lowers the weight.
  lemma WeightChecked(p: int)
    requires 1 <= p < 53
    ensures WeightOk(p)
  {
    if p <= 26 { WeightChecked1To26(p); }
    else { WeightChecked27To52(p); }
  }

  lemma PendingChecked0To74(s: int)
    requires 0 <= s <= 74
    ensures PendingOk(s)
  {
  }

  lemma PendingChecked75To148(s: int)
    requires 75 <= s <= 148
    ensures PendingOk(s)
  {
  }

  // Every reduction by an empty production lowers the weight.
  lemma PendingChecked(s: int)
    requires 0 <= s < 149
    ensures PendingOk(s)
  {
    if s <= 74 { PendingChecked0To74(s); }
    else { PendingChecked75To148(s); }
  }
}
