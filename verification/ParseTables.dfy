/**
 The tables that goyacc wrote for the query grammar (querylang/query.go:264-389), entry by entry.
 Every table is a function on its index.  The long ones are cut into rows of ten entries, the
 way the generated file lays them out, so that a single look-up stays cheap to evaluate.
 */
module ParseTables {

  const LAST := 169
  const FLAG := -1000
  const PRIVATE := 57344
  const STATES := 149

  // sqAct, querylang/query.go:278-297
  function Act(n: int): int {
    if n < 80 then
      if n < 40 then
        if n < 20 then
          if n < 10 then Act0(n) else Act1(n)
        else
          if n < 30 then Act2(n) else Act3(n)
      else
        if n < 60 then
          if n < 50 then Act4(n) else Act5(n)
        else
          if n < 70 then Act6(n) else Act7(n)
    else
      if n < 120 then
        if n < 100 then
          if n < 90 then Act8(n) else Act9(n)
        else
          if n < 110 then Act10(n) else Act11(n)
      else
        if n < 140 then
          if n < 130 then Act12(n) else Act13(n)
        else
          if n < 150 then Act14(n) else if n < 160 then Act15(n) else Act16(n)
  }

  function Act0(n: int): int {
    match n
    case 0 => 99 case 1 => 77 case 2 => 48 case 3 => 74 case 4 => 50
    case 5 => 70 case 6 => 45 case 7 => 36 case 8 => 35 case _ => 49
  }

  function Act1(n: int): int {
    match n
    case 10 => 14 case 11 => 50 case 12 => 58 case 13 => 49 case 14 => 43
    case 15 => 50 case 16 => 22 case 17 => 42 case 18 => 32 case _ => 18
  }

  function Act2(n: int): int {
    match n
    case 20 => 125 case 21 => 121 case 22 => 75 case 23 => 89 case 24 => 15
    case 25 => 107 case 26 => 44 case 27 => 102 case 28 => 101 case _ => 56
  }

  function Act3(n: int): int {
    match n
    case 30 => 47 case 31 => 51 case 32 => 52 case 33 => 38 case 34 => 47
    case 35 => 55 case 36 => 37 case 37 => 34 case 38 => 14 case _ => 54
  }

  function Act4(n: int): int {
    match n
    case 40 => 40 case 41 => 66 case 42 => 41 case 43 => 61 case 44 => 71
    case 45 => 65 case 46 => 15 case 47 => 20 case 48 => 53 case _ => 69
  }

  function Act5(n: int): int {
    match n
    case 50 => 94 case 51 => 72 case 52 => 144 case 53 => 140 case 54 => 80
    case 55 => 38 case 56 => 139 case 57 => 130 case 58 => 37 case _ => 119
  }

  function Act6(n: int): int {
    match n
    case 60 => 106 case 61 => 93 case 62 => 40 case 63 => 83 case 64 => 41
    case 65 => 87 case 66 => 88 case 67 => 90 case 68 => 85 case _ => 86
  }

  function Act7(n: int): int {
    match n
    case 70 => 82 case 71 => 81 case 72 => 129 case 73 => 123 case 74 => 122
    case 75 => 91 case 76 => 29 case 77 => 28 case 78 => 27 case _ => 26
  }

  function Act8(n: int): int {
    match n
    case 80 => 97 case 81 => 103 case 82 => 124 case 83 => 98 case 84 => 116
    case 85 => 24 case 86 => 25 case 87 => 68 case 88 => 67 case _ => 115
  }

  function Act9(n: int): int {
    match n
    case 90 => 92 case 91 => 59 case 92 => 60 case 93 => 100 case 94 => 6
    case 95 => 138 case 96 => 133 case 97 => 132 case 98 => 71 case _ => 111
  }

  function Act10(n: int): int {
    match n
    case 100 => 108 case 101 => 109 case 102 => 112 case 103 => 110 case 104 => 23
    case 105 => 8 case 106 => 118 case 107 => 96 case 108 => 10 case _ => 12
  }

  function Act11(n: int): int {
    match n
    case 110 => 11 case 111 => 13 case 112 => 120 case 113 => 9 case 114 => 95
    case 115 => 63 case 116 => 64 case 117 => 50 case 118 => 84 case _ => 15
  }

  function Act12(n: int): int {
    match n
    case 120 => 62 case 121 => 126 case 122 => 73 case 123 => 113 case 124 => 7
    case 125 => 57 case 126 => 30 case 127 => 131 case 128 => 15 case _ => 127
  }

  function Act13(n: int): int {
    match n
    case 130 => 128 case 131 => 76 case 132 => 17 case 133 => 78 case 134 => 79
    case 135 => 114 case 136 => 134 case 137 => 19 case 138 => 21 case _ => 136
  }

  function Act14(n: int): int {
    match n
    case 140 => 137 case 141 => 142 case 142 => 143 case 143 => 145 case 144 => 146
    case 145 => 141 case 146 => 147 case 147 => 135 case 148 => 148 case _ => 31
  }

  function Act15(n: int): int {
    match n
    case 150 => 10 case 151 => 12 case 152 => 11 case 153 => 13 case 154 => 18
    case 155 => 9 case 156 => 117 case 157 => 105 case 158 => 104 case _ => 18
  }

  function Act16(n: int): int {
    match n
    case 160 => 2 case 161 => 5 case 162 => 3 case 163 => 1 case 164 => 46
    case 165 => 16 case 166 => 39 case 167 => 4 case _ => 33
  }

  // sqPact, querylang/query.go:298-315
  function Pact(n: int): int {
    if n < 70 then
      if n < 30 then
        if n < 10 then Pact0(n) else if n < 20 then Pact1(n) else Pact2(n)
      else
        if n < 50 then
          if n < 40 then Pact3(n) else Pact4(n)
        else
          if n < 60 then Pact5(n) else Pact6(n)
    else
      if n < 110 then
        if n < 90 then
          if n < 80 then Pact7(n) else Pact8(n)
        else
          if n < 100 then Pact9(n) else Pact10(n)
      else
        if n < 130 then
          if n < 120 then Pact11(n) else Pact12(n)
        else
          if n < 140 then Pact13(n) else Pact14(n)
  }

  function Pact0(n: int): int {
    match n
    case 0 => 156 case 1 => -1000 case 2 => 100 case 3 => 142 case 4 => 7
    case 5 => 147 case 6 => -1000 case 7 => -1000 case 8 => 109 case _ => 71
  }

  function Pact1(n: int): int {
    match n
    case 10 => 44 case 11 => 43 case 12 => 42 case 13 => 41 case 14 => 103
    case 15 => -1000 case 16 => 147 case 17 => -22 case 18 => 5 case _ => -23
  }

  function Pact2(n: int): int {
    match n
    case 20 => -1000 case 21 => -26 case 22 => -1000 case 23 => -9 case 24 => -5
    case 25 => -5 case 26 => 9 case 27 => 0 case 28 => -4 case _ => -10
  }

  function Pact3(n: int): int {
    match n
    case 30 => 109 case 31 => -28 case 32 => -1000 case 33 => 62 case 34 => 27
    case 35 => -1000 case 36 => 94 case 37 => 109 case 38 => 97 case _ => 55
  }

  function Pact4(n: int): int {
    match n
    case 40 => 27 case 41 => 97 case 42 => -1000 case 43 => -1000 case 44 => -5
    case 45 => 99 case 46 => -17 case 47 => 112 case 48 => -1000 case _ => -1000
  }

  function Pact5(n: int): int {
    match n
    case 50 => -1000 case 51 => 117 case 52 => 117 case 53 => 35 case 54 => 34
    case 55 => 109 case 56 => 95 case 57 => -1000 case 58 => -1000 case _ => 27
  }

  function Pact6(n: int): int {
    match n
    case 60 => 27 case 61 => -1000 case 62 => 97 case 63 => -16 case 64 => 97
    case 65 => -1000 case 66 => -1000 case 67 => 109 case 68 => 57 case _ => 25
  }

  function Pact7(n: int): int {
    match n
    case 70 => 12 case 71 => 91 case 72 => 84 case 73 => -5 case 74 => -1000
    case 75 => 109 case 76 => -1000 case 77 => 66 case 78 => -11 case _ => -12
  }

  function Pact8(n: int): int {
    match n
    case 80 => 66 case 81 => 145 case 82 => 144 case 83 => 24 case 84 => -14
    case 85 => -1000 case 86 => -1000 case 87 => -1000 case 88 => -1000 case _ => -1000
  }

  function Pact9(n: int): int {
    match n
    case 90 => -1000 case 91 => -1000 case 92 => 109 case 93 => -1000 case 94 => -1000
    case 95 => 97 case 96 => -5 case 97 => 117 case 98 => -17 case _ => -1000
  }

  function Pact10(n: int): int {
    match n
    case 100 => 104 case 101 => 118 case 102 => -1000 case 103 => -1000 case 104 => 56
    case 105 => 51 case 106 => 143 case 107 => 83 case 108 => -1000 case _ => -1000
  }

  function Pact11(n: int): int {
    match n
    case 110 => 23 case 111 => 66 case 112 => -1000 case 113 => -1000 case 114 => -18
    case 115 => 39 case 116 => 38 case 117 => 49 case 118 => -19 case _ => 117
  }

  function Pact12(n: int): int {
    match n
    case 120 => -1000 case 121 => -1000 case 122 => -5 case 123 => -5 case 124 => 37
    case 125 => 21 case 126 => 66 case 127 => 74 case 128 => 73 case _ => -5
  }

  function Pact13(n: int): int {
    match n
    case 130 => 134 case 131 => -1000 case 132 => -5 case 133 => -5 case 134 => 72
    case 135 => -1000 case 136 => 20 case 137 => 17 case 138 => -5 case _ => 117
  }

  function Pact14(n: int): int {
    match n
    case 140 => 117 case 141 => 16 case 142 => 66 case 143 => 66 case 144 => 117
    case 145 => -1000 case 146 => -1000 case 147 => 66 case _ => -1000
  }

  // sqChk, querylang/query.go:339-356
  function Chk(n: int): int {
    if n < 70 then
      if n < 30 then
        if n < 10 then Chk0(n) else if n < 20 then Chk1(n) else Chk2(n)
      else
        if n < 50 then
          if n < 40 then Chk3(n) else Chk4(n)
        else
          if n < 60 then Chk5(n) else Chk6(n)
    else
      if n < 110 then
        if n < 90 then
          if n < 80 then Chk7(n) else Chk8(n)
        else
          if n < 100 then Chk9(n) else Chk10(n)
      else
        if n < 130 then
          if n < 120 then Chk11(n) else Chk12(n)
        else
          if n < 140 then Chk13(n) else Chk14(n)
  }

  function Chk0(n: int): int {
    match n
    case 0 => -1000 case 1 => -16 case 2 => 4 case 3 => 6 case 4 => -4
    case 5 => -8 case 6 => -5 case 7 => 24 case 8 => 5 case _ => 13
  }

  function Chk1(n: int): int {
    match n
    case 10 => 8 case 11 => 10 case 12 => 9 case 13 => 11 case 14 => -15
    case 15 => 19 case 16 => -8 case 17 => -3 case 18 => 12 case _ => -3
  }

  function Chk2(n: int): int {
    match n
    case 20 => 40 case 21 => -3 case 22 => -15 case 23 => 33 case 24 => 14
    case 25 => 15 case 26 => 35 case 27 => 35 case 28 => 35 case _ => 35
  }

  function Chk3(n: int): int {
    match n
    case 30 => 23 case 31 => -3 case 32 => 40 case 33 => -1 case 34 => 32
    case 35 => -2 case 36 => -15 case 37 => 31 case 38 => 28 case _ => -7
  }

  function Chk4(n: int): int {
    match n
    case 40 => 35 case 41 => 37 case 42 => 40 case 43 => 40 case 44 => 35
    case 45 => -9 case 46 => -10 case 47 => 39 case 48 => -14 case _ => 18
  }

  function Chk5(n: int): int {
    match n
    case 50 => 20 case 51 => -9 case 52 => -9 case 53 => 39 case 54 => 39
    case 55 => 39 case 56 => 39 case 57 => -5 case 58 => 40 case _ => 29
  }

  function Chk6(n: int): int {
    match n
    case 60 => 30 case 61 => -2 case 62 => 26 case 63 => 21 case 64 => 22
    case 65 => -15 case 66 => -14 case 67 => 33 case 68 => 32 case _ => -2
  }

  function Chk7(n: int): int {
    match n
    case 70 => -6 case 71 => -14 case 72 => -9 case 73 => 23 case 74 => -11
    case 75 => 39 case 76 => 19 case 77 => -12 case 78 => 16 case _ => 17
  }

  function Chk8(n: int): int {
    match n
    case 80 => -12 case 81 => 36 case 82 => 36 case 83 => -15 case 84 => 23
    case 85 => -2 case 86 => -2 case 87 => -14 case 88 => -14 case _ => 39
  }

  function Chk9(n: int): int {
    match n
    case 90 => -14 case 91 => -15 case 92 => 33 case 93 => 36 case 94 => 38
    case 95 => 23 case 96 => 23 case 97 => -9 case 98 => -15 case _ => -13
  }

  function Chk10(n: int): int {
    match n
    case 100 => 27 case 101 => 39 case 102 => 39 case 103 => -13 case 104 => 13
    case 105 => 13 case 106 => 36 case 107 => 39 case 108 => -15 case _ => -6
  }

  function Chk11(n: int): int {
    match n
    case 110 => -9 case 111 => -12 case 112 => -11 case 113 => 19 case 114 => 17
    case 115 => 33 case 116 => 33 case 117 => 13 case 118 => 23 case _ => 36
  }

  function Chk12(n: int): int {
    match n
    case 120 => -13 case 121 => 39 case 122 => 35 case 123 => 35 case 124 => 33
    case 125 => 39 case 126 => -12 case 127 => -9 case 128 => -9 case _ => 35
  }

  function Chk13(n: int): int {
    match n
    case 130 => 36 case 131 => -13 case 132 => 23 case 133 => 23 case 134 => -9
    case 135 => 13 case 136 => -9 case 137 => -9 case 138 => 23 case _ => 36
  }

  function Chk14(n: int): int {
    match n
    case 140 => 36 case 141 => -9 case 142 => -12 case 143 => -12 case 144 => 36
    case 145 => -13 case 146 => -13 case 147 => -12 case _ => -13
  }

  // sqDef, querylang/query.go:357-374
  function Def(n: int): int {
    if n < 70 then
      if n < 30 then
        if n < 10 then Def0(n) else if n < 20 then Def1(n) else Def2(n)
      else
        if n < 50 then
          if n < 40 then Def3(n) else Def4(n)
        else
          if n < 60 then Def5(n) else Def6(n)
    else
      if n < 110 then
        if n < 90 then
          if n < 80 then Def7(n) else Def8(n)
        else
          if n < 100 then Def9(n) else Def10(n)
      else
        if n < 130 then
          if n < 120 then Def11(n) else Def12(n)
        else
          if n < 140 then Def13(n) else Def14(n)
  }

  function Def0(n: int): int {
    match n
    case 0 => 0 case 1 => -2 case 2 => 0 case 3 => 0 case 4 => 0
    case 5 => 0 case 6 => 11 case 7 => 12 case 8 => 14 case _ => 0
  }

  function Def1(n: int): int {
    match n
    case 10 => 0 case 11 => 0 case 12 => 0 case 13 => 0 case 14 => 6
    case 15 => 48 case 16 => 0 case 17 => 0 case 18 => 0 case _ => 0
  }

  function Def2(n: int): int {
    match n
    case 20 => 2 case 21 => 0 case 22 => 13 case 23 => 0 case 24 => 0
    case 25 => 0 case 26 => 0 case 27 => 0 case 28 => 0 case _ => 0
  }

  function Def3(n: int): int {
    match n
    case 30 => 0 case 31 => 0 case 32 => 5 case 33 => 37 case 34 => 0
    case 35 => 52 case 36 => 0 case 37 => 0 case 38 => 0 case _ => 0
  }

  function Def4(n: int): int {
    match n
    case 40 => 0 case 41 => 0 case 42 => 1 case 43 => 3 case 44 => 0
    case 45 => 0 case 46 => 23 case 47 => 26 case 48 => 27 case _ => 28
  }

  function Def5(n: int): int {
    match n
    case 50 => 47 case 51 => 31 case 52 => 31 case 53 => 0 case 54 => 0
    case 55 => 0 case 56 => 0 case 57 => 7 case 58 => 4 case _ => 0
  }

  function Def6(n: int): int {
    match n
    case 60 => 0 case 61 => 51 case 62 => 0 case 63 => 0 case 64 => 0
    case 65 => 42 case 66 => 43 case 67 => 0 case 68 => 0 case _ => 0
  }

  function Def7(n: int): int {
    match n
    case 70 => 0 case 71 => 9 case 72 => 0 case 73 => 0 case 74 => 24
    case 75 => 0 case 76 => 25 case 77 => 35 case 78 => 0 case _ => 0
  }

  function Def8(n: int): int {
    match n
    case 80 => 35 case 81 => 0 case 82 => 0 case 83 => 0 case 84 => 0
    case 85 => 49 case 86 => 50 case 87 => 38 case 88 => 39 case _ => 40
  }

  function Def9(n: int): int {
    match n
    case 90 => 41 case 91 => 44 case 92 => 0 case 93 => 46 case 94 => 8
    case 95 => 0 case 96 => 0 case 97 => 31 case 98 => 29 case _ => 21
  }

  function Def10(n: int): int {
    match n
    case 100 => 0 case 101 => 32 case 102 => 33 case 103 => 22 case 104 => 0
    case 105 => 0 case 106 => 0 case 107 => 0 case 108 => 45 case _ => 10
  }

  function Def11(n: int): int {
    match n
    case 110 => 0 case 111 => 35 case 112 => 30 case 113 => 36 case 114 => 0
    case 115 => 0 case 116 => 0 case 117 => 0 case 118 => 0 case _ => 31
  }

  function Def12(n: int): int {
    match n
    case 120 => 16 case 121 => 34 case 122 => 0 case 123 => 0 case 124 => 0
    case 125 => 0 case 126 => 35 case 127 => 0 case 128 => 0 case _ => 0
  }

  function Def13(n: int): int {
    match n
    case 130 => 0 case 131 => 15 case 132 => 0 case 133 => 0 case 134 => 0
    case 135 => 20 case 136 => 0 case 137 => 0 case 138 => 0 case _ => 31
  }

  function Def14(n: int): int {
    match n
    case 140 => 31 case 141 => 0 case 142 => 35 case 143 => 35 case 144 => 31
    case 145 => 17 case 146 => 18 case 147 => 35 case _ => 19
  }

  // sqPgo, querylang/query.go:316-320
  function Pgo(n: int): int {
    match n
    case 0 => 0 case 1 => 168 case 2 => 8 case 3 => 132 case 4 => 167 case 5 => 94 case 6 => 5 case 7 => 166
    case 8 => 161 case 9 => 6 case 10 => 164 case 11 => 3 case 12 => 1 case 13 => 0 case 14 => 2 case 15 => 7
    case 16 => 163 case _ => 0
  }

  // sqR1, querylang/query.go:321-329
  function R1(n: int): int {
    if n < 30 then
      if n < 10 then R10(n) else if n < 20 then R11(n) else R12(n)
    else
      if n < 40 then R13(n) else if n < 50 then R14(n) else R15(n)
  }

  function R10(n: int): int {
    match n
    case 0 => 0 case 1 => 16 case 2 => 16 case 3 => 16 case 4 => 16
    case 5 => 16 case 6 => 5 case 7 => 5 case 8 => 7 case _ => 6
  }

  function R11(n: int): int {
    match n
    case 10 => 6 case 11 => 4 case 12 => 4 case 13 => 4 case 14 => 4
    case 15 => 8 case 16 => 8 case 17 => 8 case 18 => 8 case _ => 8
  }

  function R12(n: int): int {
    match n
    case 20 => 8 case 21 => 8 case 22 => 8 case 23 => 9 case 24 => 9
    case 25 => 10 case 26 => 10 case 27 => 10 case 28 => 10 case _ => 11
  }

  function R13(n: int): int {
    match n
    case 30 => 11 case 31 => 12 case 32 => 12 case 33 => 12 case 34 => 12
    case 35 => 13 case 36 => 13 case 37 => 3 case 38 => 2 case _ => 2
  }

  function R14(n: int): int {
    match n
    case 40 => 2 case 41 => 2 case 42 => 2 case 43 => 2 case 44 => 2
    case 45 => 2 case 46 => 2 case 47 => 14 case 48 => 15 case _ => 1
  }

  function R15(n: int): int {
    match n
    case 50 => 1 case 51 => 1 case _ => 1
  }

  // sqR2, querylang/query.go:330-338
  function R2(n: int): int {
    if n < 30 then
      if n < 10 then R20(n) else if n < 20 then R21(n) else R22(n)
    else
      if n < 40 then R23(n) else if n < 50 then R24(n) else R25(n)
  }

  function R20(n: int): int {
    match n
    case 0 => 0 case 1 => 4 case 2 => 3 case 3 => 4 case 4 => 4
    case 5 => 3 case 6 => 1 case 7 => 3 case 8 => 3 case _ => 1
  }

  function R21(n: int): int {
    match n
    case 10 => 3 case 11 => 1 case 12 => 1 case 13 => 2 case 14 => 1
    case 15 => 9 case 16 => 7 case 17 => 13 case 18 => 13 case _ => 14
  }

  function R22(n: int): int {
    match n
    case 20 => 9 case 21 => 5 case 22 => 5 case 23 => 1 case 24 => 2
    case 25 => 2 case 26 => 1 case 27 => 1 case 28 => 1 case _ => 2
  }

  function R23(n: int): int {
    match n
    case 30 => 3 case 31 => 0 case 32 => 2 case 33 => 2 case 34 => 4
    case 35 => 0 case 36 => 2 case 37 => 2 case 38 => 3 case _ => 3
  }

  function R24(n: int): int {
    match n
    case 40 => 3 case 41 => 3 case 42 => 2 case 43 => 2 case 44 => 3
    case 45 => 4 case 46 => 3 case 47 => 1 case 48 => 1 case _ => 3
  }

  function R25(n: int): int {
    match n
    case 50 => 3 case 51 => 2 case _ => 1
  }

  // sqExca, querylang/query.go:264-268
  function Exca(n: int): int {
    match n
    case 0 => -1 case 1 => 1 case 2 => 1 case 3 => -1 case 4 => -2 case 5 => 0 case _ => 0
  }

  /** sqlex1: the lexer's token code becomes the parser's internal token number. */
  function Translate(code: int): int {
    if code <= 0 then 1
    else if PRIVATE <= code < PRIVATE + 41 then code - PRIVATE + 2
    else 3
  }

  /** The state entered by shifting token t in state s, or -1 when the tables hold no shift. */
  function ShiftTo(s: int, t: int): int {
    if Pact(s) <= FLAG || Pact(s) + t < 0 || Pact(s) + t >= LAST then -1
    else if Chk(Act(Pact(s) + t)) == t then Act(Pact(s) + t)
    else -1
  }

  /** The state entered from state s after a reduction to nonterminal number a. */
  function GotoTo(s: int, a: int): int {
    if Pgo(a) + s + 1 >= LAST then Act(Pgo(a))
    else if Chk(Act(Pgo(a) + s + 1)) == -a then Act(Pgo(a) + s + 1)
    else Act(Pgo(a))
  }

  // The walk through the exception table: first to the pair (-1, s) ...
  function ExcaState(s: int, xi: nat): (r: nat)
    ensures xi <= r
    decreases 6 - xi
  {
    if xi >= 6 || (Exca(xi) == -1 && Exca(xi + 1) == s) then xi else ExcaState(s, xi + 2)
  }

  // ... then to the first entry that is negative or names the token.
  function ExcaToken(t: int, xi: nat): (r: nat)
    ensures xi <= r
    decreases 6 - xi
  {
    if xi >= 6 || Exca(xi) < 0 || Exca(xi) == t then xi else ExcaToken(t, xi + 2)
  }

  function ExceptionAction(s: int, t: int): int {
    Exca(ExcaToken(t, ExcaState(s, 0) + 2) + 1)
  }

  /** The default action of s: a production, 0 for a syntax error, -1 for accept. */
  function DefaultAction(s: int, t: int): int {
    if Def(s) == -2 then ExceptionAction(s, t) else Def(s)
  }
}
