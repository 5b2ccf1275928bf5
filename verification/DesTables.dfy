/**
  Tables of the Data Encryption Standard as nsd/crypt.c prints them.
  Every table is kept in the rows of the source; the accessors below take the
  flat index that the C code uses.  Bit numbers in the tables start at 1.
*/
module DesTables {

  // Initial permutation of the block.
  const IP: seq<seq<int>> := [
    [58, 50, 42, 34, 26, 18, 10, 2],
    [60, 52, 44, 36, 28, 20, 12, 4],
    [62, 54, 46, 38, 30, 22, 14, 6],
    [64, 56, 48, 40, 32, 24, 16, 8],
    [57, 49, 41, 33, 25, 17, 9, 1],
    [59, 51, 43, 35, 27, 19, 11, 3],
    [61, 53, 45, 37, 29, 21, 13, 5],
    [63, 55, 47, 39, 31, 23, 15, 7]
  ]

  // Final permutation.
  const FP: seq<seq<int>> := [
    [40, 8, 48, 16, 56, 24, 64, 32],
    [39, 7, 47, 15, 55, 23, 63, 31],
    [38, 6, 46, 14, 54, 22, 62, 30],
    [37, 5, 45, 13, 53, 21, 61, 29],
    [36, 4, 44, 12, 52, 20, 60, 28],
    [35, 3, 43, 11, 51, 19, 59, 27],
    [34, 2, 42, 10, 50, 18, 58, 26],
    [33, 1, 41, 9, 49, 17, 57, 25]
  ]

  // Key bits that make up C.
  const PC1_C: seq<seq<int>> := [
    [57, 49, 41, 33, 25, 17, 9],
    [1, 58, 50, 42, 34, 26, 18],
    [10, 2, 59, 51, 43, 35, 27],
    [19, 11, 3, 60, 52, 44, 36]
  ]

  // Key bits that make up D.
  const PC1_D: seq<seq<int>> := [
    [63, 55, 47, 39, 31, 23, 15],
    [7, 62, 54, 46, 38, 30, 22],
    [14, 6, 61, 53, 45, 37, 29],
    [21, 13, 5, 28, 20, 12, 4]
  ]

  // Bits of C in each round key.
  const PC2_C: seq<seq<int>> := [
    [14, 17, 11, 24, 1, 5],
    [3, 28, 15, 6, 21, 10],
    [23, 19, 12, 4, 26, 8],
    [16, 7, 27, 20, 13, 2]
  ]

  // Bits of D in each round key, numbered after the 28 bits of C.
  const PC2_D: seq<seq<int>> := [
    [41, 52, 31, 37, 47, 55],
    [30, 40, 51, 45, 33, 48],
    [44, 49, 39, 56, 34, 53],
    [46, 42, 50, 36, 29, 32]
  ]

  // Unsalted E bit selection.
  const EXPANSION: seq<seq<int>> := [
    [32, 1, 2, 3, 4, 5],
    [4, 5, 6, 7, 8, 9],
    [8, 9, 10, 11, 12, 13],
    [12, 13, 14, 15, 16, 17],
    [16, 17, 18, 19, 20, 21],
    [20, 21, 22, 23, 24, 25],
    [24, 25, 26, 27, 28, 29],
    [28, 29, 30, 31, 32, 1]
  ]

  // Permutation of the selected bits.
  const P: seq<seq<int>> := [
    [16, 7, 20, 21],
    [29, 12, 28, 17],
    [1, 15, 23, 26],
    [5, 18, 31, 10],
    [2, 8, 24, 14],
    [32, 27, 3, 9],
    [19, 13, 30, 6],
    [22, 11, 4, 25]
  ]

  const SHIFTS: seq<nat> := [1, 1, 2, 2, 2, 2, 2, 2, 1, 2, 2, 2, 2, 2, 2, 1]

  // The eight selection functions, four rows of sixteen each.
  const S: seq<seq<seq<nat>>> := [
    [
      [14, 4, 13, 1, 2, 15, 11, 8, 3, 10, 6, 12, 5, 9, 0, 7],
      [0, 15, 7, 4, 14, 2, 13, 1, 10, 6, 12, 11, 9, 5, 3, 8],
      [4, 1, 14, 8, 13, 6, 2, 11, 15, 12, 9, 7, 3, 10, 5, 0],
      [15, 12, 8, 2, 4, 9, 1, 7, 5, 11, 3, 14, 10, 0, 6, 13]
    ],
    [
      [15, 1, 8, 14, 6, 11, 3, 4, 9, 7, 2, 13, 12, 0, 5, 10],
      [3, 13, 4, 7, 15, 2, 8, 14, 12, 0, 1, 10, 6, 9, 11, 5],
      [0, 14, 7, 11, 10, 4, 13, 1, 5, 8, 12, 6, 9, 3, 2, 15],
      [13, 8, 10, 1, 3, 15, 4, 2, 11, 6, 7, 12, 0, 5, 14, 9]
    ],
    [
      [10, 0, 9, 14, 6, 3, 15, 5, 1, 13, 12, 7, 11, 4, 2, 8],
      [13, 7, 0, 9, 3, 4, 6, 10, 2, 8, 5, 14, 12, 11, 15, 1],
      [13, 6, 4, 9, 8, 15, 3, 0, 11, 1, 2, 12, 5, 10, 14, 7],
      [1, 10, 13, 0, 6, 9, 8, 7, 4, 15, 14, 3, 11, 5, 2, 12]
    ],
    [
      [7, 13, 14, 3, 0, 6, 9, 10, 1, 2, 8, 5, 11, 12, 4, 15],
      [13, 8, 11, 5, 6, 15, 0, 3, 4, 7, 2, 12, 1, 10, 14, 9],
      [10, 6, 9, 0, 12, 11, 7, 13, 15, 1, 3, 14, 5, 2, 8, 4],
      [3, 15, 0, 6, 10, 1, 13, 8, 9, 4, 5, 11, 12, 7, 2, 14]
    ],
    [
      [2, 12, 4, 1, 7, 10, 11, 6, 8, 5, 3, 15, 13, 0, 14, 9],
      [14, 11, 2, 12, 4, 7, 13, 1, 5, 0, 15, 10, 3, 9, 8, 6],
      [4, 2, 1, 11, 10, 13, 7, 8, 15, 9, 12, 5, 6, 3, 0, 14],
      [11, 8, 12, 7, 1, 14, 2, 13, 6, 15, 0, 9, 10, 4, 5, 3]
    ],
    [
      [12, 1, 10, 15, 9, 2, 6, 8, 0, 13, 3, 4, 14, 7, 5, 11],
      [10, 15, 4, 2, 7, 12, 9, 5, 6, 1, 13, 14, 0, 11, 3, 8],
      [9, 14, 15, 5, 2, 8, 12, 3, 7, 0, 4, 10, 1, 13, 11, 6],
      [4, 3, 2, 12, 9, 5, 15, 10, 11, 14, 1, 7, 6, 0, 8, 13]
    ],
    [
      [4, 11, 2, 14, 15, 0, 8, 13, 3, 12, 9, 7, 5, 10, 6, 1],
      [13, 0, 11, 7, 4, 9, 1, 10, 14, 3, 5, 12, 2, 15, 8, 6],
      [1, 4, 11, 13, 12, 3, 7, 14, 10, 15, 6, 8, 0, 5, 9, 2],
      [6, 11, 13, 8, 1, 4, 10, 7, 9, 5, 0, 15, 14, 2, 3, 12]
    ],
    [
      [13, 2, 8, 4, 6, 15, 11, 1, 10, 9, 3, 14, 5, 0, 12, 7],
      [1, 15, 13, 8, 10, 3, 7, 4, 12, 5, 6, 11, 0, 14, 9, 2],
      [7, 11, 4, 1, 9, 12, 14, 2, 0, 6, 10, 13, 15, 3, 5, 8],
      [2, 1, 14, 7, 4, 10, 8, 13, 15, 12, 9, 0, 3, 5, 6, 11]
    ]
  ]

  // Accessors.  The ranges are what the callers need to index safely.

  function InitialBit(j: nat): (b: int)
    requires j < 64
    ensures 1 <= b <= 64
  {
    IP[j / 8][j % 8]
  }

  function FinalBit(j: nat): (b: int)
    requires j < 64
    ensures 1 <= b <= 64
  {
    FP[j / 8][j % 8]
  }

  // Bits 8, 16, ..., 64 of the key are parity bits: no choice selects them.
  function ChoiceC(j: nat): (b: int)
    requires j < 28
    ensures 1 <= b <= 64 && b % 8 != 0
  {
    PC1_C[j / 7][j % 7]
  }

  function ChoiceD(j: nat): (b: int)
    requires j < 28
    ensures 1 <= b <= 64 && b % 8 != 0
  {
    PC1_D[j / 7][j % 7]
  }

  function RoundKeyC(j: nat): (b: int)
    requires j < 24
    ensures 1 <= b <= 28
  {
    PC2_C[j / 6][j % 6]
  }

  function RoundKeyD(j: nat): (b: int)
    requires j < 24
    ensures 29 <= b <= 56
  {
    PC2_D[j / 6][j % 6]
  }

  function ExpansionBit(j: nat): (b: int)
    requires j < 48
    ensures 1 <= b <= 32
  {
    EXPANSION[j / 6][j % 6]
  }

  function PermutedBit(j: nat): (b: int)
    requires j < 32
    ensures 1 <= b <= 32
  {
    P[j / 4][j % 4]
  }

  predicate InRange(table: seq<int>, lo: int, hi: int) {
    forall j :: 0 <= j < |table| ==> lo <= table[j] <= hi
  }

  // Whole permutations, as the loops index them.

  function InitialPermutation(): (t: seq<int>)
    ensures |t| == 64 && InRange(t, 1, 64)
  {
    seq(64, j requires 0 <= j < 64 => InitialBit(j))
  }

  function FinalPermutation(): (t: seq<int>)
    ensures |t| == 64 && InRange(t, 1, 64)
  {
    seq(64, j requires 0 <= j < 64 => FinalBit(j))
  }

  function Permutation(): (t: seq<int>)
    ensures |t| == 32 && InRange(t, 1, 32)
  {
    seq(32, j requires 0 <= j < 32 => PermutedBit(j))
  }

  // Selection functions: eight, of four rows of sixteen.
  predicate ValidBoxes(s: seq<seq<seq<nat>>>) {
    |s| == 8 && forall g :: 0 <= g < 8 ==> |s[g]| == 4 && forall r :: 0 <= r < 4 ==> |s[g][r]| == 16
  }

  function Boxes(): (s: seq<seq<seq<nat>>>)
    ensures ValidBoxes(s)
  {
    S
  }

  // The tables of the key schedule, flattened as the loops index them.
  datatype KeyTables = KeyTables(pc1C: seq<int>, pc1D: seq<int>, pc2C: seq<int>, pc2D: seq<int>, shifts: seq<nat>) {
    predicate Valid() {
      |pc1C| == 28 && InRange(pc1C, 1, 64) && |pc1D| == 28 && InRange(pc1D, 1, 64) &&
      |pc2C| == 24 && InRange(pc2C, 1, 28) && |pc2D| == 24 && InRange(pc2D, 29, 56) &&
      |shifts| == 16
    }

    // No selected key bit is one of the parity bits 8, 16, ..., 64.
    predicate AvoidsParity() {
      forall j :: 0 <= j < 28 ==> (j < |pc1C| ==> pc1C[j] % 8 != 0) && (j < |pc1D| ==> pc1D[j] % 8 != 0)
    }
  }

  function StandardTables(): (t: KeyTables)
    ensures t.Valid() && t.AvoidsParity() && t.shifts == SHIFTS
  {
    KeyTables(seq(28, j requires 0 <= j < 28 => ChoiceC(j)), seq(28, j requires 0 <= j < 28 => ChoiceD(j)),
              seq(24, j requires 0 <= j < 24 => RoundKeyC(j)), seq(24, j requires 0 <= j < 24 => RoundKeyD(j)),
              SHIFTS)
  }

  // Spelling out the rows and columns lets the verifier evaluate the tables.
  ghost predicate Below8(n: nat) {
    n == 0 || n == 1 || n == 2 || n == 3 || n == 4 || n == 5 || n == 6 || n == 7
  }

  // q undoes p: what p picks from position j - 1, q puts back.
  predicate Undoes(q: seq<int>, p: seq<int>) {
    |p| == |q| && InRange(p, 1, |q|) && forall j :: 0 <= j < |p| ==> q[p[j] - 1] == j + 1
  }

  // Each table walks the block in steps of eight.
  lemma InitialBitForm(r: nat, c: nat)
    requires r < 8 && c < 8
    ensures InitialBit(8 * r + c) == (if r < 4 then 58 else 49) + 2 * r - 8 * c
  {
    assert Below8(r) && Below8(c);
  }

  lemma FinalBitForm(r: nat, c: nat)
    requires r < 8 && c < 8
    ensures FinalBit(8 * r + c) == (if c % 2 == 0 then 40 else 8) + 8 * (c / 2) - r
  {
    assert Below8(r) && Below8(c);
  }

  lemma FinalAfterInitial(j: nat)
    requires j < 64
    ensures FinalBit(InitialBit(j) - 1) == j + 1
  {
    hide InitialBit, FinalBit;
    var r, c := j / 8, j % 8;
    InitialBitForm(r, c);
    FinalBitForm(7 - c, if r < 4 then 2 * r + 1 else 2 * r - 8);
  }

  lemma InitialAfterFinal(j: nat)
    requires j < 64
    ensures InitialBit(FinalBit(j) - 1) == j + 1
  {
    hide InitialBit, FinalBit;
    var r, c := j / 8, j % 8;
    FinalBitForm(r, c);
    InitialBitForm(if c % 2 == 0 then 4 + c / 2 else c / 2, 7 - r);
  }

  // FP is the inverse of IP, in both orders of composition.
  lemma PermutationsInverse()
    ensures Undoes(FinalPermutation(), InitialPermutation())
    ensures Undoes(InitialPermutation(), FinalPermutation())
  {
    forall j | 0 <= j < 64
      ensures FinalPermutation()[InitialPermutation()[j] - 1] == j + 1
    {
      FinalAfterInitial(j);
    }
    forall j | 0 <= j < 64
      ensures InitialPermutation()[FinalPermutation()[j] - 1] == j + 1
    {
      InitialAfterFinal(j);
    }
  }
}
