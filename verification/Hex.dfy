/**
  The two library conversions that chunk framing relies on: printing a size
  with "%lx" and reading one back with strtol in base 16, on a platform whose
  long has 64 bits.
*/
module Hex {
  import opened Bytes

  const LONG_MAX: int := 0x7fff_ffff_ffff_ffff
  const SIZE_RANGE: int := 0x1_0000_0000_0000_0000

  // ---------------------------------------------------------------- printing

  function HexDigit(d: nat): Byte
    requires d < 16
  {
    if d < 10 then 48 + d else 87 + d
  }

  function PrintHex(n: nat): (s: Bytes)
    ensures s != []
  {
    if n < 16 then [HexDigit(n)] else PrintHex(n / 16) + [HexDigit(n % 16)]
  }

  // ----------------------------------------------------------------- reading

  predicate IsSpace(b: Byte) {
    b == 32 || 9 <= b <= 13
  }

  predicate IsHexDigit(b: Byte) {
    48 <= b <= 57 || 65 <= b <= 70 || 97 <= b <= 102
  }

  function DigitValue(b: Byte): (v: nat)
    requires IsHexDigit(b)
    ensures v < 16
  {
    if b <= 57 then b - 48 else if b <= 70 then b - 55 else b - 87
  }

  // Index of the first byte at or after i that is not white space.
  function SkipSpace(s: Bytes, i: nat): (k: nat)
    requires i <= |s|
    ensures i <= k <= |s|
    decreases |s| - i
  {
    if i < |s| && IsSpace(s[i]) then SkipSpace(s, i + 1) else i
  }

  // An optional "0x" or "0X".
  function SkipPrefix(s: Bytes, i: nat): (k: nat)
    requires i <= |s|
    ensures i <= k <= |s|
  {
    if i + 2 <= |s| && s[i] == 48 && (s[i + 1] == 120 || s[i + 1] == 88) then i + 2 else i
  }

  // The value of the longest run of hex digits at i, continuing from acc.
  function ReadDigits(s: Bytes, i: nat, acc: nat): nat
    requires i <= |s|
    decreases |s| - i
  {
    if i < |s| && IsHexDigit(s[i]) then ReadDigits(s, i + 1, 16 * acc + DigitValue(s[i])) else acc
  }

  // strtol(s, NULL, 16) on a NUL-terminated copy of s.
  function Strtol16(s: Bytes): (v: int)
    ensures -LONG_MAX - 1 <= v <= LONG_MAX
  {
    var i := SkipSpace(s, 0);
    var negative := i < |s| && s[i] == 45;
    var j := if i < |s| && (s[i] == 45 || s[i] == 43) then i + 1 else i;
    var n: int := ReadDigits(s, SkipPrefix(s, j), 0);
    if negative then (if n > LONG_MAX + 1 then -LONG_MAX - 1 else -n)
    else (if n > LONG_MAX then LONG_MAX else n)
  }

  // The cast of a long to size_t.
  function ToSize(v: int): (n: nat)
    requires -LONG_MAX - 1 <= v <= LONG_MAX
  {
    if v < 0 then v + SIZE_RANGE else v
  }

  // -------------------------------------------------------------- round trip

  lemma {:induction false} PrintedDigits(n: nat)
    ensures forall i :: 0 <= i < |PrintHex(n)| ==> IsHexDigit(PrintHex(n)[i])
  {
    if n >= 16 {
      PrintedDigits(n / 16);
    }
  }

  lemma {:induction false} ReadDigitsAppend(s: Bytes, b: Byte, i: nat, acc: nat)
    requires i <= |s| && IsHexDigit(b) && forall k :: 0 <= k < |s| ==> IsHexDigit(s[k])
    ensures ReadDigits(s + [b], i, acc) == 16 * ReadDigits(s, i, acc) + DigitValue(b)
    decreases |s| - i
  {
    if i < |s| {
      ReadDigitsAppend(s, b, i + 1, 16 * acc + DigitValue(s[i]));
    } else {
      assert ReadDigits(s + [b], i + 1, 16 * acc + DigitValue(b)) == 16 * acc + DigitValue(b);
    }
  }

  lemma {:induction false} ReadPrinted(n: nat)
    ensures ReadDigits(PrintHex(n), 0, 0) == n
  {
    if n < 16 {
      assert ReadDigits(PrintHex(n), 1, n) == n;
    } else {
      ReadPrinted(n / 16);
      PrintedDigits(n / 16);
      ReadDigitsAppend(PrintHex(n / 16), HexDigit(n % 16), 0, 0);
    }
  }

  // strtol undoes "%lx" for every size that fits a long; larger ones saturate.
  lemma StrtolPrinted(n: nat)
    ensures Strtol16(PrintHex(n)) == if n <= LONG_MAX then n else LONG_MAX
  {
    PrintedDigits(n);
    ReadPrinted(n);
    var s := PrintHex(n);
    assert IsHexDigit(s[0]);
    if |s| >= 2 {
      assert IsHexDigit(s[1]);
    }
  }
}
