/**
 * String helpers the Go code takes from the standard library (strconv, strings, fmt):
 * decimal rendering and parsing, ASCII case folding, prefix and suffix trimming,
 * FieldsFunc-style splitting and byte-wise ordering. Go strings are UTF-8 bytes and
 * compare byte-wise; comparing code points in order gives the same order.
 */
module Strings {
  import opened Wrappers

  predicate IsDigit(c: char) { '0' <= c <= '9' }

  predicate AllDigits(s: string) { forall i :: 0 <= i < |s| ==> IsDigit(s[i]) }

  function DigitChar(d: nat): (c: char)
    requires d < 10
    ensures IsDigit(c)
  {
    ('0' as int + d) as char
  }

  /** The value of a run of decimal digits, most significant first. */
  function DecimalValue(s: string): nat
    requires AllDigits(s)
  {
    if s == [] then 0
    else DecimalValue(s[..|s| - 1]) * 10 + (s[|s| - 1] as int - '0' as int)
  }

  /** fmt's %d rendering of a non-negative integer. */
  function Itoa(n: nat): (s: string)
    ensures |s| > 0 && AllDigits(s)
  {
    if n < 10 then [DigitChar(n)] else Itoa(n / 10) + [DigitChar(n % 10)]
  }

  lemma {:induction false} ItoaRoundTrip(n: nat)
    ensures DecimalValue(Itoa(n)) == n
  {
    if n >= 10 {
      var s := Itoa(n);
      assert s[..|s| - 1] == Itoa(n / 10);
      ItoaRoundTrip(n / 10);
    }
  }

  lemma ItoaInjective(m: nat, n: nat)
    ensures Itoa(m) == Itoa(n) ==> m == n
  {
    ItoaRoundTrip(m);
    ItoaRoundTrip(n);
  }

  datatype ParseError = SyntaxError | RangeError

  /**
   * strconv.ParseUint(s, 10, bitSize): no sign, no underscores, at least one digit,
   * and the value must fit in bitSize bits.
   */
  function ParseUint(s: string, bitSize: nat): (r: Result<nat, ParseError>)
    ensures r.Success? <==> (s != [] && AllDigits(s) && DecimalValue(s) < Pow2(bitSize))
    ensures r.Success? ==> r.value == DecimalValue(s)
  {
    if s == [] || !AllDigits(s) then Failure(SyntaxError)
    else if DecimalValue(s) >= Pow2(bitSize) then Failure(RangeError)
    else Success(DecimalValue(s))
  }

  /**
   * The number strconv.ParseUint returns beside its error: 0 after a syntax error,
   * the largest bitSize-bit value after a range error.
   */
  function ParseUintValue(s: string, bitSize: nat): (v: nat)
    ensures v < Pow2(bitSize)
    ensures ParseUint(s, bitSize).Failure? && ParseUint(s, bitSize).error == SyntaxError ==> v == 0
  {
    match ParseUint(s, bitSize)
    case Success(v) => v
    case Failure(SyntaxError) => 0
    case Failure(RangeError) => Pow2(bitSize) - 1
  }

  function Pow2(k: nat): (p: nat)
    ensures p >= 1
  {
    if k == 0 then 1 else 2 * Pow2(k - 1)
  }

  lemma {:induction false} Pow2Add(a: nat, b: nat)
    ensures Pow2(a + b) == Pow2(a) * Pow2(b)
    decreases a
  {
    if a > 0 {
      Pow2Add(a - 1, b);
    }
  }

  /** 32-bit values are those below 2^32. */
  lemma Pow2Of32()
    ensures Pow2(32) == 0x1_0000_0000
  {
    assert Pow2(4) == 16;
    Pow2Add(4, 4);
    Pow2Add(8, 8);
    Pow2Add(16, 16);
  }

  /** 16-bit values are those below 2^16. */
  lemma Pow2Of16()
    ensures Pow2(16) == 0x1_0000
  {
    assert Pow2(4) == 16;
    Pow2Add(4, 4);
    Pow2Add(8, 8);
  }

  lemma ItoaParses(n: nat, bitSize: nat)
    requires n < Pow2(bitSize)
    ensures ParseUint(Itoa(n), bitSize) == Success(n)
  {
    ItoaRoundTrip(n);
  }

  // ---- ASCII case handling (strings.ToLower, strings.EqualFold) ----

  function LowerChar(c: char): char {
    if 'A' <= c <= 'Z' then (c as int + 32) as char else c
  }

  function ToLower(s: string): (r: string)
    ensures |r| == |s|
    ensures forall i :: 0 <= i < |s| ==> r[i] == LowerChar(s[i])
  {
    if s == [] then [] else [LowerChar(s[0])] + ToLower(s[1..])
  }

  lemma ToLowerIdempotent(s: string)
    ensures ToLower(ToLower(s)) == ToLower(s)
  {
  }

  predicate EqualFold(a: string, b: string) {
    ToLower(a) == ToLower(b)
  }

  // ---- prefixes and suffixes ----

  predicate HasPrefix(s: string, p: string) { |p| <= |s| && s[..|p|] == p }

  predicate HasSuffix(s: string, p: string) { |p| <= |s| && s[|s| - |p|..] == p }

  function TrimPrefix(s: string, p: string): (r: string)
    ensures HasPrefix(s, p) ==> s == p + r
    ensures !HasPrefix(s, p) ==> r == s
  {
    if HasPrefix(s, p) then s[|p|..] else s
  }

  function TrimSuffix(s: string, p: string): (r: string)
    ensures HasSuffix(s, p) ==> s == r + p
    ensures !HasSuffix(s, p) ==> r == s
  {
    if HasSuffix(s, p) then s[..|s| - |p|] else s
  }

  // ---- strings.FieldsFunc ----

  /** Length of the leading run of non-separator characters. */
  function FieldLen(s: string, isSep: char -> bool): (n: nat)
    ensures n <= |s|
    ensures forall i :: 0 <= i < n ==> !isSep(s[i])
    ensures n < |s| ==> isSep(s[n])
  {
    if s == [] || isSep(s[0]) then 0 else 1 + FieldLen(s[1..], isSep)
  }

  /**
   * strings.FieldsFunc: the maximal runs of non-separator characters, in order;
   * separators are dropped and no field is empty.
   */
  function Fields(s: string, isSep: char -> bool): (fs: seq<string>)
    ensures forall k :: 0 <= k < |fs| ==> |fs[k]| > 0
    ensures forall k, i :: 0 <= k < |fs| && 0 <= i < |fs[k]| ==> !isSep(fs[k][i])
    decreases |s|
  {
    if s == [] then []
    else if isSep(s[0]) then Fields(s[1..], isSep)
    else
      var n := FieldLen(s, isSep);
      [s[..n]] + Fields(s[n..], isSep)
  }

  predicate NoSep(s: string, isSep: char -> bool) {
    forall i :: 0 <= i < |s| ==> !isSep(s[i])
  }

  lemma {:induction false} FieldLenOfRun(a: string, rest: string, isSep: char -> bool)
    requires NoSep(a, isSep)
    requires rest == [] || isSep(rest[0])
    ensures FieldLen(a + rest, isSep) == |a|
    decreases |a|
  {
    if a != [] {
      assert (a + rest)[1..] == a[1..] + rest;
      FieldLenOfRun(a[1..], rest, isSep);
    }
  }

  /** A non-empty separator-free run followed by a separator is the first field. */
  lemma FieldsCons(a: string, c: char, rest: string, isSep: char -> bool)
    requires a != [] && NoSep(a, isSep) && isSep(c)
    ensures Fields(a + [c] + rest, isSep) == [a] + Fields(rest, isSep)
  {
    var s := a + [c] + rest;
    FieldLenOfRun(a, [c] + rest, isSep);
    assert s == a + ([c] + rest);
    assert s[..|a|] == a;
    assert s[|a|..] == [c] + rest;
    assert ([c] + rest)[1..] == rest;
  }

  /** A non-empty separator-free string is a single field. */
  lemma FieldsSingle(a: string, isSep: char -> bool)
    requires a != [] && NoSep(a, isSep)
    ensures Fields(a, isSep) == [a]
  {
    FieldLenOfRun(a, [], isSep);
    assert a + [] == a;
    assert a[|a|..] == [];
  }

  // ---- byte-wise ordering (strings.Compare, sort.Strings) ----

  /** a sorts strictly before b: the first differing character is smaller, or a is a proper prefix of b. */
  predicate StrLess(a: string, b: string) {
    if a == [] then b != []
    else if b == [] then false
    else if a[0] != b[0] then a[0] < b[0]
    else StrLess(a[1..], b[1..])
  }

  lemma {:induction false} StrLessIrreflexive(a: string)
    ensures !StrLess(a, a)
  {
    if a != [] {
      StrLessIrreflexive(a[1..]);
    }
  }

  lemma {:induction false} StrLessAsymmetric(a: string, b: string)
    ensures StrLess(a, b) ==> !StrLess(b, a)
  {
    if a != [] && b != [] && a[0] == b[0] {
      StrLessAsymmetric(a[1..], b[1..]);
    }
  }

  lemma {:induction false} StrLessTransitive(a: string, b: string, c: string)
    ensures StrLess(a, b) && StrLess(b, c) ==> StrLess(a, c)
  {
    if a != [] && b != [] && c != [] && a[0] == b[0] && b[0] == c[0] {
      StrLessTransitive(a[1..], b[1..], c[1..]);
    }
  }

  lemma {:induction false} StrLessTotal(a: string, b: string)
    ensures a == b || StrLess(a, b) || StrLess(b, a)
  {
    if a != [] && b != [] && a[0] == b[0] {
      StrLessTotal(a[1..], b[1..]);
      if a[1..] == b[1..] {
        assert a == [a[0]] + a[1..] && b == [b[0]] + b[1..];
      }
    }
  }
}
