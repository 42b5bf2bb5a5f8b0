/** 32-byte hashes as big-endian numbers: conversion, comparison and increment. */
module Hashes {
  import opened Common
  import opened Arithmetic

  type Byte = x: nat | x < 256

  type Hash = bytes: seq<Byte> | |bytes| == 32 witness seq(32, _ => 0)

  /** The number a big-endian byte string stands for. */
  function FromBytes(bytes: seq<Byte>): nat {
    if bytes == [] then 0 else FromBytes(bytes[..|bytes| - 1]) * 256 + bytes[|bytes| - 1]
  }

  /** The shortest big-endian byte string of a number; zero is one zero byte. */
  function ToBytes(n: nat): (bytes: seq<Byte>)
    ensures |bytes| > 0 && FromBytes(bytes) == n
    ensures |bytes| > 1 ==> bytes[0] != 0
  {
    if n < 256 then [n] else
    var high := ToBytes(n / 256);
    assert (high + [n % 256])[..|high|] == high;
    high + [n % 256]
  }

  function HashToU256(hash: Hash): nat {
    FromBytes(hash)
  }

  datatype Ordering = Less | Equal | Greater

  function HashCmp(a: Hash, b: Hash): Ordering {
    if HashToU256(a) < HashToU256(b) then Less
    else if HashToU256(a) == HashToU256(b) then Equal
    else Greater
  }

  // ---- Numbers and byte strings ----

  lemma {:induction false} FromBytesBound(bytes: seq<Byte>)
    ensures FromBytes(bytes) < Pow(256, |bytes|)
  {
    if bytes != [] {
      FromBytesBound(bytes[..|bytes| - 1]);
    }
  }

  lemma {:induction false} FromBytesConcat(a: seq<Byte>, b: seq<Byte>)
    ensures FromBytes(a + b) == FromBytes(a) * Pow(256, |b|) + FromBytes(b)
  {
    if b == [] {
      assert a + b == a;
    } else {
      var front := b[..|b| - 1];
      assert (a + b)[..|a + b| - 1] == a + front;
      FromBytesConcat(a, front);
      MulDistributes(FromBytes(a) * Pow(256, |front|), FromBytes(front), 256);
      MulAssoc(FromBytes(a), Pow(256, |front|), 256);
    }
  }

  function Zeros(n: nat): (z: seq<Byte>)
    ensures |z| == n
  {
    seq(n, _ => 0)
  }

  lemma {:induction false} ZerosAreZero(n: nat)
    ensures FromBytes(Zeros(n)) == 0
  {
    if n > 0 {
      ZerosAreZero(n - 1);
      assert Zeros(n)[..n - 1] == Zeros(n - 1);
    }
  }

  lemma LeadingZeros(n: nat, bytes: seq<Byte>)
    ensures FromBytes(Zeros(n) + bytes) == FromBytes(bytes)
  {
    ZerosAreZero(n);
    FromBytesConcat(Zeros(n), bytes);
  }

  /** Equal lengths and equal numbers mean equal bytes. */
  lemma {:induction false} FromBytesInjective(a: seq<Byte>, b: seq<Byte>)
    requires |a| == |b| && FromBytes(a) == FromBytes(b)
    ensures a == b
  {
    if a != [] {
      FromBytesInjective(a[..|a| - 1], b[..|b| - 1]);
      assert a == a[..|a| - 1] + [a[|a| - 1]] && b == b[..|b| - 1] + [b[|b| - 1]];
    }
  }

  lemma TwoTo256()
    ensures Pow(256, 32) == U256_RANGE
  {
    assert Pow(256, 1) == 256 && Pow(256, 2) == 0x1_0000;
    PowSum(256, 2, 2);
    PowSum(256, 4, 4);
    PowSum(256, 8, 8);
    PowSum(256, 16, 16);
  }

  lemma ModuloOfSum(high: nat, low: nat, range: nat)
    requires low < range
    ensures (high * range + low) % range == low
  {
    MulDistributes(high, 1, range);
    QuotientUnique(high * range + low, range, high);
  }

  lemma ModuloAtMostRange(n: nat, range: nat)
    requires n <= range && range > 0
    ensures n % range == if n == range then 0 else n
  {
    ModuloOfSum(if n == range then 1 else 0, if n == range then 0 else n, range);
  }

  /** Keeping the last k bytes is reduction modulo 256^k. */
  lemma LowBytesValue(bytes: seq<Byte>, k: nat)
    requires k <= |bytes|
    ensures Pow(256, k) > 0 && FromBytes(bytes[|bytes| - k..]) == FromBytes(bytes) % Pow(256, k)
  {
    var dropped, kept := bytes[..|bytes| - k], bytes[|bytes| - k..];
    PowPositive(256, k);
    assert bytes == dropped + kept;
    FromBytesConcat(dropped, kept);
    FromBytesBound(kept);
    ModuloOfSum(FromBytes(dropped), FromBytes(kept), Pow(256, k));
  }

  // ---- Numbers as hashes ----

  /** The hash of a number: the last 32 of its bytes, as if it were written with enough leading zeros. */
  function U256AsHash(value: nat): Hash {
    var padded := Zeros(32) + ToBytes(value);
    padded[|padded| - 32..]
  }

  /** Taking the low bytes is reduction modulo 2^256. */
  lemma U256AsHashValue(value: nat)
    ensures HashToU256(U256AsHash(value)) == value % U256_RANGE
  {
    TwoTo256();
    LeadingZeros(32, ToBytes(value));
    LowBytesValue(Zeros(32) + ToBytes(value), 32);
  }

  /** Converting a hash to a number and back gives the same 32 bytes, however few bytes the number needs. */
  lemma HashRoundTrip(hash: Hash)
    ensures U256AsHash(HashToU256(hash)) == hash
  {
    TwoTo256();
    FromBytesBound(hash);
    U256AsHashValue(HashToU256(hash));
    FromBytesInjective(U256AsHash(HashToU256(hash)), hash);
  }

  /** Longer byte strings lose their high bytes, shorter ones are padded with zeros. */
  method U256ToHash(value: nat) returns (hash: Hash)
    ensures hash == U256AsHash(value)
  {
    var bytes := ToBytes(value);
    if |bytes| > 32 {
      bytes := bytes[|bytes| - 32..];
    } else if |bytes| < 32 {
      var padded := Zeros(32 - |bytes|);
      padded := padded + bytes;
      bytes := padded;
    }
    hash := bytes;
  }

  /** Ripple carry: the last byte below 255 goes up by one and every byte after it becomes zero; all-ones wraps to zeros. */
  function Successor(bytes: seq<Byte>): (r: seq<Byte>)
    ensures |r| == |bytes|
  {
    if bytes == [] then [] else
    var front, last := bytes[..|bytes| - 1], bytes[|bytes| - 1];
    if last < 255 then front + [last + 1] else Successor(front) + [0]
  }

  lemma {:induction false} SuccessorIsPlusOne(bytes: seq<Byte>)
    ensures var n := FromBytes(bytes) + 1;
      n <= Pow(256, |bytes|) && FromBytes(Successor(bytes)) == if n == Pow(256, |bytes|) then 0 else n
  {
    FromBytesBound(bytes);
    if bytes != [] {
      var front, last := bytes[..|bytes| - 1], bytes[|bytes| - 1];
      SuccessorIsPlusOne(front);
      assert Successor(bytes)[..|front|] == if last < 255 then front else Successor(front);
    }
  }

  lemma IncrementIsSuccessor(hash: Hash)
    ensures U256AsHash(HashToU256(hash) + 1) == Successor(hash)
    ensures HashToU256(Successor(hash)) == (HashToU256(hash) + 1) % U256_RANGE
  {
    var n := HashToU256(hash) + 1;
    TwoTo256();
    SuccessorIsPlusOne(hash);
    ModuloAtMostRange(n, U256_RANGE);
    U256AsHashValue(n);
    FromBytesInjective(U256AsHash(n), Successor(hash));
  }

  /** Adding one to a hash is plus one modulo 2^256, and on its bytes a ripple carry. */
  method HashIncrement(hash: Hash) returns (next: Hash)
    ensures HashToU256(next) == (HashToU256(hash) + 1) % U256_RANGE
    ensures next == Successor(hash)
  {
    var value := HashToU256(hash);
    value := value + 1;
    next := U256ToHash(value);
    IncrementIsSuccessor(hash);
  }

  lemma {:induction false} AllOnesWrap(n: nat)
    ensures Successor(seq(n, _ => 255)) == Zeros(n)
  {
    if n > 0 {
      AllOnesWrap(n - 1);
      var ones: seq<Byte> := seq(n, _ => 255);
      assert ones[..n - 1] == seq(n - 1, _ => 255);
      assert Zeros(n - 1) + [0] == Zeros(n);
    }
  }

  // ---- Comparison ----

  /** Dictionary order from the first byte. */
  predicate LexLess(a: seq<Byte>, b: seq<Byte>)
    requires |a| == |b|
  {
    a != [] && (a[0] < b[0] || (a[0] == b[0] && LexLess(a[1..], b[1..])))
  }

  lemma HeadDecides(x: Byte, y: Byte, p: nat, low: nat, other: nat)
    requires low < p && other < p && x < y
    ensures x * p + low < y * p + other
  {
    MulMonotone(x + 1, y, p, p);
    MulDistributes(x, 1, p);
  }

  lemma {:induction false} NumericIsLexicographic(a: seq<Byte>, b: seq<Byte>)
    requires |a| == |b|
    ensures FromBytes(a) < FromBytes(b) <==> LexLess(a, b)
  {
    if a != [] {
      var p := Pow(256, |a| - 1);
      assert a == [a[0]] + a[1..] && b == [b[0]] + b[1..];
      FromBytesConcat([a[0]], a[1..]);
      FromBytesConcat([b[0]], b[1..]);
      assert FromBytes([a[0]]) == a[0] && FromBytes([b[0]]) == b[0];
      FromBytesBound(a[1..]);
      FromBytesBound(b[1..]);
      NumericIsLexicographic(a[1..], b[1..]);
      if a[0] < b[0] { HeadDecides(a[0], b[0], p, FromBytes(a[1..]), FromBytes(b[1..])); }
      if b[0] < a[0] { HeadDecides(b[0], a[0], p, FromBytes(b[1..]), FromBytes(a[1..])); }
    }
  }

  /** Comparing hashes as numbers is comparing them byte by byte. */
  lemma HashCmpIsLexicographic(a: Hash, b: Hash)
    ensures match HashCmp(a, b)
      case Less => LexLess(a, b) && !LexLess(b, a)
      case Equal => a == b
      case Greater => LexLess(b, a) && !LexLess(a, b)
  {
    NumericIsLexicographic(a, b);
    NumericIsLexicographic(b, a);
    if FromBytes(a) == FromBytes(b) { FromBytesInjective(a, b); }
  }
}
