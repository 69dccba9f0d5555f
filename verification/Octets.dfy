/** Fixed-width unsigned integers, big-endian fields and the 4-octet padding rule of BFCP. */
module Octets {

  type u8 = x: int | 0 <= x < 0x100
  type u16 = x: int | 0 <= x < 0x1_0000
  type u32 = x: int | 0 <= x < 0x1_0000_0000

  // The definitions below are kept free of division and remainder, which the bit operations of the
  // source amount to; the lemmas beside them give the arithmetic forms the source computes with.

  /** `n` modulo `m`: what is left of `n` in a field that counts up to `m`. */
  function Low(n: nat, m: nat): (r: nat)
    requires m > 0
    ensures r < m
  {
    if n < m then n else Low(n - m, m)
  }

  lemma {:induction false} LowOf(k: nat, m: nat, r: nat)
    requires r < m
    ensures 0 <= k * m && Low(k * m + r, m) == r
  {
    if k > 0 {
      LowOf(k - 1, m, r);
      assert k * m + r - m == (k - 1) * m + r;
    }
  }

  lemma LowIs(n: nat, m: nat, k: nat, r: nat)
    requires n == k * m + r && r < m
    ensures Low(n, m) == r
  {
    LowOf(k, m, r);
  }

  lemma LowMod(n: nat, m: nat)
    requires m in {8, 32, 0x100, 0x1_0000}
    ensures Low(n, m) == n % m
  {
    if m == 8 {
      LowIs(n, 8, n / 8, n % 8);
    } else if m == 32 {
      LowIs(n, 32, n / 32, n % 32);
    } else if m == 0x100 {
      LowIs(n, 0x100, n / 0x100, n % 0x100);
    } else {
      LowIs(n, 0x1_0000, n / 0x1_0000, n % 0x1_0000);
    }
  }

  /** `n` truncated to an octet, Go's `byte(n)`. */
  function Low8(n: nat): u8 {
    Low(n, 0x100)
  }

  /** `t << 1` on an octet. */
  function Shl1(t: u8): u8 {
    if t < 128 then 2 * t as int else 2 * t as int - 0x100
  }

  function Shr1(b: u8): (t: u8)
    ensures t < 128 && (b == 2 * t as int || b == 2 * t as int + 1)
  {
    b / 2
  }

  function Shr5(b: u8): (t: u8)
    ensures t < 8 && 0 <= b - 32 * t as int < 32
  {
    b / 32
  }

  function GetU16(b: seq<u8>): u16
    requires |b| >= 2
  {
    b[0] as int * 0x100 + b[1]
  }

  /** The two octets whose big-endian value is `v`. */
  ghost function PutU16(v: u16): (b: seq<u8>)
    ensures |b| == 2 && GetU16(b) == v
  {
    assert GetU16([v / 0x100, v % 0x100]) == v;
    var b: seq<u8> :| |b| == 2 && GetU16(b) == v;
    b
  }

  lemma PutU16Octets(v: u16)
    ensures PutU16(v) == [v / 0x100, v % 0x100]
  {
  }

  lemma PutGet16(b: seq<u8>)
    requires |b| == 2
    ensures PutU16(GetU16(b)) == b
  {
  }

  function GetU32(b: seq<u8>): u32
    requires |b| >= 4
  {
    GetU16(b[..2]) as int * 0x1_0000 + GetU16(b[2..4])
  }

  ghost function PutU32(v: u32): (b: seq<u8>)
    ensures |b| == 4 && GetU32(b) == v
  {
    var b := PutU16(v / 0x1_0000) + PutU16(v % 0x1_0000);
    assert b[..2] == PutU16(v / 0x1_0000) && b[2..4] == PutU16(v % 0x1_0000);
    b
  }

  lemma PutGet32(b: seq<u8>)
    requires |b| == 4
    ensures PutU32(GetU32(b)) == b
  {
    var hi, lo := GetU16(b[..2]), GetU16(b[2..4]);
    assert GetU32(b) / 0x1_0000 == hi && GetU32(b) % 0x1_0000 == lo;
    PutGet16(b[..2]);
    PutGet16(b[2..4]);
  }

  function Zeros(n: nat): seq<u8> {
    seq(n, _ => 0)
  }

  /** `n` rounded up to the 4-octet boundary, word by word. */
  function Padded(n: nat): (p: nat)
    ensures n <= p < n + 4
  {
    if n == 0 then 0 else if n <= 4 then 4 else 4 + Padded(n - 4)
  }

  function Padding(n: nat): nat {
    Padded(n) - n
  }

  /** Multiple of 4 octets. */
  predicate Aligned(n: nat) {
    Padded(n) == n
  }

  lemma {:induction false} AlignedMod(n: nat)
    ensures Aligned(n) <==> n % 4 == 0
  {
    if n > 4 {
      AlignedMod(n - 4);
    }
  }

  lemma {:induction false} PaddedAligned(n: nat)
    ensures Aligned(Padded(n))
  {
    if n > 4 {
      PaddedAligned(n - 4);
    }
  }

  lemma {:induction false} AlignedSum(a: nat, b: nat)
    requires Aligned(a)
    ensures Aligned(a + b) <==> Aligned(b)
    ensures Padded(a + b) == a + Padded(b)
  {
    if a > 4 {
      AlignedSum(a - 4, b);
    }
  }

  lemma {:induction false} PaddedLeast(n: nat, m: nat)
    requires n <= m && Aligned(m)
    ensures Padded(n) <= m && Aligned(m - Padded(n))
  {
    if n > 4 {
      PaddedLeast(n - 4, m - 4);
    }
  }

  /** The padding as the parsers and the encoder skip it, and as the `build*` helpers compute it. */
  lemma {:induction false} PaddingSkipped(n: nat)
    ensures Padding(n) == if n % 4 != 0 then 4 - n % 4 else 0
  {
    if n > 4 {
      PaddingSkipped(n - 4);
    }
  }

  method Skip(n: nat) returns (pad: nat)
    ensures pad == Padding(n)
  {
    PaddingSkipped(n);
    pad := if n % 4 != 0 then 4 - n % 4 else 0;
  }

  lemma PaddingFormula(n: nat)
    ensures Padding(n) == (4 - n % 4) % 4
  {
    PaddingSkipped(n);
  }

  /** Whole 32-bit words in `n` octets. */
  function Words(n: nat): (w: nat)
    ensures 4 * w <= n < 4 * w + 4
  {
    if n < 4 then 0 else 1 + Words(n - 4)
  }

  lemma {:induction false} WordsDiv(n: nat)
    ensures Words(n) == n / 4
    ensures Aligned(n) <==> n == 4 * Words(n)
  {
    if n >= 4 {
      WordsDiv(n - 4);
      if n > 4 {
        AlignedMod(n);
        AlignedMod(n - 4);
      }
    }
  }

  lemma Concat3(a: seq<u8>, b: seq<u8>, c: seq<u8>)
    ensures a + (b + c) == a + b + c
    ensures (a + b + c)[..|a| + |b|] == a + b
    ensures (a + b + c)[|a| + |b|..] == c
  {
  }

  /** `s` without its first `n` octets, or nothing when it is shorter. */
  function Drop(s: seq<u8>, n: nat): (r: seq<u8>)
    ensures |r| == if n <= |s| then |s| - n else 0
  {
    if n == 0 || s == [] then s else Drop(s[1..], n - 1)
  }

  lemma {:induction false} DropIs(s: seq<u8>, n: nat)
    requires n <= |s|
    ensures Drop(s, n) == s[n..]
  {
    if n > 0 {
      DropIs(s[1..], n - 1);
    }
  }

  lemma {:induction false} DropTwice(s: seq<u8>, m: nat, n: nat)
    ensures Drop(Drop(s, m), n) == Drop(s, m + n)
    decreases m
  {
    if m > 0 && s != [] {
      DropTwice(s[1..], m - 1, n);
    }
  }

  /** What Go's `copy(buf[off:], src)` leaves in `buf`: the write is clipped at the end of `buf`. */
  function Put(buf: seq<u8>, off: nat, src: seq<u8>): (r: seq<u8>)
    ensures |r| == |buf|
    decreases src
  {
    if src == [] || off >= |buf| then buf else Put(buf[off := src[0]], off + 1, src[1..])
  }

  method Copy(buf: array<u8>, off: nat, src: seq<u8>)
    requires off <= buf.Length
    modifies buf
    ensures buf[..] == Put(old(buf[..]), off, src)
  {
    var i := 0;
    while i < |src| && off + i < buf.Length
      invariant 0 <= i <= |src| && off + i <= buf.Length
      invariant Put(buf[..], off + i, src[i..]) == Put(old(buf[..]), off, src)
    {
      ghost var before := buf[..];
      buf[off + i] := src[i];
      assert buf[..] == before[off + i := src[i]];
      assert src[i..][1..] == src[i + 1..];
      i := i + 1;
    }
  }

  lemma UpdateMiddle(a: seq<u8>, x: u8, c: seq<u8>, y: u8)
    ensures (a + ([x] + c))[|a| := y] == a + [y] + c
  {
  }

  lemma {:induction false} PutSplices(pre: seq<u8>, mid: seq<u8>, post: seq<u8>, src: seq<u8>)
    requires |src| == |mid|
    ensures Put(pre + mid + post, |pre|, src) == pre + src + post
    decreases src
  {
    if src != [] {
      var x, y := mid[0], src[0];
      assert mid == [x] + mid[1..] && src == [y] + src[1..];
      assert pre + mid + post == pre + ([x] + (mid[1..] + post));
      UpdateMiddle(pre, x, mid[1..] + post, y);
      Concat3(pre + [y], mid[1..], post);
      PutSplices(pre + [y], mid[1..], post, src[1..]);
      Concat3(pre, [y], src[1..]);
    } else {
      assert mid == src;
    }
  }

  lemma PutOnZeros(pre: seq<u8>, n: nat, src: seq<u8>)
    requires |src| <= n
    ensures Put(pre + Zeros(n), |pre|, src) == pre + src + Zeros(n - |src|)
  {
    SplitZeros(|src|, n - |src|);
    Concat3(pre, Zeros(|src|), Zeros(n - |src|));
    PutSplices(pre, Zeros(|src|), Zeros(n - |src|), src);
  }

  lemma SplitZeros(m: nat, n: nat)
    ensures Zeros(m + n) == Zeros(m) + Zeros(n)
  {
  }

  method PutUint16(buf: array<u8>, off: nat, v: u16)
    requires off + 2 <= buf.Length
    modifies buf
    ensures buf[..] == Put(old(buf[..]), off, PutU16(v))
  {
    PutU16Octets(v);
    Copy(buf, off, [v / 0x100, v % 0x100]);
  }

  method PutUint32(buf: array<u8>, off: nat, v: u32)
    requires off + 4 <= buf.Length
    modifies buf
    ensures buf[..] == Put(old(buf[..]), off, PutU32(v))
  {
    var hi: u16, lo: u16 := v / 0x1_0000, v % 0x1_0000;
    PutU16Octets(hi);
    PutU16Octets(lo);
    Copy(buf, off, [hi / 0x100, hi % 0x100, lo / 0x100, lo % 0x100]);
  }
}
