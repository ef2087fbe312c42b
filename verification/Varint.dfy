/**
 Base 128 varints (Protocol Buffers Encoding guide, "Base 128 Varints") as models/locket.pb.go
 writes, measures and reads them. The source accumulates with `|` and `<<`; the bits it combines
 never overlap, so the same numbers are written here with `+` and `*`.
 */
module Varint {
  import opened Models

  datatype DecodeError =
    | IntOverflow
    | UnexpectedEOF
    | InvalidLength
    | EndGroup
    | IllegalTag
    | WrongWireType
    | IllegalWireType

  function Encode(v: nat): (bs: seq<byte>)
    ensures bs != []
  {
    if v < 128 then [v] else [v % 128 + 128] + Encode(v / 128)
  }

  datatype Read = Got(value: nat, len: nat) | Bad(error: DecodeError)

  /** Reads a varint of which `n` bytes have been read already. The bytes past bit 63 still count
      towards the value here; readers cut it down to their own width. */
  function Decode(s: seq<byte>, n: nat): (r: Read)
    decreases 10 - n
    ensures r.Got? ==> 1 <= r.len <= |s| && n + r.len <= 10
  {
    if n >= 10 then Bad(IntOverflow)
    else if s == [] then Bad(UnexpectedEOF)
    else if s[0] < 128 then Got(s[0], 1)
    else
      match Decode(s[1..], n + 1)
      case Got(v, l) => Got(s[0] - 128 + 128 * v, l + 1)
      case Bad(e) => Bad(e)
  }

  /** A complete varint and nothing else, minimal or not. */
  predicate IsVarint(bs: seq<byte>) {
    Decode(bs, 0).Got? && Decode(bs, 0).len == |bs|
  }

  function ValueOf(bs: seq<byte>): nat
    requires IsVarint(bs)
  {
    Decode(bs, 0).value
  }

  /** What is read depends only on the bytes that are read. */
  lemma {:induction false} DecodeIsLocal(s: seq<byte>, n: nat, t: seq<byte>)
    requires Decode(s, n).Got?
    ensures Decode(s[..Decode(s, n).len] + t, n) == Decode(s, n)
    decreases |s|
  {
    var l := Decode(s, n).len;
    var u := s[..l] + t;
    if s[0] >= 128 {
      DecodeIsLocal(s[1..], n + 1, t);
      assert u[1..] == s[1..][..l - 1] + t;
    }
  }

  lemma VarintThenMore(bs: seq<byte>, t: seq<byte>)
    requires IsVarint(bs)
    ensures Decode(bs + t, 0) == Got(ValueOf(bs), |bs|)
  {
    DecodeIsLocal(bs, 0, t);
    assert bs[..|bs|] == bs;
  }

  /** The first bytes of any input that can be read at all are a varint. */
  lemma ReadIsVarint(s: seq<byte>)
    requires Decode(s, 0).Got?
    ensures var bs := s[..Decode(s, 0).len];
            IsVarint(bs) && ValueOf(bs) == Decode(s, 0).value
  {
    DecodeIsLocal(s, 0, []);
    assert s[..Decode(s, 0).len] + [] == s[..Decode(s, 0).len];
  }

  lemma {:induction false} EncodeLength(v: nat, k: nat)
    requires v < Shl7(1, k) && k > 0
    ensures |Encode(v)| <= k
  {
    if v >= 128 {
      EncodeLength(v / 128, k - 1);
    }
  }

  lemma TenBytesSuffice()
    ensures TWO_64 <= Shl7(1, 10)
  {
    assert Shl7(1, 3) == 0x20_0000;
    assert Shl7(1, 6) == 0x400_0000_0000;
    assert Shl7(1, 9) == 0x8000_0000_0000_0000;
  }

  /** Every 64-bit value takes at most ten bytes, and reading them back gives the value. */
  lemma EncodeDecode(v: nat, t: seq<byte>)
    requires v < TWO_64
    ensures |Encode(v)| <= 10
    ensures Decode(Encode(v) + t, 0) == Got(v, |Encode(v)|)
    ensures IsVarint(Encode(v)) && ValueOf(Encode(v)) == v
  {
    TenBytesSuffice();
    EncodeLength(v, 10);
    EncodeDecodeFrom(v, 0, t);
    EncodeDecodeFrom(v, 0, []);
    assert Encode(v) + [] == Encode(v);
  }

  lemma {:induction false} EncodeDecodeFrom(v: nat, n: nat, t: seq<byte>)
    requires n + |Encode(v)| <= 10
    ensures Decode(Encode(v) + t, n) == Got(v, |Encode(v)|)
  {
    if v >= 128 {
      EncodeDecodeFrom(v / 128, n + 1, t);
      assert (Encode(v) + t)[1..] == Encode(v / 128) + t;
    }
  }

  /** The i-th group of seven bits, from the low end. */
  function Group(v: nat, i: nat): nat {
    if i == 0 then v % 128 else Group(v / 128, i - 1)
  }

  /** The form of a varint: groups of seven bits, low ones first, the top bit set in every byte but the
      last, and no more bytes than the value needs. */
  lemma {:induction false} EncodeForm(v: nat, i: nat)
    requires i < |Encode(v)|
    ensures Encode(v)[i] % 128 == Group(v, i)
    ensures Encode(v)[i] >= 128 <==> i < |Encode(v)| - 1
    ensures i > 0 && i == |Encode(v)| - 1 ==> Encode(v)[i] > 0
  {
    if v >= 128 {
      if i > 0 {
        EncodeForm(v / 128, i - 1);
        assert Encode(v)[i] == Encode(v / 128)[i - 1];
      }
    }
  }

  /** The example of the guide: 150 is 96 01. */
  lemma GuideExample()
    ensures Encode(150) == [0x96, 0x01]
  {
    assert Encode(150) == [150 % 128 + 128] + Encode(150 / 128);
  }

  /** Exactly which inputs start with a varint: those with a byte below 128 among the first ten. Ten bytes
      without one are an overflow, fewer an unexpected end. */
  lemma {:induction false} DecodeExact(s: seq<byte>, n: nat)
    requires n <= 10
    ensures Decode(s, n) == Bad(IntOverflow) <==> |s| >= 10 - n && forall i :: 0 <= i < 10 - n ==> s[i] >= 128
    ensures Decode(s, n) == Bad(UnexpectedEOF) <==> |s| < 10 - n && forall i :: 0 <= i < |s| ==> s[i] >= 128
    ensures Decode(s, n).Bad? ==> Decode(s, n).error == IntOverflow || Decode(s, n).error == UnexpectedEOF
    ensures Decode(s, n).Got? ==>
              var l := Decode(s, n).len;
              s[l - 1] < 128 && forall i :: 0 <= i < l - 1 ==> s[i] >= 128
    decreases 10 - n
  {
    if n < 10 && s != [] && s[0] >= 128 {
      DecodeExact(s[1..], n + 1);
      assert forall i :: 0 <= i < |s| - 1 ==> s[1..][i] == s[i + 1];
      assert forall i :: 1 <= i < |s| ==> s[i] == s[1..][i - 1];
    }
  }

  /** The width of the word that a read loop accumulates in. */
  datatype Width = Bits32 | Bits64

  function Size(w: Width): nat {
    match w
    case Bits32 => TWO_32
    case Bits64 => TWO_64
  }

  /** What is left of a number in a word: the remainder modulo its size. */
  function Cut(w: Width, x: nat): (r: nat)
    ensures r < Size(w)
  {
    if x < Size(w) then x else Cut(w, x - Size(w))
  }

  lemma {:induction false} CutLeaves(w: Width, x: nat) returns (q: nat)
    ensures x == q * Size(w) + Cut(w, x)
  {
    q := 0;
    if x >= Size(w) {
      q := CutLeaves(w, x - Size(w));
      q := q + 1;
    }
  }

  lemma CutIsMod(w: Width, x: nat)
    ensures Cut(w, x) == x % Size(w)
  {
    var q := CutLeaves(w, x);
    if w == Bits32 {
      SameRest32(q, Cut(w, x), x / TWO_32, x % TWO_32);
    } else {
      SameRest64(q, Cut(w, x), x / TWO_64, x % TWO_64);
    }
  }

  lemma SameRest32(q: nat, r: nat, q': nat, r': nat)
    requires q * TWO_32 + r == q' * TWO_32 + r' && r < TWO_32 && r' < TWO_32
    ensures r == r'
  {}

  lemma SameRest64(q: nat, r: nat, q': nat, r': nat)
    requires q * TWO_64 + r == q' * TWO_64 + r' && r < TWO_64 && r' < TWO_64
    ensures r == r'
  {}

  /** Cutting at every step of a sum is cutting the sum. */
  lemma {:induction false} CutSum(w: Width, word: nat, a: nat, b: nat, sum: nat)
    requires word == Cut(w, a) && sum == a + b
    ensures Cut(w, word + b) == Cut(w, sum)
    decreases a
  {
    if a >= Size(w) {
      CutSum(w, word, a - Size(w), b, sum - Size(w));
    }
  }

  /** Cutting leaves the low bits, and a narrower word can be cut from a wider one. */
  lemma {:induction false} CutLow(x: nat)
    ensures Cut(Bits64, x) % 8 == x % 8
    ensures Cut(Bits32, Cut(Bits64, x)) == Cut(Bits32, x)
  {
    if x >= TWO_64 {
      CutLow(x - TWO_64);
      CutMultiple(x - TWO_64, TWO_32);
    }
  }

  lemma {:induction false} CutMultiple(x: nat, k: nat)
    ensures Cut(Bits32, x + k * TWO_32) == Cut(Bits32, x)
  {
    if k > 0 {
      CutMultiple(x, k - 1);
    }
  }

  /** A word read as a signed number, two's complement. */
  function Signed(w: Width, word: nat): int
    requires word < Size(w)
  {
    if word < Size(w) / 2 then word else word - Size(w)
  }

  function ToInt64(v: nat): int64 {
    Signed(Bits64, Cut(Bits64, v))
  }

  function ToInt32(v: nat): int32 {
    Signed(Bits32, Cut(Bits32, v))
  }

  /** uint64(x) of a signed integer: sign extended. */
  function ToUint64(x: int64): nat {
    if x < 0 then x + TWO_64 else x
  }

  /** Signed fields come back: a negative one is written as ten bytes of its 64-bit complement and
      cut back to its own width. */
  lemma SignedRoundTrip(x: int64)
    ensures ToUint64(x) < TWO_64
    ensures ToInt64(ToUint64(x)) == x
    ensures -TWO_31 <= x < TWO_31 ==> ToInt32(ToUint64(x)) == x
  {
    if -TWO_31 <= x < 0 {
      CutMultiple(x + TWO_32, TWO_32 - 1);
    }
  }

  // ---------------------------------------------------------------- the loops

  /** Writes a varint into a buffer and returns the offset behind it. */
  method EncodeVarint(dAtA: array<byte>, offset: nat, v: nat) returns (end: nat)
    requires offset + |Encode(v)| <= dAtA.Length
    modifies dAtA
    ensures end == offset + |Encode(v)|
    ensures dAtA[..end] == old(dAtA[..offset]) + Encode(v)
    ensures forall k :: end <= k < dAtA.Length ==> dAtA[k] == old(dAtA[k])
  {
    var rest, i := v, offset;
    while rest >= 128
      invariant offset <= i && i + |Encode(rest)| == offset + |Encode(v)|
      invariant dAtA[..i] + Encode(rest) == old(dAtA[..offset]) + Encode(v)
      invariant forall k :: offset + |Encode(v)| <= k < dAtA.Length ==> dAtA[k] == old(dAtA[k])
    {
      ghost var before := dAtA[..i];
      dAtA[i] := rest % 128 + 128;
      assert dAtA[..i + 1] + Encode(rest / 128) == before + Encode(rest);
      rest := rest / 128;
      i := i + 1;
    }
    dAtA[i] := rest;
    end := i + 1;
  }

  /** sovLocket: the length of a varint, by shifting. */
  method Sov(x: nat) returns (n: nat)
    ensures n == |Encode(x)|
  {
    n := 0;
    var rest := x;
    while true
      invariant n + |Encode(rest)| == |Encode(x)|
      decreases rest
    {
      n := n + 1;
      if rest / 128 == 0 {
        break;
      }
      rest := rest / 128;
    }
  }

  /** The read loop, accumulating in a word as the source does for uint64, int, int64 and int32
      alike. `value` is the word, before any reading of its top bit as a sign. */
  method ReadVarint(dAtA: seq<byte>, start: nat, w: Width) returns (value: nat, iNdEx: nat, err: Option<DecodeError>)
    requires start <= |dAtA|
    ensures var d := Decode(dAtA[start..], 0);
            && err == (if d.Got? then None else Some(d.error))
            && (d.Got? ==> value == Cut(w, d.value) && iNdEx == start + d.len)
  {
    ghost var d := Decode(dAtA[start..], 0);
    value, iNdEx, err := 0, start, None;
    var n: nat := 0;               // shift / 7
    ghost var sum: nat := 0;       // the value without truncation
    while true
      invariant iNdEx == start + n <= |dAtA| && n <= 10
      invariant sum < Shl7(1, n)   // so the next bits do not overlap the ones read
      invariant value == Cut(w, sum) && err == None
      invariant d == Resume(sum, n, Decode(dAtA[iNdEx..], n))
      decreases |dAtA| - iNdEx
    {
      if 7 * n >= 64 {
        err := Some(IntOverflow);
        return;
      }
      if iNdEx >= |dAtA| {
        err := Some(UnexpectedEOF);
        return;
      }
      var b := dAtA[iNdEx];
      var bits := Shl7(b % 128, n);
      var i', n' := iNdEx + 1, n + 1;
      ghost var sum' := sum + bits;
      ResumeWith(sum, n, bits, dAtA, iNdEx, sum', n', i');
      CutSum(w, value, sum, bits, sum');
      value, sum, iNdEx, n := Cut(w, value + bits), sum', i', n';
      if b < 128 {
        return;
      }
    }
  }

  /** x << (7 * n) */
  function Shl7(x: nat, n: nat): nat {
    if n == 0 then x else 128 * Shl7(x, n - 1)
  }

  /** The whole read, from the first `n` bytes' bits and the rest of the read. */
  function Resume(sum: nat, n: nat, rest: Read): Read {
    match rest
    case Got(v, l) => Got(sum + Shl7(v, n), n + l)
    case Bad(e) => Bad(e)
  }

  lemma {:induction false} Shl7Sum(x: nat, y: nat, n: nat, n': nat)
    requires n' == n + 1
    ensures Shl7(x + 128 * y, n) == Shl7(x, n) + Shl7(y, n')
    ensures x < 128 ==> Shl7(x, n) + Shl7(1, n) <= Shl7(1, n')
  {
    if n > 0 {
      Shl7Sum(x, y, n - 1, n);
    }
  }

  /** One more byte: its seven bits land above all bits read so far. */
  lemma ResumeWith(sum: nat, n: nat, bits: nat, s: seq<byte>, i: nat, sum': nat, n': nat, i': nat)
    requires sum < Shl7(1, n) && n < 10 && i < |s| && bits == Shl7(s[i] % 128, n)
    requires sum' == sum + bits && n' == n + 1 && i' == i + 1
    ensures sum' < Shl7(1, n')
    ensures Resume(sum, n, Decode(s[i..], n)) ==
            if s[i] < 128 then Got(sum', n') else Resume(sum', n', Decode(s[i'..], n'))
  {
    assert s[i..][1..] == s[i'..] && s[i..][0] == s[i];
    var rest := Decode(s[i'..], n');
    var v := if rest.Got? then rest.value else 0;
    Shl7Sum(s[i] % 128, v, n, n');
  }
}
