/**
 Fields on the wire (Protocol Buffers Encoding guide, "Message Structure" and "Length-Delimited
 Records") and the skipper for fields a message does not know, skipLocket in models/locket.pb.go.
 */
module Wire {
  import opened Models
  import opened Varint

  /** A field of any wire type, in any of its encodings: `tag`, `value`, `length` and `end` are
      varints, minimal or not. */
  datatype Field =
    | VarintField(tag: seq<byte>, value: seq<byte>)
    | Fixed64Field(tag: seq<byte>, payload: seq<byte>)
    | BytesField(tag: seq<byte>, length: seq<byte>, payload: seq<byte>)
    | GroupField(tag: seq<byte>, fields: seq<Field>, end: seq<byte>)
    | Fixed32Field(tag: seq<byte>, payload: seq<byte>)

  function WireType(f: Field): nat {
    match f
    case VarintField(_, _) => 0
    case Fixed64Field(_, _) => 1
    case BytesField(_, _, _) => 2
    case GroupField(_, _, _) => 3
    case Fixed32Field(_, _) => 5
  }

  function Bytes(f: Field): seq<byte>
    decreases f, 1
  {
    f.tag + Body(f)
  }

  function Body(f: Field): seq<byte>
    decreases f, 0
  {
    match f
    case VarintField(_, value) => value
    case Fixed64Field(_, payload) => payload
    case BytesField(_, length, payload) => length + payload
    case GroupField(_, fields, end) => BytesAll(fields) + end
    case Fixed32Field(_, payload) => payload
  }

  function BytesAll(fs: seq<Field>): seq<byte> {
    if fs == [] then [] else Bytes(fs[0]) + BytesAll(fs[1..])
  }

  predicate IsTag(tag: seq<byte>, wireType: nat) {
    IsVarint(tag) && ValueOf(tag) % 8 == wireType
  }

  /** The field follows the grammar of its wire type, at any depth of nesting. */
  predicate WellFormed(f: Field) {
    && IsTag(f.tag, WireType(f))
    && match f
       case VarintField(_, value) => IsVarint(value)
       case Fixed64Field(_, payload) => |payload| == 8
       case BytesField(_, length, payload) => IsVarint(length) && ToInt64(ValueOf(length)) == |payload|
       case GroupField(_, fields, end) => AllWellFormed(fields) && IsTag(end, 4)
       case Fixed32Field(_, payload) => |payload| == 4
  }

  predicate AllWellFormed(fs: seq<Field>) {
    fs == [] || (WellFormed(fs[0]) && AllWellFormed(fs[1..]))
  }

  datatype Skipped = Past(n: nat) | Fails(error: DecodeError)

  /** skipLocket: how many bytes the field at the start of `s` takes. The answer may point past the
      end of `s`; the caller checks. */
  function Skip(s: seq<byte>): (r: Skipped)
    decreases |s|, 0
    ensures r.Past? ==> r.n >= 1
  {
    match Decode(s, 0)
    case Bad(e) => Fails(e)
    case Got(tag, l) =>
      var rest := s[l..];
      match tag % 8
      case 0 => (match Decode(rest, 0) case Bad(e) => Fails(e) case Got(_, m) => Past(l + m))
      case 1 => Past(l + 8)
      case 2 => (match Decode(rest, 0)
                 case Bad(e) => Fails(e)
                 case Got(v, m) => if ToInt64(v) < 0 then Fails(InvalidLength) else Past(l + m + ToInt64(v)))
      case 3 => (match SkipGroup(rest) case Fails(e) => Fails(e) case Past(m) => Past(l + m))
      case 4 => Past(l)
      case 5 => Past(l + 4)
      case _ => Fails(IllegalWireType)
  }

  /** The inside of a group: fields up to and including an end tag. */
  function SkipGroup(s: seq<byte>): (r: Skipped)
    decreases |s|, 1
    ensures r.Past? ==> 1 <= r.n <= |s|
  {
    match Decode(s, 0)
    case Bad(e) => Fails(e)
    case Got(tag, l) =>
      if tag % 8 == 4 then Past(l)
      else
        match Skip(s)
        case Fails(e) => Fails(e)
        case Past(n) =>
          if n > |s| then Fails(UnexpectedEOF)
          else match SkipGroup(s[n..]) case Fails(e) => Fails(e) case Past(m) => Past(n + m)
  }

  lemma TagComesFirst(f: Field, t: seq<byte>)
    requires WellFormed(f)
    ensures Decode(Bytes(f) + t, 0) == Got(ValueOf(f.tag), |f.tag|)
    ensures (Bytes(f) + t)[|f.tag|..] == Body(f) + t
  {
    assert Bytes(f) + t == f.tag + (Body(f) + t);
    VarintThenMore(f.tag, Body(f) + t);
  }

  /** The two wire types that do not exist are refused. */
  lemma NoSuchWireType(tag: seq<byte>, t: seq<byte>)
    requires IsVarint(tag) && ValueOf(tag) % 8 >= 6
    ensures Skip(tag + t) == Fails(IllegalWireType)
  {
    VarintThenMore(tag, t);
  }

  /** Every well-formed field, whatever follows it, is skipped in exactly its own length. */
  lemma {:induction false} SkipExact(f: Field, t: seq<byte>)
    requires WellFormed(f)
    ensures Skip(Bytes(f) + t) == Past(|Bytes(f)|)
    ensures |Bytes(f)| > 0
    decreases f, 0
  {
    if f.GroupField? {
      SkipGroupExact(f.fields, f.end, t);
      JoinGroup(f, t);
      TagComesFirst(f, t);
    } else {
      SkipFlat(f, t);
    }
  }

  lemma JoinGroup(f: Field, t: seq<byte>)
    requires f.GroupField?
    ensures Body(f) + t == BytesAll(f.fields) + (f.end + t)
  {}

  lemma SkipFlat(f: Field, t: seq<byte>)
    requires WellFormed(f) && !f.GroupField?
    ensures Skip(Bytes(f) + t) == Past(|Bytes(f)|)
    ensures |Bytes(f)| > 0
  {
    TagComesFirst(f, t);
    if f.VarintField? {
      VarintThenMore(f.value, t);
    } else if f.BytesField? {
      assert Body(f) + t == f.length + (f.payload + t);
      VarintThenMore(f.length, f.payload + t);
    }
  }

  lemma {:induction false} SkipGroupExact(fs: seq<Field>, end: seq<byte>, t: seq<byte>)
    requires AllWellFormed(fs) && IsTag(end, 4)
    ensures SkipGroup(BytesAll(fs) + (end + t)) == Past(|BytesAll(fs)| + |end|)
    decreases fs, 1
  {
    if fs == [] {
      assert BytesAll(fs) + (end + t) == end + t;
      VarintThenMore(end, t);
    } else {
      var f, rest := fs[0], BytesAll(fs[1..]) + (end + t);
      var s := BytesAll(fs) + (end + t);
      assert s == Bytes(f) + rest;
      SkipExact(f, rest);
      TagComesFirst(f, rest);
      SkipGroupExact(fs[1..], end, t);
      assert s[|Bytes(f)|..] == rest;
    }
  }

  lemma TakeMore(s: seq<byte>, a: nat, b: nat)
    requires a + b <= |s|
    ensures s[..a + b] == s[..a] + s[a..][..b]
  {}

  /** Conversely, whatever the skipper gets past within the input is a well-formed field (or a bare
      end tag, which its callers have ruled out). */
  lemma {:induction false} SkipSound(s: seq<byte>) returns (f: Field)
    requires Skip(s).Past? && Skip(s).n <= |s| && Decode(s, 0).value % 8 != 4
    ensures WellFormed(f) && Bytes(f) == s[..Skip(s).n]
    decreases |s|, 0
  {
    var n, l := Skip(s).n, Decode(s, 0).len;
    ReadIsVarint(s);
    TakeMore(s, l, n - l);
    if Decode(s, 0).value % 8 == 3 {
      var fields, end := SkipGroupSound(s[l..]);
      f := GroupField(s[..l], fields, end);
    } else {
      f := FlatBody(s[..l], s[l..], n - l);
    }
  }

  /** The body of a field that is not a group, from its tag and the bytes that follow. */
  lemma FlatBody(tag: seq<byte>, rest: seq<byte>, n: nat) returns (f: Field)
    requires IsVarint(tag) && n <= |rest|
    requires var w := ValueOf(tag) % 8;
             || (w == 0 && Decode(rest, 0).Got? && n == Decode(rest, 0).len)
             || (w == 1 && n == 8)
             || (w == 2 && Decode(rest, 0).Got? && n == Decode(rest, 0).len + ToInt64(Decode(rest, 0).value)
                 && ToInt64(Decode(rest, 0).value) >= 0)
             || (w == 5 && n == 4)
    ensures WellFormed(f) && Bytes(f) == tag + rest[..n]
  {
    var w := ValueOf(tag) % 8;
    if w == 0 {
      ReadIsVarint(rest);
      f := VarintField(tag, rest[..n]);
    } else if w == 1 {
      f := Fixed64Field(tag, rest[..n]);
    } else if w == 2 {
      var m := Decode(rest, 0).len;
      ReadIsVarint(rest);
      TakeMore(rest, m, n - m);
      f := BytesField(tag, rest[..m], rest[m..][..n - m]);
    } else {
      f := Fixed32Field(tag, rest[..n]);
    }
  }

  lemma {:induction false} SkipGroupSound(s: seq<byte>) returns (fs: seq<Field>, end: seq<byte>)
    requires SkipGroup(s).Past?
    ensures AllWellFormed(fs) && IsTag(end, 4) && BytesAll(fs) + end == s[..SkipGroup(s).n]
    decreases |s|, 1
  {
    ReadIsVarint(s);
    if Decode(s, 0).value % 8 == 4 {
      fs, end := [], s[..Decode(s, 0).len];
    } else {
      var n := Skip(s).n;
      var f := SkipSound(s);
      var more;
      more, end := SkipGroupSound(s[n..]);
      fs := [f] + more;
      FieldsCons(f, more, end);
      TakeMore(s, n, SkipGroup(s[n..]).n);
    }
  }

  lemma FieldsCons(f: Field, fs: seq<Field>, end: seq<byte>)
    ensures BytesAll([f] + fs) + end == Bytes(f) + (BytesAll(fs) + end)
    ensures AllWellFormed([f] + fs) == (WellFormed(f) && AllWellFormed(fs))
  {
    assert ([f] + fs)[1..] == fs;
  }

  /** skipLocket as written, recursion on the rest of the slice included. */
  method SkipLocket(dAtA: seq<byte>) returns (n: nat, err: Option<DecodeError>)
    requires dAtA != []
    ensures Skip(dAtA) == if err.None? then Past(n) else Fails(err.value)
    decreases |dAtA|, 0
  {
    n := 0;
    assert dAtA[0..] == dAtA;
    var wire, iNdEx;
    wire, iNdEx, err := ReadVarint(dAtA, 0, Bits64);
    if err.Some? {
      return;
    }
    CutLow(Decode(dAtA, 0).value);
    var wireType := wire % 8;
    if wireType == 0 {
      wire, iNdEx, err := ReadVarint(dAtA, iNdEx, Bits64);
      n := iNdEx;
    } else if wireType == 1 {
      n := iNdEx + 8;
    } else if wireType == 2 {
      var length;
      length, iNdEx, err := ReadVarint(dAtA, iNdEx, Bits64);
      if err.Some? {
        return;
      }
      if Signed(Bits64, length) < 0 {
        return 0, Some(InvalidLength);
      }
      n := iNdEx + Signed(Bits64, length);
    } else if wireType == 3 {
      n, err := SkipGroupFrom(dAtA, iNdEx);
    } else if wireType == 4 {
      n := iNdEx;
    } else if wireType == 5 {
      n := iNdEx + 4;
    } else {
      err := Some(IllegalWireType);
    }
  }

  /** The loop over the fields of a group. */
  method SkipGroupFrom(dAtA: seq<byte>, first: nat) returns (n: nat, err: Option<DecodeError>)
    requires 0 < first <= |dAtA|
    ensures Further(first, SkipGroup(dAtA[first..])) == if err.None? then Past(n) else Fails(err.value)
    decreases |dAtA| - first, 1
  {
    n, err := 0, None;
    var start := first;
    ghost var all := Further(first, SkipGroup(dAtA[first..]));
    while true
      invariant first <= start <= |dAtA|
      invariant all == Further(start, SkipGroup(dAtA[start..]))
      decreases |dAtA| - start
    {
      var innerWire, iNdEx;
      innerWire, iNdEx, err := ReadVarint(dAtA, start, Bits64);
      if err.Some? {
        return;
      }
      CutLow(Decode(dAtA[start..], 0).value);
      if innerWire % 8 == 4 {
        n := iNdEx;
        return;
      }
      var next;
      next, err := SkipLocket(dAtA[start..]);
      if err.Some? {
        return;
      }
      iNdEx := start + next;
      if iNdEx > |dAtA| {
        // the next read of a tag runs into the end
        err := Some(UnexpectedEOF);
        return;
      }
      PastOneField(dAtA, start, iNdEx);
      start := iNdEx;
    }
  }

  lemma PastOneField(s: seq<byte>, start: nat, next: nat)
    requires start <= next <= |s|
    requires Decode(s[start..], 0).Got? && Decode(s[start..], 0).value % 8 != 4
    requires Skip(s[start..]) == Past(next - start)
    ensures Further(start, SkipGroup(s[start..])) == Further(next, SkipGroup(s[next..]))
  {
    var n := next - start;
    GroupGoesOn(s[start..], n, s[next..]);
    assert s[start..][n..] == s[next..];
  }

  lemma GroupGoesOn(s: seq<byte>, n: nat, rest: seq<byte>)
    requires Decode(s, 0).Got? && Decode(s, 0).value % 8 != 4
    requires Skip(s) == Past(n) && n <= |s| && rest == s[n..]
    ensures SkipGroup(s) == Further(n, SkipGroup(rest))
  {}

  /** A result for a later part of the input, counted from the start. */
  function Further(n: nat, r: Skipped): Skipped {
    match r
    case Past(m) => Past(n + m)
    case Fails(e) => Fails(e)
  }
}
