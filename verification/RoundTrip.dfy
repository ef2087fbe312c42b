/**
 Messages as sequences of parts, and what follows for Marshal and Unmarshal: round trips, also with
 unknown fields anywhere in between, and concatenation as merging (Protocol Buffers Encoding guide,
 "Last One Wins"), for Resource, LockRequest and FetchAllResponse (models/locket.pb.go).
 */
module RoundTrip {
  import opened Models
  import opened Varint
  import opened Wire
  import opened Codec

  // ---------------------------------------------------------------- sequences of parts

  function Concat<P>(enc: P -> seq<byte>, ps: seq<P>): seq<byte> {
    if ps == [] then [] else enc(ps[0]) + Concat(enc, ps[1..])
  }

  function Fold<M, P>(apply: (M, P) -> M, m: M, ps: seq<P>): M {
    if ps == [] then m else Fold(apply, apply(m, ps[0]), ps[1..])
  }

  lemma {:induction false} ConcatAppend<P>(enc: P -> seq<byte>, ps: seq<P>, qs: seq<P>)
    ensures Concat(enc, ps + qs) == Concat(enc, ps) + Concat(enc, qs)
  {
    if ps == [] {
      assert ps + qs == qs;
    } else {
      ConcatAppend(enc, ps[1..], qs);
      assert (ps + qs)[1..] == ps[1..] + qs && (ps + qs)[0] == ps[0];
      JoinBytes(enc(ps[0]), Concat(enc, ps[1..]), Concat(enc, qs));
    }
  }

  lemma JoinBytes(a: seq<byte>, b: seq<byte>, c: seq<byte>)
    ensures a + (b + c) == (a + b) + c
  {}

  lemma {:induction false} FoldAppend<M, P>(apply: (M, P) -> M, m: M, ps: seq<P>, qs: seq<P>)
    ensures Fold(apply, m, ps + qs) == Fold(apply, Fold(apply, m, ps), qs)
  {
    if ps == [] {
      assert ps + qs == qs;
    } else {
      FoldAppend(apply, apply(m, ps[0]), ps[1..], qs);
      assert (ps + qs)[1..] == ps[1..] + qs;
    }
  }

  /** The reader gets past the part's bytes, whatever they are followed by, with the part applied. */
  ghost predicate Reads<M(!new), P>(sw: Switch<M>, enc: P -> seq<byte>, apply: (M, P) -> M, p: P) {
    forall m, t {:trigger Unmarshal(sw, m, enc(p) + t)} :: Unmarshal(sw, m, enc(p) + t) == Unmarshal(sw, apply(m, p), t)
  }

  /** A message is decoded by applying its parts one after the other. */
  lemma {:induction false} ReadParts<M(!new), P>(sw: Switch<M>, enc: P -> seq<byte>, apply: (M, P) -> M,
                                               m: M, ps: seq<P>, t: seq<byte>)
    requires forall p :: p in ps ==> Reads(sw, enc, apply, p)
    ensures Unmarshal(sw, m, Concat(enc, ps) + t) == Unmarshal(sw, Fold(apply, m, ps), t)
    decreases |ps|
  {
    if ps == [] {
      assert Concat(enc, ps) + t == t;
    } else {
      assert ps[0] in ps;
      assert Reads(sw, enc, apply, ps[0]);
      assert Concat(enc, ps) + t == enc(ps[0]) + (Concat(enc, ps[1..]) + t);
      ReadParts(sw, enc, apply, apply(m, ps[0]), ps[1..], t);
    }
  }

  /** The field number a decoder sees. */
  function FieldNumber(f: Field): int
    requires WellFormed(f)
  {
    ToInt32(Cut(Bits64, ValueOf(f.tag)) / 8)
  }

  /** A field that a message with fields 1 to `last` does not know. */
  predicate Alien(f: Field, last: nat) {
    WellFormed(f) && FieldNumber(f) > last
  }

  lemma AlienIsSkipped<M>(sw: Switch<M>, m: M, f: Field, t: seq<byte>)
    requires Alien(f, 0)
    requires sw(m, FieldNumber(f), WireType(f), Body(f) + t) == Ok(None)
    ensures Unmarshal(sw, m, Bytes(f) + t) == Unmarshal(sw, m, t)
  {
    TagComesFirst(f, t);
    SkipExact(f, t);
    FieldThenRest(sw, m, Bytes(f), t, m);
  }

  // ---------------------------------------------------------------- Resource

  type StringNumber = n: int | 1 <= n <= 4 witness 1

  datatype ResourcePart = Str(num: StringNumber, v: GoString) | Code(code: int32) | Other(f: Field)

  function ResourceBytes(p: ResourcePart): seq<byte> {
    match p
    case Str(num, v) => StringField(8 * num + 2, v)
    case Code(code) => VarintOf(0x28, code)
    case Other(f) => Bytes(f)
  }

  function ResourceApply(m: Resource, p: ResourcePart): Resource {
    match p
    case Str(num, v) => SetString(m, num, v)
    case Code(code) => m.(typeCode := code)
    case Other(_) => m
  }

  predicate ResourceGood(p: ResourcePart) {
    match p
    case Str(_, v) => |v| < TWO_63
    case Code(_) => true
    case Other(f) => Alien(f, 5)
  }

  lemma StringIsSet(m: Resource, num: StringNumber, tag: byte, v: GoString, t: seq<byte>)
    requires tag == 8 * num + 2 && |v| < TWO_63
    ensures Unmarshal(ResourceSwitch, m, StringField(tag, v) + t) == Unmarshal(ResourceSwitch, SetString(m, num, v), t)
  {
    ReadBytesBack(v, t);
    assert tag / 8 == num && tag % 8 == 2;
    StringFieldRead(ResourceSwitch, m, tag, v, t, SetString(m, num, v));
  }

  lemma StringPartRead(m: Resource, p: ResourcePart, t: seq<byte>)
    requires p.Str? && ResourceGood(p)
    ensures Unmarshal(ResourceSwitch, m, ResourceBytes(p) + t) == Unmarshal(ResourceSwitch, ResourceApply(m, p), t)
  {
    StringIsSet(m, p.num, 8 * p.num + 2, p.v, t);
  }

  lemma CodePartRead(m: Resource, p: ResourcePart, t: seq<byte>)
    requires p.Code?
    ensures Unmarshal(ResourceSwitch, m, ResourceBytes(p) + t) == Unmarshal(ResourceSwitch, ResourceApply(m, p), t)
  {
    EncodeDecodeSigned(p.code, t);
    VarintFieldRead(ResourceSwitch, m, 0x28, p.code, t, ResourceApply(m, p));
  }

  lemma OtherPartRead(m: Resource, p: ResourcePart, t: seq<byte>)
    requires p.Other? && ResourceGood(p)
    ensures Unmarshal(ResourceSwitch, m, ResourceBytes(p) + t) == Unmarshal(ResourceSwitch, ResourceApply(m, p), t)
  {
    AlienIsSkipped(ResourceSwitch, m, p.f, t);
  }

  lemma ResourcePartReads(p: ResourcePart)
    requires ResourceGood(p)
    ensures Reads(ResourceSwitch, ResourceBytes, ResourceApply, p)
  {
    forall m, t
      ensures Unmarshal(ResourceSwitch, m, ResourceBytes(p) + t) == Unmarshal(ResourceSwitch, ResourceApply(m, p), t)
    {
      if p.Str? {
        StringPartRead(m, p, t);
      } else if p.Code? {
        CodePartRead(m, p, t);
      } else {
        OtherPartRead(m, p, t);
      }
    }
  }

  lemma EncodeDecodeSigned(x: int64, t: seq<byte>)
    ensures Decode(Encode(ToUint64(x)) + t, 0) == Got(ToUint64(x), |Encode(ToUint64(x))|)
    ensures ToInt64(ToUint64(x)) == x
    ensures -TWO_31 <= x < TWO_31 ==> ToInt32(ToUint64(x)) == x
  {
    SignedRoundTrip(x);
    EncodeDecode(ToUint64(x), t);
  }

  lemma ReadResource(m: Resource, ps: seq<ResourcePart>, t: seq<byte>)
    requires forall p :: p in ps ==> ResourceGood(p)
    ensures Unmarshal(ResourceSwitch, m, Concat(ResourceBytes, ps) + t)
            == Unmarshal(ResourceSwitch, Fold(ResourceApply, m, ps), t)
  {
    forall p | p in ps ensures Reads(ResourceSwitch, ResourceBytes, ResourceApply, p) {
      ResourcePartReads(p);
    }
    ReadParts(ResourceSwitch, ResourceBytes, ResourceApply, m, ps, t);
  }

  lemma ReadResourceToEnd(m: Resource, ps: seq<ResourcePart>)
    requires forall p :: p in ps ==> ResourceGood(p)
    ensures Unmarshal(ResourceSwitch, m, Concat(ResourceBytes, ps)) == Ok(Fold(ResourceApply, m, ps))
  {
    ReadResource(m, ps, []);
    assert Concat(ResourceBytes, ps) + [] == Concat(ResourceBytes, ps);
  }

  function OptStr(num: StringNumber, v: GoString): seq<ResourcePart> {
    if |v| > 0 then [Str(num, v)] else []
  }

  function ResourceParts(m: Resource): seq<ResourcePart> {
    OptStr(1, m.key) + OptStr(2, m.owner) + OptStr(3, m.value) + OptStr(4, m.typ)
    + OptCode(m.typeCode)
  }

  lemma ConcatOne<P>(enc: P -> seq<byte>, p: P)
    ensures Concat(enc, [p]) == enc(p)
  {
    assert Concat(enc, [p]) == enc(p) + Concat(enc, [p][1..]);
  }

  lemma OptStrBytes(num: StringNumber, v: GoString)
    ensures Concat(ResourceBytes, OptStr(num, v)) == NonEmpty(8 * num + 2, v)
  {
    if |v| > 0 {
      ConcatOne(ResourceBytes, Str(num, v));
    }
  }

  function OptCode(code: int32): seq<ResourcePart> {
    if code != 0 then [Code(code)] else []
  }

  /** Marshal writes the parts of the message that are not at their default, in order. */
  lemma MarshalIsParts(m: Resource)
    ensures MarshalResource(m) == Concat(ResourceBytes, ResourceParts(m))
  {
    var k, o, v := OptStr(1, m.key), OptStr(2, m.owner), OptStr(3, m.value);
    var t, c := OptStr(4, m.typ), OptCode(m.typeCode);
    ConcatAppend(ResourceBytes, k, o);
    ConcatAppend(ResourceBytes, k + o, v);
    ConcatAppend(ResourceBytes, k + o + v, t);
    ConcatAppend(ResourceBytes, k + o + v + t, c);
    OptStrBytes(1, m.key);
    OptStrBytes(2, m.owner);
    OptStrBytes(3, m.value);
    OptStrBytes(4, m.typ);
    if m.typeCode != 0 {
      ConcatOne(ResourceBytes, Code(m.typeCode));
    }
  }

  /** `b` over `a`: a field that is not at its default in `b` wins. */
  function MergeResource(a: Resource, b: Resource): Resource {
    Resource(if b.key != [] then b.key else a.key, if b.owner != [] then b.owner else a.owner,
             if b.value != [] then b.value else a.value, if b.typ != [] then b.typ else a.typ,
             if b.typeCode != 0 then b.typeCode else a.typeCode)
  }

  lemma FoldOpt(m: Resource, num: StringNumber, v: GoString)
    ensures Fold(ResourceApply, m, OptStr(num, v)) == if |v| > 0 then SetString(m, num, v) else m
  {}

  lemma FoldIsMerge(a: Resource, b: Resource)
    ensures Fold(ResourceApply, a, ResourceParts(b)) == MergeResource(a, b)
  {
    var k, o, v := OptStr(1, b.key), OptStr(2, b.owner), OptStr(3, b.value);
    var t, c := OptStr(4, b.typ), OptCode(b.typeCode);
    FoldAppend(ResourceApply, a, k, o);
    FoldAppend(ResourceApply, a, k + o, v);
    FoldAppend(ResourceApply, a, k + o + v, t);
    FoldAppend(ResourceApply, a, k + o + v + t, c);
    FoldOpt(a, 1, b.key);
    var a1 := Fold(ResourceApply, a, k);
    FoldOpt(a1, 2, b.owner);
    var a2 := Fold(ResourceApply, a1, o);
    FoldOpt(a2, 3, b.value);
    var a3 := Fold(ResourceApply, a2, v);
    FoldOpt(a3, 4, b.typ);
  }

  /** Slices are no longer than an int can count. */
  predicate Fits(m: Resource) {
    |MarshalResource(m)| < TWO_63
  }

  lemma PartsAreGood(m: Resource)
    requires Fits(m)
    ensures forall p :: p in ResourceParts(m) ==> ResourceGood(p)
  {
    StringsFit(m);
    OptStrIsGood(1, m.key);
    OptStrIsGood(2, m.owner);
    OptStrIsGood(3, m.value);
    OptStrIsGood(4, m.typ);
    forall p | p in ResourceParts(m) ensures ResourceGood(p) {
      assert p in OptStr(1, m.key) || p in OptStr(2, m.owner) || p in OptStr(3, m.value) || p in OptStr(4, m.typ)
             || p in OptCode(m.typeCode);
    }
  }

  lemma OptStrIsGood(num: StringNumber, v: GoString)
    requires |v| < TWO_63
    ensures forall p :: p in OptStr(num, v) ==> ResourceGood(p)
  {}

  lemma StringsFit(m: Resource)
    requires Fits(m)
    ensures |m.key| < TWO_63 && |m.owner| < TWO_63 && |m.value| < TWO_63 && |m.typ| < TWO_63
  {
    assert |m.key| <= |NonEmpty(0x0a, m.key)| && |m.owner| <= |NonEmpty(0x12, m.owner)|;
    assert |m.value| <= |NonEmpty(0x1a, m.value)| && |m.typ| <= |NonEmpty(0x22, m.typ)|;
  }

  /** Decoding merges the written message over what is there already, and goes on behind it. */
  lemma UnmarshalMerges(a: Resource, b: Resource, t: seq<byte>)
    requires Fits(b)
    ensures Unmarshal(ResourceSwitch, a, MarshalResource(b) + t) == Unmarshal(ResourceSwitch, MergeResource(a, b), t)
  {
    MarshalIsParts(b);
    PartsAreGood(b);
    ReadResource(a, ResourceParts(b), t);
    FoldIsMerge(a, b);
  }

  /** Decoding what Marshal wrote into a fresh message gives the message. */
  lemma ResourceDecodesBack(m: Resource)
    requires Fits(m)
    ensures Unmarshal(ResourceSwitch, EMPTY_RESOURCE, MarshalResource(m)) == Ok(m)
  {
    UnmarshalMerges(EMPTY_RESOURCE, m, []);
    assert MarshalResource(m) + [] == MarshalResource(m);
  }

  /** Two messages one after the other decode as the second merged over the first. */
  lemma ConcatenatedResourcesMerge(a: Resource, b: Resource)
    requires Fits(a) && Fits(b)
    ensures Unmarshal(ResourceSwitch, EMPTY_RESOURCE, MarshalResource(a) + MarshalResource(b))
            == Ok(MergeResource(a, b))
  {
    UnmarshalMerges(EMPTY_RESOURCE, a, MarshalResource(b));
    UnmarshalMerges(a, b, []);
    assert MarshalResource(b) + [] == MarshalResource(b);
  }

  /** The parts without the unknown fields. */
  function ResourceKnown(ps: seq<ResourcePart>): seq<ResourcePart> {
    if ps == [] then []
    else if ps[0].Other? then ResourceKnown(ps[1..])
    else [ps[0]] + ResourceKnown(ps[1..])
  }

  lemma {:induction false} UnknownPartsChangeNothing(m: Resource, ps: seq<ResourcePart>)
    ensures Fold(ResourceApply, m, ps) == Fold(ResourceApply, m, ResourceKnown(ps))
    decreases |ps|
  {
    if ps != [] {
      UnknownPartsChangeNothing(ResourceApply(m, ps[0]), ps[1..]);
      if !ps[0].Other? {
        assert ResourceKnown(ps)[1..] == ResourceKnown(ps[1..]);
      }
    }
  }

  /** Round trip. The fields that Marshal writes, with any well-formed unknown fields before,
      between and after them, are decoded into a fresh message as the message itself. */
  lemma ResourceRoundTrip(m: Resource, ps: seq<ResourcePart>)
    requires forall p :: p in ps ==> ResourceGood(p)
    requires ResourceKnown(ps) == ResourceParts(m)
    ensures Unmarshal(ResourceSwitch, EMPTY_RESOURCE, Concat(ResourceBytes, ps)) == Ok(m)
  {
    ReadResourceToEnd(EMPTY_RESOURCE, ps);
    UnknownPartsChangeNothing(EMPTY_RESOURCE, ps);
    FoldIsMerge(EMPTY_RESOURCE, m);
  }

  // ---------------------------------------------------------------- LockRequest

  datatype LockPart = Nested(ps: seq<ResourcePart>) | Ttl(x: int64) | OtherInLock(f: Field)

  function LockBytes(p: LockPart): seq<byte> {
    match p
    case Nested(ps) => StringField(0x0a, Concat(ResourceBytes, ps))
    case Ttl(x) => VarintOf(0x10, x)
    case OtherInLock(f) => Bytes(f)
  }

  function Base(m: LockRequest): Resource {
    if m.resource.Some? then m.resource.value else EMPTY_RESOURCE
  }

  function LockApply(m: LockRequest, p: LockPart): LockRequest {
    match p
    case Nested(ps) => m.(resource := Some(Fold(ResourceApply, Base(m), ps)))
    case Ttl(x) => m.(ttlInSeconds := x)
    case OtherInLock(_) => m
  }

  predicate LockGood(p: LockPart) {
    match p
    case Nested(ps) => (forall q :: q in ps ==> ResourceGood(q)) && |Concat(ResourceBytes, ps)| < TWO_63
    case Ttl(_) => true
    case OtherInLock(f) => Alien(f, 2)
  }

  lemma NestedPartRead(m: LockRequest, p: LockPart, t: seq<byte>)
    requires p.Nested? && LockGood(p)
    ensures Unmarshal(LockRequestSwitch, m, LockBytes(p) + t) == Unmarshal(LockRequestSwitch, LockApply(m, p), t)
  {
    var bs := Concat(ResourceBytes, p.ps);
    ReadBytesBack(bs, t);
    ReadResourceToEnd(Base(m), p.ps);
    StringFieldRead(LockRequestSwitch, m, 0x0a, bs, t, LockApply(m, p));
  }

  lemma TtlPartRead(m: LockRequest, p: LockPart, t: seq<byte>)
    requires p.Ttl?
    ensures Unmarshal(LockRequestSwitch, m, LockBytes(p) + t) == Unmarshal(LockRequestSwitch, LockApply(m, p), t)
  {
    EncodeDecodeSigned(p.x, t);
    VarintFieldRead(LockRequestSwitch, m, 0x10, p.x, t, LockApply(m, p));
  }

  lemma OtherInLockRead(m: LockRequest, p: LockPart, t: seq<byte>)
    requires p.OtherInLock? && LockGood(p)
    ensures Unmarshal(LockRequestSwitch, m, LockBytes(p) + t) == Unmarshal(LockRequestSwitch, LockApply(m, p), t)
  {
    AlienIsSkipped(LockRequestSwitch, m, p.f, t);
  }

  lemma LockPartReads(p: LockPart)
    requires LockGood(p)
    ensures Reads(LockRequestSwitch, LockBytes, LockApply, p)
  {
    forall m, t
      ensures Unmarshal(LockRequestSwitch, m, LockBytes(p) + t) == Unmarshal(LockRequestSwitch, LockApply(m, p), t)
    {
      if p.Nested? {
        NestedPartRead(m, p, t);
      } else if p.Ttl? {
        TtlPartRead(m, p, t);
      } else {
        OtherInLockRead(m, p, t);
      }
    }
  }

  lemma ReadLockRequest(m: LockRequest, ps: seq<LockPart>, t: seq<byte>)
    requires forall p :: p in ps ==> LockGood(p)
    ensures Unmarshal(LockRequestSwitch, m, Concat(LockBytes, ps) + t)
            == Unmarshal(LockRequestSwitch, Fold(LockApply, m, ps), t)
  {
    forall p | p in ps ensures Reads(LockRequestSwitch, LockBytes, LockApply, p) {
      LockPartReads(p);
    }
    ReadParts(LockRequestSwitch, LockBytes, LockApply, m, ps, t);
  }

  function OptNested(r: Option<Resource>): seq<LockPart> {
    if r.Some? then [Nested(ResourceParts(r.value))] else []
  }

  function OptTtl(x: int64): seq<LockPart> {
    if x != 0 then [Ttl(x)] else []
  }

  function LockParts(m: LockRequest): seq<LockPart> {
    OptNested(m.resource) + OptTtl(m.ttlInSeconds)
  }

  lemma MarshalLockIsParts(m: LockRequest)
    ensures MarshalLockRequest(m) == Concat(LockBytes, LockParts(m))
  {
    ConcatAppend(LockBytes, OptNested(m.resource), OptTtl(m.ttlInSeconds));
    if m.resource.Some? {
      MarshalIsParts(m.resource.value);
      ConcatOne(LockBytes, Nested(ResourceParts(m.resource.value)));
    }
    if m.ttlInSeconds != 0 {
      ConcatOne(LockBytes, Ttl(m.ttlInSeconds));
    }
  }

  /** `b` over `a`: the ttl if it is not zero, and the nested resources merged field by field. */
  function MergeLockRequest(a: LockRequest, b: LockRequest): LockRequest {
    LockRequest(if b.resource.Some? then Some(MergeResource(Base(a), b.resource.value)) else a.resource,
                if b.ttlInSeconds != 0 then b.ttlInSeconds else a.ttlInSeconds)
  }

  lemma FoldLockIsMerge(a: LockRequest, b: LockRequest)
    ensures Fold(LockApply, a, LockParts(b)) == MergeLockRequest(a, b)
  {
    FoldAppend(LockApply, a, OptNested(b.resource), OptTtl(b.ttlInSeconds));
    if b.resource.Some? {
      FoldIsMerge(Base(a), b.resource.value);
    }
  }

  predicate LockFits(m: LockRequest) {
    |MarshalLockRequest(m)| < TWO_63
  }

  lemma LockPartsAreGood(m: LockRequest)
    requires LockFits(m)
    ensures forall p :: p in LockParts(m) ==> LockGood(p)
  {
    if m.resource.Some? {
      PartsAreGood(m.resource.value);
      MarshalIsParts(m.resource.value);
    }
  }

  lemma UnmarshalLockMerges(a: LockRequest, b: LockRequest, t: seq<byte>)
    requires LockFits(b)
    ensures Unmarshal(LockRequestSwitch, a, MarshalLockRequest(b) + t)
            == Unmarshal(LockRequestSwitch, MergeLockRequest(a, b), t)
  {
    MarshalLockIsParts(b);
    LockPartsAreGood(b);
    ReadLockRequest(a, LockParts(b), t);
    FoldLockIsMerge(a, b);
  }

  const EMPTY_LOCK_REQUEST: LockRequest := LockRequest(None, 0)

  lemma LockRequestDecodesBack(m: LockRequest)
    requires LockFits(m)
    ensures Unmarshal(LockRequestSwitch, EMPTY_LOCK_REQUEST, MarshalLockRequest(m)) == Ok(m)
  {
    UnmarshalLockMerges(EMPTY_LOCK_REQUEST, m, []);
    assert MarshalLockRequest(m) + [] == MarshalLockRequest(m);
  }

  lemma ConcatenatedLockRequestsMerge(a: LockRequest, b: LockRequest)
    requires LockFits(a) && LockFits(b)
    ensures Unmarshal(LockRequestSwitch, EMPTY_LOCK_REQUEST, MarshalLockRequest(a) + MarshalLockRequest(b))
            == Ok(MergeLockRequest(a, b))
  {
    UnmarshalLockMerges(EMPTY_LOCK_REQUEST, a, MarshalLockRequest(b));
    UnmarshalLockMerges(a, b, []);
    assert MarshalLockRequest(b) + [] == MarshalLockRequest(b);
  }

  /** The parts without the unknown fields, outside and inside the nested resource. */
  function LockKnown(ps: seq<LockPart>): seq<LockPart> {
    if ps == [] then []
    else
      match ps[0]
      case Nested(qs) => [Nested(ResourceKnown(qs))] + LockKnown(ps[1..])
      case Ttl(_) => [ps[0]] + LockKnown(ps[1..])
      case OtherInLock(_) => LockKnown(ps[1..])
  }

  lemma {:induction false} UnknownLockPartsChangeNothing(m: LockRequest, ps: seq<LockPart>)
    ensures Fold(LockApply, m, ps) == Fold(LockApply, m, LockKnown(ps))
    decreases |ps|
  {
    if ps != [] {
      UnknownLockPartsChangeNothing(LockApply(m, ps[0]), ps[1..]);
      if !ps[0].OtherInLock? {
        assert LockKnown(ps)[1..] == LockKnown(ps[1..]);
      }
      if ps[0].Nested? {
        UnknownPartsChangeNothing(Base(m), ps[0].ps);
      }
    }
  }

  /** Round trip of lock requests: any ttl, any type code, no, an empty or a full resource, and
      unknown fields inside and outside of it. */
  lemma LockRequestRoundTrip(m: LockRequest, ps: seq<LockPart>)
    requires forall p :: p in ps ==> LockGood(p)
    requires LockKnown(ps) == LockParts(m)
    ensures Unmarshal(LockRequestSwitch, EMPTY_LOCK_REQUEST, Concat(LockBytes, ps)) == Ok(m)
  {
    ReadLockRequest(EMPTY_LOCK_REQUEST, ps, []);
    assert Concat(LockBytes, ps) + [] == Concat(LockBytes, ps);
    UnknownLockPartsChangeNothing(EMPTY_LOCK_REQUEST, ps);
    FoldLockIsMerge(EMPTY_LOCK_REQUEST, m);
  }

  // ---------------------------------------------------------------- FetchAllResponse

  datatype FetchPart = Item(ps: seq<ResourcePart>) | OtherInFetch(f: Field)

  function FetchBytes(p: FetchPart): seq<byte> {
    match p
    case Item(ps) => StringField(0x0a, Concat(ResourceBytes, ps))
    case OtherInFetch(f) => Bytes(f)
  }

  function FetchApply(m: FetchAllResponse, p: FetchPart): FetchAllResponse {
    match p
    case Item(ps) => FetchAllResponse(m.resources + [Fold(ResourceApply, EMPTY_RESOURCE, ps)])
    case OtherInFetch(_) => m
  }

  predicate FetchGood(p: FetchPart) {
    match p
    case Item(ps) => (forall q :: q in ps ==> ResourceGood(q)) && |Concat(ResourceBytes, ps)| < TWO_63
    case OtherInFetch(f) => Alien(f, 1)
  }

  lemma ItemPartRead(m: FetchAllResponse, p: FetchPart, t: seq<byte>)
    requires p.Item? && FetchGood(p)
    ensures Unmarshal(FetchAllSwitch, m, FetchBytes(p) + t) == Unmarshal(FetchAllSwitch, FetchApply(m, p), t)
  {
    var bs := Concat(ResourceBytes, p.ps);
    ReadBytesBack(bs, t);
    ReadResourceToEnd(EMPTY_RESOURCE, p.ps);
    StringFieldRead(FetchAllSwitch, m, 0x0a, bs, t, FetchApply(m, p));
  }

  lemma OtherInFetchRead(m: FetchAllResponse, p: FetchPart, t: seq<byte>)
    requires p.OtherInFetch? && FetchGood(p)
    ensures Unmarshal(FetchAllSwitch, m, FetchBytes(p) + t) == Unmarshal(FetchAllSwitch, FetchApply(m, p), t)
  {
    AlienIsSkipped(FetchAllSwitch, m, p.f, t);
  }

  lemma FetchPartReads(p: FetchPart)
    requires FetchGood(p)
    ensures Reads(FetchAllSwitch, FetchBytes, FetchApply, p)
  {
    forall m, t
      ensures Unmarshal(FetchAllSwitch, m, FetchBytes(p) + t) == Unmarshal(FetchAllSwitch, FetchApply(m, p), t)
    {
      if p.Item? {
        ItemPartRead(m, p, t);
      } else {
        OtherInFetchRead(m, p, t);
      }
    }
  }

  lemma ReadFetchAll(m: FetchAllResponse, ps: seq<FetchPart>, t: seq<byte>)
    requires forall p :: p in ps ==> FetchGood(p)
    ensures Unmarshal(FetchAllSwitch, m, Concat(FetchBytes, ps) + t)
            == Unmarshal(FetchAllSwitch, Fold(FetchApply, m, ps), t)
  {
    forall p | p in ps ensures Reads(FetchAllSwitch, FetchBytes, FetchApply, p) {
      FetchPartReads(p);
    }
    ReadParts(FetchAllSwitch, FetchBytes, FetchApply, m, ps, t);
  }

  function FetchParts(rs: seq<Resource>): seq<FetchPart> {
    if rs == [] then [] else FetchParts(rs[..|rs| - 1]) + [Item(ResourceParts(rs[|rs| - 1]))]
  }

  lemma {:induction false} MarshalAllIsParts(rs: seq<Resource>)
    ensures MarshalAll(rs) == Concat(FetchBytes, FetchParts(rs))
  {
    if rs != [] {
      var init, last := rs[..|rs| - 1], rs[|rs| - 1];
      MarshalAllIsParts(init);
      MarshalIsParts(last);
      ConcatAppend(FetchBytes, FetchParts(init), [Item(ResourceParts(last))]);
      ConcatOne(FetchBytes, Item(ResourceParts(last)));
    }
  }

  lemma FoldItem(m: FetchAllResponse, r: Resource)
    ensures Fold(FetchApply, m, [Item(ResourceParts(r))]) == FetchAllResponse(m.resources + [r])
  {
    FoldIsMerge(EMPTY_RESOURCE, r);
  }

  lemma {:induction false} FoldFetchAppends(m: FetchAllResponse, rs: seq<Resource>)
    ensures Fold(FetchApply, m, FetchParts(rs)) == FetchAllResponse(m.resources + rs)
  {
    if rs == [] {
      assert m.resources + rs == m.resources;
    } else {
      var init, last := rs[..|rs| - 1], rs[|rs| - 1];
      FoldFetchAppends(m, init);
      FoldAppend(FetchApply, m, FetchParts(init), [Item(ResourceParts(last))]);
      FoldItem(FetchAllResponse(m.resources + init), last);
      assert m.resources + rs == m.resources + init + [last];
    }
  }

  lemma {:induction false} FetchPartsAreGood(rs: seq<Resource>)
    requires |MarshalAll(rs)| < TWO_63
    ensures forall p :: p in FetchParts(rs) ==> FetchGood(p)
  {
    if rs != [] {
      FetchPartsAreGood(rs[..|rs| - 1]);
      PartsAreGood(rs[|rs| - 1]);
      MarshalIsParts(rs[|rs| - 1]);
    }
  }

  /** Decoding appends: repeated resources add up, in order. */
  lemma UnmarshalFetchAppends(a: FetchAllResponse, rs: seq<Resource>, t: seq<byte>, m: FetchAllResponse)
    requires |MarshalAll(rs)| < TWO_63 && m.resources == a.resources + rs
    ensures Unmarshal(FetchAllSwitch, a, MarshalAll(rs) + t) == Unmarshal(FetchAllSwitch, m, t)
  {
    MarshalAllIsParts(rs);
    FetchPartsAreGood(rs);
    ReadFetchAll(a, FetchParts(rs), t);
    FoldFetchAppends(a, rs);
  }

  lemma FetchAllDecodesBack(m: FetchAllResponse)
    requires |MarshalAll(m.resources)| < TWO_63
    ensures Unmarshal(FetchAllSwitch, FetchAllResponse([]), MarshalAll(m.resources)) == Ok(m)
  {
    assert [] + m.resources == m.resources;
    UnmarshalFetchAppends(FetchAllResponse([]), m.resources, [], m);
    assert MarshalAll(m.resources) + [] == MarshalAll(m.resources);
  }

  lemma ConcatenatedResponsesAppend(a: FetchAllResponse, b: FetchAllResponse)
    requires |MarshalAll(a.resources)| < TWO_63 && |MarshalAll(b.resources)| < TWO_63
    ensures Unmarshal(FetchAllSwitch, FetchAllResponse([]), MarshalAll(a.resources) + MarshalAll(b.resources))
            == Ok(FetchAllResponse(a.resources + b.resources))
  {
    assert [] + a.resources == a.resources;
    UnmarshalFetchAppends(FetchAllResponse([]), a.resources, MarshalAll(b.resources), a);
    FetchAppendsToEnd(a, b.resources);
  }

  lemma FetchAppendsToEnd(a: FetchAllResponse, rs: seq<Resource>)
    requires |MarshalAll(rs)| < TWO_63
    ensures Unmarshal(FetchAllSwitch, a, MarshalAll(rs)) == Ok(FetchAllResponse(a.resources + rs))
  {
    UnmarshalFetchAppends(a, rs, [], FetchAllResponse(a.resources + rs));
    assert MarshalAll(rs) + [] == MarshalAll(rs);
  }

  function FetchKnown(ps: seq<FetchPart>): seq<FetchPart> {
    if ps == [] then []
    else
      match ps[0]
      case Item(qs) => [Item(ResourceKnown(qs))] + FetchKnown(ps[1..])
      case OtherInFetch(_) => FetchKnown(ps[1..])
  }

  lemma {:induction false} UnknownFetchPartsChangeNothing(m: FetchAllResponse, ps: seq<FetchPart>)
    ensures Fold(FetchApply, m, ps) == Fold(FetchApply, m, FetchKnown(ps))
    decreases |ps|
  {
    if ps != [] {
      UnknownFetchPartsChangeNothing(FetchApply(m, ps[0]), ps[1..]);
      if ps[0].Item? {
        assert FetchKnown(ps)[1..] == FetchKnown(ps[1..]);
        UnknownPartsChangeNothing(EMPTY_RESOURCE, ps[0].ps);
      }
    }
  }

  /** Round trip of any list of resources, with unknown fields between and inside them. */
  lemma FetchAllRoundTrip(m: FetchAllResponse, ps: seq<FetchPart>)
    requires forall p :: p in ps ==> FetchGood(p)
    requires FetchKnown(ps) == FetchParts(m.resources)
    ensures Unmarshal(FetchAllSwitch, FetchAllResponse([]), Concat(FetchBytes, ps)) == Ok(m)
  {
    ReadFetchAll(FetchAllResponse([]), ps, []);
    assert Concat(FetchBytes, ps) + [] == Concat(FetchBytes, ps);
    UnknownFetchPartsChangeNothing(FetchAllResponse([]), ps);
    FoldFetchAppends(FetchAllResponse([]), m.resources);
    assert [] + m.resources == m.resources;
  }

  // ---------------------------------------------------------------- field numbers

  lemma ToTheEnd<M>(sw: Switch<M>, m: M, s: seq<byte>)
    ensures Unmarshal(sw, m, s + []) == Unmarshal(sw, m, s)
  {
    assert s + [] == s;
  }

  /** The field numbers of a resource: key 1, owner 2, value 3, type 4, type code 5. */
  lemma ResourceFields(m: Resource, v: GoString, code: int32)
    requires |v| < TWO_63
    ensures Unmarshal(ResourceSwitch, m, [0x0a] + (Encode(|v|) + v)) == Ok(m.(key := v))
    ensures Unmarshal(ResourceSwitch, m, [0x12] + (Encode(|v|) + v)) == Ok(m.(owner := v))
    ensures Unmarshal(ResourceSwitch, m, [0x1a] + (Encode(|v|) + v)) == Ok(m.(value := v))
    ensures Unmarshal(ResourceSwitch, m, [0x22] + (Encode(|v|) + v)) == Ok(m.(typ := v))
    ensures Unmarshal(ResourceSwitch, m, [0x28] + Encode(ToUint64(code))) == Ok(m.(typeCode := code))
  {
    StringFieldEnds(m, 1, 0x0a, v);
    StringFieldEnds(m, 2, 0x12, v);
    StringFieldEnds(m, 3, 0x1a, v);
    StringFieldEnds(m, 4, 0x22, v);
    CodePartRead(m, Code(code), []);
    ToTheEnd(ResourceSwitch, m, VarintOf(0x28, code));
  }

  lemma StringFieldEnds(m: Resource, num: StringNumber, tag: byte, v: GoString)
    requires tag == 8 * num + 2 && |v| < TWO_63
    ensures Unmarshal(ResourceSwitch, m, [tag] + (Encode(|v|) + v)) == Ok(SetString(m, num, v))
  {
    StringIsSet(m, num, tag, v, []);
    ToTheEnd(ResourceSwitch, m, StringField(tag, v));
  }

  /** Those of a lock request: resource 1, ttl 2. */
  lemma LockRequestFields(m: LockRequest, r: Resource, ttl: int64)
    requires Fits(r)
    ensures var bs := MarshalResource(r);
            Unmarshal(LockRequestSwitch, m, [0x0a] + (Encode(|bs|) + bs))
            == Ok(m.(resource := Some(if m.resource.Some? then MergeResource(m.resource.value, r) else r)))
    ensures Unmarshal(LockRequestSwitch, m, [0x10] + Encode(ToUint64(ttl))) == Ok(m.(ttlInSeconds := ttl))
  {
    var p := Nested(ResourceParts(r));
    MarshalIsParts(r);
    PartsAreGood(r);
    FoldIsMerge(Base(m), r);
    NestedPartRead(m, p, []);
    ToTheEnd(LockRequestSwitch, m, LockBytes(p));
    TtlPartRead(m, Ttl(ttl), []);
    ToTheEnd(LockRequestSwitch, m, VarintOf(0x10, ttl));
  }

  /** That of a response: resources 1. */
  lemma FetchAllFields(m: FetchAllResponse, r: Resource)
    requires Fits(r)
    ensures var bs := MarshalResource(r);
            Unmarshal(FetchAllSwitch, m, [0x0a] + (Encode(|bs|) + bs)) == Ok(FetchAllResponse(m.resources + [r]))
  {
    var p := Item(ResourceParts(r));
    MarshalIsParts(r);
    PartsAreGood(r);
    FoldIsMerge(EMPTY_RESOURCE, r);
    ItemPartRead(m, p, []);
    ToTheEnd(FetchAllSwitch, m, FetchBytes(p));
  }
}
