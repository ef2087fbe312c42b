/**
 The meaning of messages on the wire: what Marshal writes and Unmarshal reads for Resource,
 LockRequest and FetchAllResponse (models/locket.pb.go). A message is read field by field; each of
 the three generated decoders is the same loop around its own switch over field numbers.
 */
module Codec {
  import opened Models
  import opened Varint
  import opened Wire

  datatype Header = Header(num: int, wireType: nat, len: nat)

  /** The tag at the start of a field. */
  function ReadHeader(s: seq<byte>): (r: Result<Header, DecodeError>)
    ensures r.Ok? ==> 1 <= r.value.len <= |s|
  {
    match Decode(s, 0)
    case Bad(e) => Err(e)
    case Got(v, len) =>
      var num := ToInt32(Cut(Bits64, v) / 8);
      if v % 8 == 4 then Err(EndGroup)
      else if num <= 0 then Err(IllegalTag)
      else Ok(Header(num, v % 8, len))
  }

  /** A length-delimited payload, and the number of bytes it takes with its length. */
  function ReadBytes(s: seq<byte>): (r: Result<(seq<byte>, nat), DecodeError>)
    ensures r.Ok? ==> r.value.1 <= |s| && |r.value.0| <= r.value.1
  {
    match Decode(s, 0)
    case Bad(e) => Err(e)
    case Got(v, len) => TakeBytes(s, len, ToInt64(v))
  }

  /** The bytes behind the length, if there are as many as it announces. */
  function TakeBytes(s: seq<byte>, len: nat, size: int): (r: Result<(seq<byte>, nat), DecodeError>)
    ensures r.Ok? ==> r.value.1 <= |s| && |r.value.0| <= r.value.1
  {
    if size < 0 then Err(InvalidLength)
    else if len + size > |s| then Err(UnexpectedEOF)
    else Ok((s[len..len + size], len + size))
  }

  /** A message's switch: from the message so far, field number, wire type and the bytes after the
      tag, the new message and the bytes taken; `None` for a field it does not know. */
  type Switch<!M> = (M, int, nat, seq<byte>) -> Result<Option<(M, nat)>, DecodeError>

  /** One turn of the decoding loop. */
  function OneField<M>(sw: Switch<M>, m: M, s: seq<byte>): Result<(M, nat), DecodeError> {
    match ReadHeader(s)
    case Err(e) => Err(e)
    case Ok(h) =>
      match sw(m, h.num, h.wireType, s[h.len..])
      case Err(e) => Err(e)
      case Ok(Some((m', n))) => Ok((m', h.len + n))
      case Ok(None) => (match SkipField(s) case Err(e) => Err(e) case Ok(n) => Ok((m, n)))
  }

  /** The length of a field that is skipped, if it lies within the input. */
  function SkipField(s: seq<byte>): Result<nat, DecodeError> {
    match Skip(s)
    case Fails(e) => Err(e)
    case Past(n) => if n > |s| then Err(UnexpectedEOF) else Ok(n)
  }

  function Unmarshal<M>(sw: Switch<M>, m: M, s: seq<byte>): Result<M, DecodeError>
    decreases |s|
  {
    if s == [] then Ok(m)
    else
      match OneField(sw, m, s)
      case Err(e) => Err(e)
      case Ok((m', n)) => if 0 < n <= |s| then Unmarshal(sw, m', s[n..]) else Err(UnexpectedEOF)
  }

  // ---------------------------------------------------------------- the three switches

  const EMPTY_RESOURCE: Resource := Resource([], [], [], [], UNKNOWN)

  function SetString(m: Resource, num: int, v: GoString): Resource {
    match num
    case 1 => m.(key := v)
    case 2 => m.(owner := v)
    case 3 => m.(value := v)
    case _ => m.(typ := v)
  }

  function ResourceSwitch(m: Resource, num: int, wireType: nat, s: seq<byte>)
    : Result<Option<(Resource, nat)>, DecodeError>
  {
    if 1 <= num <= 4 then
      if wireType != 2 then Err(WrongWireType)
      else match ReadBytes(s) case Err(e) => Err(e) case Ok((v, n)) => Ok(Some((SetString(m, num, v), n)))
    else if num == 5 then
      if wireType != 0 then Err(WrongWireType)
      else match Decode(s, 0) case Bad(e) => Err(e) case Got(v, n) => Ok(Some((m.(typeCode := ToInt32(v)), n)))
    else Ok(None)
  }

  function LockRequestSwitch(m: LockRequest, num: int, wireType: nat, s: seq<byte>)
    : Result<Option<(LockRequest, nat)>, DecodeError>
  {
    if num == 1 then
      if wireType != 2 then Err(WrongWireType)
      else match ReadBytes(s)
        case Err(e) => Err(e)
        case Ok((bs, n)) =>
          var r0 := if m.resource.Some? then m.resource.value else EMPTY_RESOURCE;
          match Unmarshal(ResourceSwitch, r0, bs)
          case Err(e) => Err(e)
          case Ok(r) => Ok(Some((m.(resource := Some(r)), n)))
    else if num == 2 then
      if wireType != 0 then Err(WrongWireType)
      else match Decode(s, 0) case Bad(e) => Err(e) case Got(v, n) => Ok(Some((m.(ttlInSeconds := ToInt64(v)), n)))
    else Ok(None)
  }

  function FetchAllSwitch(m: FetchAllResponse, num: int, wireType: nat, s: seq<byte>)
    : Result<Option<(FetchAllResponse, nat)>, DecodeError>
  {
    if num == 1 then
      if wireType != 2 then Err(WrongWireType)
      else match ReadBytes(s)
        case Err(e) => Err(e)
        case Ok((bs, n)) =>
          match Unmarshal(ResourceSwitch, EMPTY_RESOURCE, bs)
          case Err(e) => Err(e)
          case Ok(r) => Ok(Some((FetchAllResponse(m.resources + [r]), n)))
    else Ok(None)
  }

  // ---------------------------------------------------------------- what Marshal writes

  function StringField(tag: byte, v: GoString): seq<byte> {
    [tag] + (Encode(|v|) + v)
  }

  function NonEmpty(tag: byte, v: GoString): seq<byte> {
    if |v| > 0 then StringField(tag, v) else []
  }

  function VarintOf(tag: byte, x: int64): seq<byte> {
    [tag] + Encode(ToUint64(x))
  }

  function NonZero(tag: byte, x: int64): seq<byte> {
    if x != 0 then VarintOf(tag, x) else []
  }

  function MarshalResource(m: Resource): seq<byte> {
    NonEmpty(0x0a, m.key) + NonEmpty(0x12, m.owner) + NonEmpty(0x1a, m.value) + NonEmpty(0x22, m.typ)
    + NonZero(0x28, m.typeCode)
  }

  function MarshalNested(m: Option<Resource>): seq<byte> {
    if m.Some? then StringField(0x0a, MarshalResource(m.value)) else []
  }

  function MarshalLockRequest(m: LockRequest): seq<byte> {
    MarshalNested(m.resource) + NonZero(0x10, m.ttlInSeconds)
  }

  function MarshalAll(rs: seq<Resource>): seq<byte> {
    if rs == [] then [] else MarshalAll(rs[..|rs| - 1]) + StringField(0x0a, MarshalResource(rs[|rs| - 1]))
  }

  // ---------------------------------------------------------------- reading what was written

  /** A field that is read as a whole moves the reader past it. */
  lemma FieldThenRest<M>(sw: Switch<M>, m: M, f: seq<byte>, t: seq<byte>, m': M)
    requires f != [] && OneField(sw, m, f + t) == Ok((m', |f|))
    ensures Unmarshal(sw, m, f + t) == Unmarshal(sw, m', t)
  {
    assert (f + t)[|f|..] == t;
  }

  /** A single-byte tag. */
  lemma OneByteHeader(tag: byte, t: seq<byte>)
    requires 8 <= tag < 128 && tag % 8 != 4
    ensures ReadHeader([tag] + t) == Ok(Header(tag / 8, tag % 8, 1))
    ensures ([tag] + t)[1..] == t
  {}

  /** A payload behind its length, in any encoding of the length. */
  lemma PayloadRead(length: seq<byte>, payload: seq<byte>, t: seq<byte>)
    requires IsVarint(length) && ToInt64(ValueOf(length)) == |payload|
    ensures ReadBytes(length + payload + t) == Ok((payload, |length| + |payload|))
  {
    var s, n := length + payload + t, |length| + |payload|;
    assert s == length + (payload + t);
    VarintThenMore(length, payload + t);
    assert s[|length|..n] == payload;
    BytesAt(s, |length|, |payload|, n, payload);
  }

  lemma BytesAt(s: seq<byte>, len: nat, size: nat, n: nat, payload: seq<byte>)
    requires n == len + size && n <= |s| && s[len..n] == payload
    ensures TakeBytes(s, len, size) == Ok((payload, n))
  {}

  /** A negative length, or one that announces more bytes than there are, is refused. */
  lemma PayloadRefused(length: seq<byte>, t: seq<byte>)
    requires IsVarint(length)
    ensures ToInt64(ValueOf(length)) < 0 ==> ReadBytes(length + t) == Err(InvalidLength)
    ensures ToInt64(ValueOf(length)) > |t| ==> ReadBytes(length + t) == Err(UnexpectedEOF)
  {
    VarintThenMore(length, t);
  }

  /** An end-group tag outside a group, or a tag without a field number, is refused by every decoder. */
  lemma TagRefused<M>(sw: Switch<M>, m: M, tag: seq<byte>, t: seq<byte>)
    requires IsVarint(tag)
    ensures ValueOf(tag) % 8 == 4 ==> Unmarshal(sw, m, tag + t) == Err(EndGroup)
    ensures ValueOf(tag) % 8 != 4 && ToInt32(Cut(Bits64, ValueOf(tag)) / 8) <= 0 ==>
              Unmarshal(sw, m, tag + t) == Err(IllegalTag)
  {
    VarintThenMore(tag, t);
  }

  lemma ReadBytesBack(v: seq<byte>, t: seq<byte>)
    requires |v| < TWO_63
    ensures ReadBytes(Encode(|v|) + v + t) == Ok((v, |Encode(|v|)| + |v|))
  {
    EncodeDecode(|v|, []);
    PayloadRead(Encode(|v|), v, t);
  }

  /** Reading a string field hands the switch its payload. */
  lemma StringFieldRead<M>(sw: Switch<M>, m: M, tag: byte, v: seq<byte>, t: seq<byte>, m': M)
    requires 8 <= tag < 128 && tag % 8 == 2 && |v| < TWO_63
    requires sw(m, tag / 8, 2, Encode(|v|) + v + t) == Ok(Some((m', |Encode(|v|)| + |v|)))
    ensures Unmarshal(sw, m, StringField(tag, v) + t) == Unmarshal(sw, m', t)
  {
    var f := StringField(tag, v);
    assert f + t == [tag] + (Encode(|v|) + v + t);
    OneByteHeader(tag, Encode(|v|) + v + t);
    FieldThenRest(sw, m, f, t, m');
  }

  lemma VarintFieldRead<M>(sw: Switch<M>, m: M, tag: byte, x: int64, t: seq<byte>, m': M)
    requires 8 <= tag < 128 && tag % 8 == 0
    requires sw(m, tag / 8, 0, Encode(ToUint64(x)) + t) == Ok(Some((m', |Encode(ToUint64(x))|)))
    ensures Unmarshal(sw, m, VarintOf(tag, x) + t) == Unmarshal(sw, m', t)
  {
    var f := VarintOf(tag, x);
    assert f + t == [tag] + (Encode(ToUint64(x)) + t);
    OneByteHeader(tag, Encode(ToUint64(x)) + t);
    FieldThenRest(sw, m, f, t, m');
  }
}
