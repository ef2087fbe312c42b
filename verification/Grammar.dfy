/**
 The languages that the decoders accept (models/locket.pb.go), independent of how Marshal writes: any
 sequence of well-formed fields, in any order and any encoding, in which the known field numbers come
 with their own wire types. Decoding is applying those fields one after the other.
 */
module Grammar {
  import opened Models
  import opened Varint
  import opened Wire
  import opened Codec
  import opened RoundTrip

  // ---------------------------------------------------------------- any decoder

  /** Every turn of the decoder that succeeds has read one of the parts. */
  ghost predicate Parses<M(!new), P(!new)>(sw: Switch<M>, enc: P -> seq<byte>, good: P -> bool) {
    forall m, s {:trigger OneField(sw, m, s)} :: OneField(sw, m, s).Ok? && OneField(sw, m, s).value.1 <= |s| ==>
      exists p :: good(p) && enc(p) == s[..OneField(sw, m, s).value.1]
  }

  ghost predicate ReadsAll<M(!new), P(!new)>(sw: Switch<M>, enc: P -> seq<byte>, apply: (M, P) -> M, good: P -> bool) {
    forall p {:trigger good(p)} :: good(p) ==> Reads(sw, enc, apply, p)
  }

  lemma {:induction false} AcceptedIsParts<M(!new), P(!new)>(sw: Switch<M>, enc: P -> seq<byte>, good: P -> bool,
                                                            m: M, s: seq<byte>) returns (ps: seq<P>)
    requires Parses(sw, enc, good) && Unmarshal(sw, m, s).Ok?
    ensures (forall p :: p in ps ==> good(p)) && Concat(enc, ps) == s
    decreases |s|
  {
    if s == [] {
      ps := [];
    } else {
      var (m', n) := OneField(sw, m, s).value;
      var p :| good(p) && enc(p) == s[..n];
      var more := AcceptedIsParts(sw, enc, good, m', s[n..]);
      ps := [p] + more;
      assert ps[1..] == more;
      assert s == s[..n] + s[n..];
    }
  }

  /** The parts are good, spell the bytes, and turn `m` into `r`. */
  ghost predicate Spells<M, P>(enc: P -> seq<byte>, apply: (M, P) -> M, good: P -> bool,
                               ps: seq<P>, s: seq<byte>, m: M, r: M) {
    (forall p :: p in ps ==> good(p)) && Concat(enc, ps) == s && Fold(apply, m, ps) == r
  }

  lemma SpelledIsDecoded<M(!new), P(!new)>(sw: Switch<M>, enc: P -> seq<byte>, apply: (M, P) -> M, good: P -> bool,
                                           ps: seq<P>, s: seq<byte>, m: M)
    requires ReadsAll(sw, enc, apply, good)
    requires (forall p :: p in ps ==> good(p)) && Concat(enc, ps) == s
    ensures Unmarshal(sw, m, s) == Ok(Fold(apply, m, ps))
  {
    forall p | p in ps ensures Reads(sw, enc, apply, p) {
      assert good(p);
    }
    ReadParts(sw, enc, apply, m, ps, []);
    assert s + [] == s;
  }

  lemma DecodedIffSpelled<M(!new), P(!new)>(sw: Switch<M>, enc: P -> seq<byte>, apply: (M, P) -> M, good: P -> bool,
                                            m: M, s: seq<byte>, r: M)
    requires Parses(sw, enc, good) && ReadsAll(sw, enc, apply, good)
    ensures Unmarshal(sw, m, s) == Ok(r) <==> exists ps :: Spells(enc, apply, good, ps, s, m, r)
  {
    if Unmarshal(sw, m, s) == Ok(r) {
      var ps := AcceptedIsParts(sw, enc, good, m, s);
      SpelledIsDecoded(sw, enc, apply, good, ps, s, m);
      assert Spells(enc, apply, good, ps, s, m, r);
    }
    forall ps | Spells(enc, apply, good, ps, s, m, r) ensures Unmarshal(sw, m, s) == Ok(r) {
      SpelledIsDecoded(sw, enc, apply, good, ps, s, m);
    }
  }

  lemma HeaderIsRead(f: Field, t: seq<byte>)
    requires WellFormed(f) && FieldNumber(f) > 0
    ensures ReadHeader(Bytes(f) + t) == Ok(Header(FieldNumber(f), WireType(f), |f.tag|))
    ensures (Bytes(f) + t)[|f.tag|..] == Body(f) + t
  {
    TagComesFirst(f, t);
  }

  lemma TurnReads<M>(sw: Switch<M>, m: M, s: seq<byte>, h: Header, n: nat, m': M)
    requires ReadHeader(s) == Ok(h)
    requires || sw(m, h.num, h.wireType, s[h.len..]) == Ok(Some((m', n - h.len)))
             || (sw(m, h.num, h.wireType, s[h.len..]) == Ok(None) && m' == m && SkipField(s) == Ok(n))
    ensures OneField(sw, m, s) == Ok((m', n))
  {}

  lemma WholeIsSkipped(f: Field, t: seq<byte>)
    requires WellFormed(f)
    ensures SkipField(Bytes(f) + t) == Ok(|Bytes(f)|) && Bytes(f) != []
  {
    SkipExact(f, t);
  }

  /** A field whose body the switch reads, or leaves to the skipper, is read as a whole. */
  lemma FieldIsRead<M>(sw: Switch<M>, m: M, f: Field, t: seq<byte>, m': M)
    requires WellFormed(f) && FieldNumber(f) > 0
    requires var res := sw(m, FieldNumber(f), WireType(f), Body(f) + t);
             res == Ok(Some((m', |Body(f)|))) || (res == Ok(None) && m' == m)
    ensures Unmarshal(sw, m, Bytes(f) + t) == Unmarshal(sw, m', t)
  {
    var h, n := Header(FieldNumber(f), WireType(f), |f.tag|), |Bytes(f)|;
    WholeIsSkipped(f, t);
    HeaderIsRead(f, t);
    assert n - h.len == |Body(f)|;
    TurnReads(sw, m, Bytes(f) + t, h, n, m');
    FieldThenRest(sw, m, Bytes(f), t, m');
  }

  /** The body that a switch reads: a varint, or a length with its payload. */
  predicate IsBody(wireType: nat, s: seq<byte>, n: nat) {
    && n <= |s| && Decode(s, 0).Got?
    && (wireType == 0 || wireType == 2)
    && (wireType == 0 ==> n == Decode(s, 0).len)
    && (wireType == 2 ==> ToInt64(Decode(s, 0).value) >= 0 && n == Decode(s, 0).len + ToInt64(Decode(s, 0).value))
  }

  /** A turn that succeeds has read a well-formed field, if its switch reads bodies. */
  lemma ReadIsField<M>(sw: Switch<M>, m: M, s: seq<byte>, h: Header) returns (f: Field)
    requires OneField(sw, m, s).Ok? && OneField(sw, m, s).value.1 <= |s| && ReadHeader(s) == Ok(h)
    requires match sw(m, h.num, h.wireType, s[h.len..])
             case Ok(Some((_, n))) => IsBody(h.wireType, s[h.len..], n)
             case _ => true
    ensures WellFormed(f) && Bytes(f) == s[..OneField(sw, m, s).value.1]
    ensures FieldNumber(f) == h.num && WireType(f) == h.wireType
    ensures sw(m, h.num, h.wireType, s[h.len..]).value.Some? ==>
              Body(f) == s[h.len..][..OneField(sw, m, s).value.1 - h.len]
  {
    var n := OneField(sw, m, s).value.1;
    ReadIsVarint(s);
    if sw(m, h.num, h.wireType, s[h.len..]).value.Some? {
      TakeMore(s, h.len, n - h.len);
      f := FlatBody(s[..h.len], s[h.len..], n - h.len);
    } else {
      f := SkipSound(s);
    }
    SameTag(f, s, n);
  }

  lemma SameTag(f: Field, s: seq<byte>, n: nat)
    requires WellFormed(f) && n <= |s| && Bytes(f) == s[..n] && Decode(s, 0).Got?
    ensures f.tag == s[..Decode(s, 0).len] && ValueOf(f.tag) == Decode(s, 0).value
    ensures Body(f) == s[|f.tag|..n]
  {
    assert s == Bytes(f) + s[n..];
    TagComesFirst(f, s[n..]);
    assert f.tag == s[..|f.tag|];
    assert Body(f) == Bytes(f)[|f.tag|..];
  }

  lemma BodyOfBytes(f: Field)
    requires WellFormed(f) && f.BytesField?
    ensures IsVarint(f.length) && ToInt64(ValueOf(f.length)) == |f.payload|
    ensures Body(f) == f.length + f.payload && |Body(f)| == |f.length| + |f.payload|
  {}

  lemma PayloadIs(f: Field, t: seq<byte>)
    requires WellFormed(f) && f.BytesField?
    ensures ReadBytes(Body(f) + t) == Ok((f.payload, |Body(f)|))
  {
    BodyOfBytes(f);
    PayloadAt(f.length, f.payload, Body(f), |Body(f)|, t);
  }

  lemma PayloadAt(length: seq<byte>, payload: seq<byte>, body: seq<byte>, n: nat, t: seq<byte>)
    requires IsVarint(length) && ToInt64(ValueOf(length)) == |payload|
    requires body == length + payload && n == |length| + |payload|
    ensures ReadBytes(body + t) == Ok((payload, n))
  {
    PayloadRead(length, payload, t);
  }

  // ---------------------------------------------------------------- Resource

  /** A field that the decoder takes: fields 1 to 4 are strings, 5 is a varint, the rest is unknown. */
  predicate Takes(f: Field) {
    && WellFormed(f)
    && FieldNumber(f) > 0
    && (FieldNumber(f) <= 4 ==> f.BytesField?)
    && (FieldNumber(f) == 5 ==> f.VarintField?)
  }

  /** What a field means for the message: the last one wins. */
  function Put(m: Resource, f: Field): Resource {
    if !Takes(f) then m
    else if FieldNumber(f) <= 4 then SetString(m, FieldNumber(f), f.payload)
    else if FieldNumber(f) == 5 then m.(typeCode := ToInt32(ValueOf(f.value)))
    else m
  }

  function Whole(f: Field): seq<byte> {
    Bytes(f)
  }

  lemma TakenIsRead(f: Field)
    requires Takes(f)
    ensures Reads(ResourceSwitch, Whole, Put, f)
  {
    forall m, t ensures Unmarshal(ResourceSwitch, m, Whole(f) + t) == Unmarshal(ResourceSwitch, Put(m, f), t) {
      if FieldNumber(f) <= 4 {
        PayloadIs(f, t);
      } else if FieldNumber(f) == 5 {
        VarintThenMore(f.value, t);
      }
      FieldIsRead(ResourceSwitch, m, f, t, Put(m, f));
    }
  }

  lemma ReadIsTaken(m: Resource, s: seq<byte>) returns (f: Field)
    requires OneField(ResourceSwitch, m, s).Ok? && OneField(ResourceSwitch, m, s).value.1 <= |s|
    ensures Takes(f) && Whole(f) == s[..OneField(ResourceSwitch, m, s).value.1]
  {
    f := ReadIsField(ResourceSwitch, m, s, ReadHeader(s).value);
  }

  lemma ResourceGrammar()
    ensures Parses(ResourceSwitch, Whole, Takes) && ReadsAll(ResourceSwitch, Whole, Put, Takes)
  {
    forall m, s | OneField(ResourceSwitch, m, s).Ok? && OneField(ResourceSwitch, m, s).value.1 <= |s|
      ensures exists f :: Takes(f) && Whole(f) == s[..OneField(ResourceSwitch, m, s).value.1]
    {
      var f := ReadIsTaken(m, s);
    }
    forall f | Takes(f) ensures Reads(ResourceSwitch, Whole, Put, f) {
      TakenIsRead(f);
    }
  }

  /** Exactly: the decoder turns `m` into `r` on input `s` if and only if `s` is a sequence of fields
      that it takes, and applying those fields to `m` in order gives `r`. */
  lemma DecodesExactly(m: Resource, s: seq<byte>, r: Resource)
    ensures Unmarshal(ResourceSwitch, m, s) == Ok(r) <==> exists fs :: Spells(Whole, Put, Takes, fs, s, m, r)
  {
    ResourceGrammar();
    DecodedIffSpelled(ResourceSwitch, Whole, Put, Takes, m, s, r);
  }

  // ---------------------------------------------------------------- nested resources

  /** A field of a message with resources in it: one that holds a resource, with the fields that the
      resource is spelled with, or any other. */
  datatype Item = Nest(f: Field, inner: seq<Field>) | Flat(f: Field)

  function ItemBytes(i: Item): seq<byte> {
    Whole(i.f)
  }

  predicate HoldsResource(i: Item) {
    && i.Nest? && WellFormed(i.f) && FieldNumber(i.f) == 1 && i.f.BytesField?
    && (forall f :: f in i.inner ==> Takes(f)) && Concat(Whole, i.inner) == i.f.payload
  }

  lemma InnerIsDecoded(i: Item, r: Resource)
    requires HoldsResource(i)
    ensures Unmarshal(ResourceSwitch, r, i.f.payload) == Ok(Fold(Put, r, i.inner))
  {
    ResourceGrammar();
    SpelledIsDecoded(ResourceSwitch, Whole, Put, Takes, i.inner, i.f.payload, r);
  }

  lemma DecodedIsInner(r: Resource, payload: seq<byte>) returns (inner: seq<Field>)
    requires Unmarshal(ResourceSwitch, r, payload).Ok?
    ensures (forall f :: f in inner ==> Takes(f)) && Concat(Whole, inner) == payload
  {
    ResourceGrammar();
    inner := AcceptedIsParts(ResourceSwitch, Whole, Takes, r, payload);
  }

  // ---------------------------------------------------------------- LockRequest

  predicate LockTakes(i: Item) {
    || HoldsResource(i)
    || (i.Flat? && WellFormed(i.f) && FieldNumber(i.f) > 1 && (FieldNumber(i.f) == 2 ==> i.f.VarintField?))
  }

  function LockPut(m: LockRequest, i: Item): LockRequest {
    if !LockTakes(i) then m
    else if i.Nest? then m.(resource := Some(Fold(Put, Base(m), i.inner)))
    else if FieldNumber(i.f) == 2 then m.(ttlInSeconds := ToInt64(ValueOf(i.f.value)))
    else m
  }

  lemma LockTakenIsRead(i: Item)
    requires LockTakes(i)
    ensures Reads(LockRequestSwitch, ItemBytes, LockPut, i)
  {
    forall m, t
      ensures Unmarshal(LockRequestSwitch, m, ItemBytes(i) + t) == Unmarshal(LockRequestSwitch, LockPut(m, i), t)
    {
      if i.Nest? {
        PayloadIs(i.f, t);
        InnerIsDecoded(i, Base(m));
      } else if FieldNumber(i.f) == 2 {
        VarintThenMore(i.f.value, t);
      }
      FieldIsRead(LockRequestSwitch, m, i.f, t, LockPut(m, i));
    }
  }

  lemma LockReadIsTaken(m: LockRequest, s: seq<byte>) returns (i: Item)
    requires OneField(LockRequestSwitch, m, s).Ok? && OneField(LockRequestSwitch, m, s).value.1 <= |s|
    ensures LockTakes(i) && ItemBytes(i) == s[..OneField(LockRequestSwitch, m, s).value.1]
  {
    var h := ReadHeader(s).value;
    var f := ReadIsField(LockRequestSwitch, m, s, h);
    if h.num == 1 {
      var payload := ReadBytes(s[h.len..]).value.0;
      PayloadOf(f, s[h.len..]);
      var inner := DecodedIsInner(Base(m), payload);
      i := Nest(f, inner);
    } else {
      i := Flat(f);
    }
  }

  /** The payload that the switch sees is the field's. */
  lemma PayloadOf(f: Field, s: seq<byte>)
    requires WellFormed(f) && f.BytesField? && |Body(f)| <= |s| && Body(f) == s[..|Body(f)|]
    ensures ReadBytes(s) == Ok((f.payload, |Body(f)|))
  {
    assert s == Body(f) + s[|Body(f)|..];
    PayloadIs(f, s[|Body(f)|..]);
  }

  lemma LockRequestGrammar()
    ensures Parses(LockRequestSwitch, ItemBytes, LockTakes)
    ensures ReadsAll(LockRequestSwitch, ItemBytes, LockPut, LockTakes)
  {
    forall m, s | OneField(LockRequestSwitch, m, s).Ok? && OneField(LockRequestSwitch, m, s).value.1 <= |s|
      ensures exists i :: LockTakes(i) && ItemBytes(i) == s[..OneField(LockRequestSwitch, m, s).value.1]
    {
      var i := LockReadIsTaken(m, s);
    }
    forall i | LockTakes(i) ensures Reads(LockRequestSwitch, ItemBytes, LockPut, i) {
      LockTakenIsRead(i);
    }
  }

  /** The same for lock requests: field 1 holds bytes that the resource decoder accepts, field 2 is a
      varint; nested resources are decoded over one another. */
  lemma LockRequestDecodesExactly(m: LockRequest, s: seq<byte>, r: LockRequest)
    ensures Unmarshal(LockRequestSwitch, m, s) == Ok(r) <==>
            exists items :: Spells(ItemBytes, LockPut, LockTakes, items, s, m, r)
  {
    LockRequestGrammar();
    DecodedIffSpelled(LockRequestSwitch, ItemBytes, LockPut, LockTakes, m, s, r);
  }

  // ---------------------------------------------------------------- FetchAllResponse

  predicate FetchTakes(i: Item) {
    HoldsResource(i) || (i.Flat? && WellFormed(i.f) && FieldNumber(i.f) > 1)
  }

  function FetchPut(m: FetchAllResponse, i: Item): FetchAllResponse {
    if FetchTakes(i) && i.Nest? then FetchAllResponse(m.resources + [Fold(Put, EMPTY_RESOURCE, i.inner)]) else m
  }

  lemma FetchTakenIsRead(i: Item)
    requires FetchTakes(i)
    ensures Reads(FetchAllSwitch, ItemBytes, FetchPut, i)
  {
    forall m, t
      ensures Unmarshal(FetchAllSwitch, m, ItemBytes(i) + t) == Unmarshal(FetchAllSwitch, FetchPut(m, i), t)
    {
      if i.Nest? {
        PayloadIs(i.f, t);
        InnerIsDecoded(i, EMPTY_RESOURCE);
      }
      FieldIsRead(FetchAllSwitch, m, i.f, t, FetchPut(m, i));
    }
  }

  lemma FetchReadIsTaken(m: FetchAllResponse, s: seq<byte>) returns (i: Item)
    requires OneField(FetchAllSwitch, m, s).Ok? && OneField(FetchAllSwitch, m, s).value.1 <= |s|
    ensures FetchTakes(i) && ItemBytes(i) == s[..OneField(FetchAllSwitch, m, s).value.1]
  {
    var h := ReadHeader(s).value;
    var f := ReadIsField(FetchAllSwitch, m, s, h);
    if h.num == 1 {
      var payload := ReadBytes(s[h.len..]).value.0;
      PayloadOf(f, s[h.len..]);
      var inner := DecodedIsInner(EMPTY_RESOURCE, payload);
      i := Nest(f, inner);
    } else {
      i := Flat(f);
    }
  }

  lemma FetchAllGrammar()
    ensures Parses(FetchAllSwitch, ItemBytes, FetchTakes) && ReadsAll(FetchAllSwitch, ItemBytes, FetchPut, FetchTakes)
  {
    forall m, s | OneField(FetchAllSwitch, m, s).Ok? && OneField(FetchAllSwitch, m, s).value.1 <= |s|
      ensures exists i :: FetchTakes(i) && ItemBytes(i) == s[..OneField(FetchAllSwitch, m, s).value.1]
    {
      var i := FetchReadIsTaken(m, s);
    }
    forall i | FetchTakes(i) ensures Reads(FetchAllSwitch, ItemBytes, FetchPut, i) {
      FetchTakenIsRead(i);
    }
  }

  /** And for responses: every field 1 holds bytes that the resource decoder accepts from scratch, and
      adds one resource to the list. */
  lemma FetchAllDecodesExactly(m: FetchAllResponse, s: seq<byte>, r: FetchAllResponse)
    ensures Unmarshal(FetchAllSwitch, m, s) == Ok(r) <==>
            exists items :: Spells(ItemBytes, FetchPut, FetchTakes, items, s, m, r)
  {
    FetchAllGrammar();
    DecodedIffSpelled(FetchAllSwitch, ItemBytes, FetchPut, FetchTakes, m, s, r);
  }

  // ---------------------------------------------------------------- wrong wire types

  lemma FieldRefused<M>(sw: Switch<M>, m: M, f: Field, t: seq<byte>)
    requires WellFormed(f) && FieldNumber(f) > 0
    requires sw(m, FieldNumber(f), WireType(f), Body(f) + t) == Err(WrongWireType)
    ensures Unmarshal(sw, m, Bytes(f) + t) == Err(WrongWireType)
  {
    WholeIsSkipped(f, t);
    HeaderIsRead(f, t);
  }

  /** A known field with another wire type is refused, whatever the rest of the input. */
  lemma WrongTypeRefused(r: Resource, l: LockRequest, a: FetchAllResponse, f: Field, t: seq<byte>)
    requires WellFormed(f) && FieldNumber(f) > 0
    ensures (FieldNumber(f) <= 4 && !f.BytesField?) || (FieldNumber(f) == 5 && !f.VarintField?) ==>
              Unmarshal(ResourceSwitch, r, Bytes(f) + t) == Err(WrongWireType)
    ensures (FieldNumber(f) == 1 && !f.BytesField?) || (FieldNumber(f) == 2 && !f.VarintField?) ==>
              Unmarshal(LockRequestSwitch, l, Bytes(f) + t) == Err(WrongWireType)
    ensures FieldNumber(f) == 1 && !f.BytesField? ==> Unmarshal(FetchAllSwitch, a, Bytes(f) + t) == Err(WrongWireType)
  {
    if (FieldNumber(f) <= 4 && !f.BytesField?) || (FieldNumber(f) == 5 && !f.VarintField?) {
      FieldRefused(ResourceSwitch, r, f, t);
    }
    if (FieldNumber(f) == 1 && !f.BytesField?) || (FieldNumber(f) == 2 && !f.VarintField?) {
      FieldRefused(LockRequestSwitch, l, f, t);
    }
    if FieldNumber(f) == 1 && !f.BytesField? {
      FieldRefused(FetchAllSwitch, a, f, t);
    }
  }
}
