/**
 The message objects with their generated methods (models/locket.pb.go): Size, MarshalTo into a
 buffer at a moving index, and Unmarshal, which assigns fields in place.
 */
module Messages {
  import opened Models
  import opened Varint
  import opened Wire
  import opened Codec

  // ---------------------------------------------------------------- pieces of the generated code

  method SizeOfString(l: nat) returns (n: nat)
    ensures forall tag, v {:trigger NonEmpty(tag, v)} :: |v| == l ==> n == |NonEmpty(tag, v)|
  {
    n := 0;
    if l > 0 {
      var sov := Sov(l);
      n := 1 + l + sov;
    }
  }

  method SizeOfVarint(x: int64) returns (n: nat)
    ensures forall tag {:trigger NonZero(tag, x)} :: n == |NonZero(tag, x)|
  {
    n := 0;
    if x != 0 {
      var sov := Sov(ToUint64(x));
      n := 1 + sov;
    }
  }

  /** Tag, length, and a copy of the bytes; nothing for an empty string. */
  method PutString(dAtA: array<byte>, i: nat, tag: byte, v: GoString) returns (j: nat)
    requires i + |NonEmpty(tag, v)| <= dAtA.Length
    modifies dAtA
    ensures j == i + |NonEmpty(tag, v)|
    ensures dAtA[..j] == old(dAtA[..i]) + NonEmpty(tag, v)
    ensures forall k :: j <= k < dAtA.Length ==> dAtA[k] == old(dAtA[k])
  {
    j := i;
    if |v| > 0 {
      ghost var head := dAtA[..i];
      dAtA[i] := tag;
      assert dAtA[..i + 1] == head + [tag];
      j := EncodeVarint(dAtA, i + 1, |v|);
      j := Copy(dAtA, j, v);
      Reassociate(head, [tag], Encode(|v|), v);
    }
  }

  method Copy(dAtA: array<byte>, i: nat, v: seq<byte>) returns (j: nat)
    requires i + |v| <= dAtA.Length
    modifies dAtA
    ensures j == i + |v| && dAtA[..j] == old(dAtA[..i]) + v
    ensures forall k :: j <= k < dAtA.Length ==> dAtA[k] == old(dAtA[k])
  {
    forall k | 0 <= k < |v| {
      dAtA[i + k] := v[k];
    }
    j := i + |v|;
  }

  lemma Filled(written: seq<byte>, all: seq<byte>, head: seq<byte>, bs: seq<byte>)
    requires head == [] && written == head + bs && written <= all && |all| == |bs|
    ensures all == bs
  {}

  lemma Reassociate(a: seq<byte>, b: seq<byte>, c: seq<byte>, d: seq<byte>)
    ensures a + b + c == a + (b + c)
    ensures a + b + c + d == a + (b + (c + d))
  {}

  lemma FieldsInOrder(h: seq<byte>, a: seq<byte>, b: seq<byte>, c: seq<byte>, d: seq<byte>, e: seq<byte>)
    ensures h + a + b + c + d + e == h + (a + b + c + d + e)
  {}

  method PutVarint(dAtA: array<byte>, i: nat, tag: byte, x: int64) returns (j: nat)
    requires i + |NonZero(tag, x)| <= dAtA.Length
    modifies dAtA
    ensures j == i + |NonZero(tag, x)|
    ensures dAtA[..j] == old(dAtA[..i]) + NonZero(tag, x)
    ensures forall k :: j <= k < dAtA.Length ==> dAtA[k] == old(dAtA[k])
  {
    j := i;
    if x != 0 {
      ghost var head := dAtA[..i];
      dAtA[i] := tag;
      assert dAtA[..i + 1] == head + [tag];
      j := EncodeVarint(dAtA, i + 1, ToUint64(x));
      Reassociate(head, [tag], Encode(ToUint64(x)), []);
    }
  }

  /** Reads a tag; the field number is an int32 cut from the 64-bit tag. */
  method ReadTag(dAtA: seq<byte>, start: nat) returns (num: int, wireType: nat, iNdEx: nat, err: Option<DecodeError>)
    requires start <= |dAtA|
    ensures err.None? ==> start < iNdEx <= |dAtA|
    ensures ReadHeader(dAtA[start..]) ==
            if err.None? then Ok(Header(num, wireType, iNdEx - start)) else Err(err.value)
  {
    var wire;
    wire, iNdEx, err := ReadVarint(dAtA, start, Bits64);
    num, wireType := 0, 0;
    if err.Some? {
      return;
    }
    CutLow(Decode(dAtA[start..], 0).value);
    num, wireType := ToInt32(wire / 8), wire % 8;
    if wireType == 4 {
      err := Some(EndGroup);
    } else if num <= 0 {
      err := Some(IllegalTag);
    }
  }

  /** Reads a length and the bytes it announces. */
  method ReadPayload(dAtA: seq<byte>, start: nat) returns (payload: seq<byte>, postIndex: nat, err: Option<DecodeError>)
    requires start <= |dAtA|
    ensures err.None? ==> start <= postIndex <= |dAtA|
    ensures ReadBytes(dAtA[start..]) == if err.None? then Ok((payload, postIndex - start)) else Err(err.value)
  {
    var word, iNdEx;
    word, iNdEx, err := ReadVarint(dAtA, start, Bits64);
    payload, postIndex := [], start;
    if err.Some? {
      return;
    }
    var length := Signed(Bits64, word);
    if length < 0 {
      err := Some(InvalidLength);
      return;
    }
    if iNdEx + length > |dAtA| {
      err := Some(UnexpectedEOF);
      return;
    }
    postIndex := iNdEx + length;
    payload := dAtA[iNdEx..postIndex];
    assert payload == dAtA[start..][iNdEx - start..postIndex - start];
  }

  /** The length of a field the message does not know. */
  method SkipUnknown(dAtA: seq<byte>, start: nat) returns (skippy: nat, err: Option<DecodeError>)
    requires start < |dAtA|
    ensures err.None? ==> 0 < skippy <= |dAtA| - start
    ensures SkipField(dAtA[start..]) == Outcome(skippy, err)
  {
    skippy, err := SkipLocket(dAtA[start..]);
    if err.None? && start + skippy > |dAtA| {
      err := Some(UnexpectedEOF);
    }
  }

  /** One turn of a decoding loop, from the tag read and what the switch reported. */
  lemma TurnOf<M>(sw: Switch<M>, m: M, dAtA: seq<byte>, start: nat, num: int, wireType: nat, i: nat,
                  known: bool, m': M, next: int, n: int, err: Option<DecodeError>)
    requires start <= i <= |dAtA| && ReadHeader(dAtA[start..]) == Ok(Header(num, wireType, i - start))
    requires sw(m, num, wireType, dAtA[i..]) == Switched(known, m', next - i, err)
    requires n == next - start
    ensures err.Some? || known ==> OneField(sw, m, dAtA[start..]) == Outcome((m', n), err)
    ensures err.None? && !known ==>
              forall skippy, e :: SkipField(dAtA[start..]) == Outcome(skippy, e) ==>
                OneField(sw, m, dAtA[start..]) == Outcome((m, skippy), e)
  {
    assert dAtA[start..][i - start..] == dAtA[i..];
  }

  /** One turn of a decoding loop done, the rest of the input is left to decode. */
  lemma TurnDone<M>(sw: Switch<M>, m: M, dAtA: seq<byte>, start: nat, n: nat, next: nat, m': M)
    requires start < next <= |dAtA| && next == start + n
    requires OneField(sw, m, dAtA[start..]) == Ok((m', n))
    ensures Unmarshal(sw, m, dAtA[start..]) == Unmarshal(sw, m', dAtA[next..])
  {
    assert dAtA[start..][n..] == dAtA[next..];
  }

  /** What a switch reports. */
  function Switched<M>(known: bool, m: M, n: int, err: Option<DecodeError>): Result<Option<(M, int)>, DecodeError> {
    if err.Some? then Err(err.value) else if known then Ok(Some((m, n))) else Ok(None)
  }

  function Outcome<T>(v: T, err: Option<DecodeError>): Result<T, DecodeError> {
    if err.None? then Ok(v) else Err(err.value)
  }

  // ---------------------------------------------------------------- Resource

  class ResourceMsg {
    var key: GoString
    var owner: GoString
    var value: GoString
    var typ: GoString
    var typeCode: int32

    function Value(): Resource
      reads this
    {
      Resource(key, owner, value, typ, typeCode)
    }

    constructor ()
      ensures Value() == EMPTY_RESOURCE
    {
      key, owner, value, typ, typeCode := [], [], [], [], UNKNOWN;
    }

    method Size() returns (n: nat)
      ensures n == |MarshalResource(Value())|
    {
      var a := SizeOfString(|key|);
      var b := SizeOfString(|owner|);
      var c := SizeOfString(|value|);
      var d := SizeOfString(|typ|);
      var e := SizeOfVarint(typeCode);
      n := a + b + c + d + e;
      assert a == |NonEmpty(0x0a, key)| && b == |NonEmpty(0x12, owner)| && c == |NonEmpty(0x1a, value)|;
      assert d == |NonEmpty(0x22, typ)| && e == |NonZero(0x28, typeCode)|;
    }

    /** Writes behind `off` and nowhere else; returns the number of bytes written. */
    method MarshalTo(dAtA: array<byte>, off: nat) returns (n: nat)
      requires off + |MarshalResource(Value())| <= dAtA.Length
      modifies dAtA
      ensures n == |MarshalResource(Value())|
      ensures dAtA[..off + n] == old(dAtA[..off]) + MarshalResource(Value())
      ensures forall k :: off + n <= k < dAtA.Length ==> dAtA[k] == old(dAtA[k])
    {
      var i := PutString(dAtA, off, 0x0a, key);
      i := PutString(dAtA, i, 0x12, owner);
      i := PutString(dAtA, i, 0x1a, value);
      i := PutString(dAtA, i, 0x22, typ);
      i := PutVarint(dAtA, i, 0x28, typeCode);
      n := i - off;
      FieldsInOrder(old(dAtA[..off]), NonEmpty(0x0a, key), NonEmpty(0x12, owner), NonEmpty(0x1a, value),
                    NonEmpty(0x22, typ), NonZero(0x28, typeCode));
    }

    /** Size is exact: the buffer it measures is filled to the last byte. */
    method Marshal() returns (dAtA: array<byte>)
      ensures fresh(dAtA) && dAtA[..] == MarshalResource(Value())
    {
      ghost var bs := MarshalResource(Value());
      var size := Size();
      dAtA := new byte[size](_ => 0);
      ghost var head := dAtA[..0];
      var n := MarshalTo(dAtA, 0);
      Filled(dAtA[..0 + n], dAtA[..], head, bs);
    }

    /** The switch over the field number. */
    method Assign(fieldNum: int, wireType: nat, dAtA: seq<byte>, start: nat)
      returns (known: bool, iNdEx: nat, err: Option<DecodeError>)
      requires start <= |dAtA|
      modifies this
      ensures ResourceSwitch(old(Value()), fieldNum, wireType, dAtA[start..]) ==
              Switched(known, Value(), iNdEx - start, err)
      ensures err.None? ==> start <= iNdEx <= |dAtA|
      ensures !known ==> Value() == old(Value())
    {
      known, iNdEx, err := true, start, None;
      if 1 <= fieldNum <= 4 {
        if wireType != 2 {
          err := Some(WrongWireType);
          return;
        }
        var v;
        v, iNdEx, err := ReadPayload(dAtA, start);
        if err.Some? {
          return;
        }
        match fieldNum
        case 1 => key := v;
        case 2 => owner := v;
        case 3 => value := v;
        case _ => typ := v;
      } else if fieldNum == 5 {
        if wireType != 0 {
          err := Some(WrongWireType);
          return;
        }
        var word;
        word, iNdEx, err := ReadVarint(dAtA, start, Bits32);
        if err.Some? {
          return;
        }
        typeCode := Signed(Bits32, word);
      } else {
        known := false;
      }
    }

    method ReadField(dAtA: seq<byte>, preIndex: nat) returns (n: int, err: Option<DecodeError>)
      requires preIndex < |dAtA|
      modifies this
      ensures OneField(ResourceSwitch, old(Value()), dAtA[preIndex..]) == Outcome((Value(), n), err)
      ensures err.None? ==> 0 < n <= |dAtA| - preIndex
    {
      ghost var m := Value();
      n := 0;
      var fieldNum, wireType, iNdEx, known;
      fieldNum, wireType, iNdEx, err := ReadTag(dAtA, preIndex);
      if err.Some? {
        return;
      }
      ghost var i := iNdEx;
      known, iNdEx, err := Assign(fieldNum, wireType, dAtA, iNdEx);
      n := iNdEx - preIndex;
      TurnOf(ResourceSwitch, m, dAtA, preIndex, fieldNum, wireType, i, known, Value(), iNdEx, n, err);
      if err.None? && !known {
        n, err := SkipUnknown(dAtA, preIndex);
      }
    }

    method Unmarshal(dAtA: seq<byte>) returns (err: Option<DecodeError>)
      modifies this
      ensures Codec.Unmarshal(ResourceSwitch, old(Value()), dAtA) == Outcome(Value(), err)
    {
      ghost var m0 := Value();
      var iNdEx := 0;
      err := None;
      assert dAtA[0..] == dAtA;
      while iNdEx < |dAtA|
        invariant 0 <= iNdEx <= |dAtA| && err == None
        invariant Codec.Unmarshal(ResourceSwitch, m0, dAtA) == Codec.Unmarshal(ResourceSwitch, Value(), dAtA[iNdEx..])
      {
        ghost var m := Value();
        var n;
        n, err := ReadField(dAtA, iNdEx);
        if err.Some? {
          return;
        }
        var next := iNdEx + n;
        TurnDone(ResourceSwitch, m, dAtA, iNdEx, n, next, Value());
        iNdEx := next;
      }
    }
  }

  // ---------------------------------------------------------------- LockRequest

  class LockRequestMsg {
    var resource: ResourceMsg?
    var ttlInSeconds: int64

    ghost function Parts(): set<object>
      reads this
    {
      if resource == null then {this} else {this, resource}
    }

    function Value(): LockRequest
      reads this, resource
    {
      LockRequest(if resource == null then None else Some(resource.Value()), ttlInSeconds)
    }

    constructor ()
      ensures Value() == LockRequest(None, 0) && Parts() == {this}
    {
      resource, ttlInSeconds := null, 0;
    }

    method Size() returns (n: nat)
      ensures n == |MarshalLockRequest(Value())|
    {
      n := 0;
      if resource != null {
        var l := resource.Size();
        var sov := Sov(l);
        n := 1 + l + sov;
      }
      var t := SizeOfVarint(ttlInSeconds);
      assert t == |NonZero(0x10, ttlInSeconds)|;
      n := n + t;
    }

    method Marshal() returns (dAtA: array<byte>)
      ensures fresh(dAtA) && dAtA[..] == MarshalLockRequest(Value())
    {
      var size := Size();
      dAtA := new byte[size](_ => 0);
      var n := MarshalTo(dAtA);
      assert dAtA[..] == dAtA[..n];
    }

    method MarshalTo(dAtA: array<byte>) returns (n: nat)
      requires |MarshalLockRequest(Value())| <= dAtA.Length
      modifies dAtA
      ensures n == |MarshalLockRequest(Value())| && dAtA[..n] == MarshalLockRequest(Value())
      ensures forall k :: n <= k < dAtA.Length ==> dAtA[k] == old(dAtA[k])
    {
      ghost var m := Value();
      var i := 0;
      if resource != null {
        i := PutNested(dAtA, 0, resource);
      }
      assert dAtA[..i] == MarshalNested(m.resource);
      n := PutVarint(dAtA, i, 0x10, ttlInSeconds);
    }

    /** The switch over the field number. */
    method Assign(fieldNum: int, wireType: nat, dAtA: seq<byte>, start: nat)
      returns (known: bool, iNdEx: nat, err: Option<DecodeError>)
      requires start <= |dAtA|
      modifies Parts()
      ensures LockRequestSwitch(old(Value()), fieldNum, wireType, dAtA[start..]) ==
              Switched(known, Value(), iNdEx - start, err)
      ensures err.None? ==> start <= iNdEx <= |dAtA|
      ensures !known ==> Value() == old(Value())
      ensures fresh(Parts() - old(Parts()))
    {
      known, iNdEx, err := 1 <= fieldNum <= 2, start, None;
      if known {
        if wireType != (if fieldNum == 1 then 2 else 0) {
          err := Some(WrongWireType);
        } else if fieldNum == 1 {
          iNdEx, err := AssignResource(dAtA, start);
        } else {
          iNdEx, err := AssignTtl(dAtA, start);
        }
      }
    }

    /** A nested resource is decoded over the one already there. */
    method AssignResource(dAtA: seq<byte>, start: nat) returns (iNdEx: nat, err: Option<DecodeError>)
      requires start <= |dAtA|
      modifies Parts()
      ensures LockRequestSwitch(old(Value()), 1, 2, dAtA[start..]) == Switched(true, Value(), iNdEx - start, err)
      ensures err.None? ==> start <= iNdEx <= |dAtA|
      ensures fresh(Parts() - old(Parts()))
    {
      var payload;
      payload, iNdEx, err := ReadPayload(dAtA, start);
      if err.Some? {
        return;
      }
      if resource == null {
        resource := new ResourceMsg();
      }
      err := resource.Unmarshal(payload);
    }

    method AssignTtl(dAtA: seq<byte>, start: nat) returns (iNdEx: nat, err: Option<DecodeError>)
      requires start <= |dAtA|
      modifies this`ttlInSeconds
      ensures LockRequestSwitch(old(Value()), 2, 0, dAtA[start..]) == Switched(true, Value(), iNdEx - start, err)
      ensures err.None? ==> start <= iNdEx <= |dAtA|
    {
      var word;
      word, iNdEx, err := ReadVarint(dAtA, start, Bits64);
      if err.None? {
        ttlInSeconds := Signed(Bits64, word);
      }
    }

    method ReadField(dAtA: seq<byte>, preIndex: nat) returns (n: int, err: Option<DecodeError>)
      requires preIndex < |dAtA|
      modifies Parts()
      ensures OneField(LockRequestSwitch, old(Value()), dAtA[preIndex..]) == Outcome((Value(), n), err)
      ensures err.None? ==> 0 < n <= |dAtA| - preIndex
      ensures fresh(Parts() - old(Parts()))
    {
      ghost var m := Value();
      n := 0;
      var fieldNum, wireType, iNdEx, known;
      fieldNum, wireType, iNdEx, err := ReadTag(dAtA, preIndex);
      if err.Some? {
        return;
      }
      ghost var i := iNdEx;
      known, iNdEx, err := Assign(fieldNum, wireType, dAtA, iNdEx);
      n := iNdEx - preIndex;
      TurnOf(LockRequestSwitch, m, dAtA, preIndex, fieldNum, wireType, i, known, Value(), iNdEx, n, err);
      if err.None? && !known {
        n, err := SkipUnknown(dAtA, preIndex);
      }
    }

    method Unmarshal(dAtA: seq<byte>) returns (err: Option<DecodeError>)
      modifies Parts()
      ensures Codec.Unmarshal(LockRequestSwitch, old(Value()), dAtA) == Outcome(Value(), err)
      ensures fresh(Parts() - old(Parts()))
    {
      ghost var m0 := Value();
      var iNdEx := 0;
      err := None;
      assert dAtA[0..] == dAtA;
      while iNdEx < |dAtA|
        invariant 0 <= iNdEx <= |dAtA| && err == None
        invariant fresh(Parts() - old(Parts()))
        invariant Codec.Unmarshal(LockRequestSwitch, m0, dAtA) ==
                  Codec.Unmarshal(LockRequestSwitch, Value(), dAtA[iNdEx..])
      {
        ghost var m := Value();
        var n;
        n, err := ReadField(dAtA, iNdEx);
        if err.Some? {
          return;
        }
        var next := iNdEx + n;
        TurnDone(LockRequestSwitch, m, dAtA, iNdEx, n, next, Value());
        iNdEx := next;
      }
    }
  }

  /** Tag, size and bytes of a nested resource, which may well be empty. */
  method PutNested(dAtA: array<byte>, i: nat, r: ResourceMsg) returns (j: nat)
    requires i + |StringField(0x0a, MarshalResource(r.Value()))| <= dAtA.Length
    modifies dAtA
    ensures j == i + |StringField(0x0a, MarshalResource(r.Value()))|
    ensures dAtA[..j] == old(dAtA[..i]) + StringField(0x0a, MarshalResource(r.Value()))
    ensures forall k :: j <= k < dAtA.Length ==> dAtA[k] == old(dAtA[k])
  {
    ghost var head, bs := dAtA[..i], MarshalResource(r.Value());
    dAtA[i] := 0x0a;
    assert dAtA[..i + 1] == head + [0x0a];
    var size := r.Size();
    j := EncodeVarint(dAtA, i + 1, size);
    var n := r.MarshalTo(dAtA, j);
    j := j + n;
    Reassociate(head, [0x0a], Encode(|bs|), bs);
  }

  /** The loop over repeated resources. */
  method PutAll(dAtA: array<byte>, items: seq<ResourceMsg>, ghost rs: seq<Resource>) returns (n: nat)
    requires |items| == |rs| && forall i :: 0 <= i < |items| ==> items[i].Value() == rs[i]
    requires |MarshalAll(rs)| <= dAtA.Length
    modifies dAtA
    ensures n == |MarshalAll(rs)| && dAtA[..n] == MarshalAll(rs)
    ensures forall k :: n <= k < dAtA.Length ==> dAtA[k] == old(dAtA[k])
  {
    n := 0;
    var k := 0;
    while k < |items|
      invariant 0 <= k <= |items|
      invariant n == |MarshalAll(rs[..k])| && n <= dAtA.Length
      invariant dAtA[..n] == MarshalAll(rs[..k])
      invariant forall k :: n <= k < dAtA.Length ==> dAtA[k] == old(dAtA[k])
    {
      var k' := k + 1;
      MarshalAllPrefix(rs, k, k');
      assert items[k].Value() == rs[k];
      n := PutNested(dAtA, n, items[k]);
      k := k';
    }
    assert rs[..k] == rs;
  }

  function ValuesOf(items: seq<ResourceMsg>): (rs: seq<Resource>)
    reads items
    ensures |rs| == |items| && forall i :: 0 <= i < |items| ==> rs[i] == items[i].Value()
  {
    if items == [] then [] else ValuesOf(items[..|items| - 1]) + [items[|items| - 1].Value()]
  }

  /** The sum over repeated resources. */
  method SizeAll(items: seq<ResourceMsg>, ghost rs: seq<Resource>) returns (n: nat)
    requires |items| == |rs| && forall i :: 0 <= i < |items| ==> items[i].Value() == rs[i]
    ensures n == |MarshalAll(rs)|
  {
    n := 0;
    var k := 0;
    while k < |items|
      invariant 0 <= k <= |items|
      invariant n == |MarshalAll(rs[..k])|
    {
      var l := items[k].Size();
      var sov := Sov(l);
      n := n + 1 + l + sov;
      var k' := k + 1;
      MarshalAllPrefix(rs, k, k');
      k := k';
    }
    assert rs[..k] == rs;
  }

  // ---------------------------------------------------------------- FetchAllResponse

  lemma ItemRead(m: FetchAllResponse, s: seq<byte>, payload: seq<byte>, n: nat, r: Resource, err: Option<DecodeError>)
    requires ReadBytes(s) == Ok((payload, n))
    requires Codec.Unmarshal(ResourceSwitch, EMPTY_RESOURCE, payload) == Outcome(r, err)
    ensures FetchAllSwitch(m, 1, 2, s) == Switched(true, FetchAllResponse(m.resources + [r]), n, err)
  {}

  class FetchAllResponseMsg {
    var resources: seq<ResourceMsg>

    function Values(): (rs: seq<Resource>)
      reads this, resources
    {
      ValuesOf(resources)
    }

    function Value(): FetchAllResponse
      reads this, resources
    {
      FetchAllResponse(Values())
    }

    constructor ()
      ensures Value() == FetchAllResponse([])
    {
      resources := [];
    }

    method Size() returns (n: nat)
      ensures n == |MarshalAll(Values())|
    {
      n := SizeAll(resources, Values());
    }

    method Marshal() returns (dAtA: array<byte>)
      ensures fresh(dAtA) && dAtA[..] == MarshalAll(Values())
    {
      ghost var rs := Values();
      var size := Size();
      dAtA := new byte[size](_ => 0);
      var n := PutAll(dAtA, resources, rs);
      assert dAtA[..] == dAtA[..n] && Values() == rs;
    }

    method MarshalTo(dAtA: array<byte>) returns (n: nat)
      requires |MarshalAll(Values())| <= dAtA.Length
      modifies dAtA
      ensures n == |MarshalAll(Values())| && dAtA[..n] == MarshalAll(Values())
      ensures forall k :: n <= k < dAtA.Length ==> dAtA[k] == old(dAtA[k])
    {
      n := PutAll(dAtA, resources, Values());
    }

    /** Decodes a resource into a new object and appends it. */
    method Append(payload: seq<byte>) returns (err: Option<DecodeError>, ghost r: Resource)
      modifies this
      ensures Codec.Unmarshal(ResourceSwitch, EMPTY_RESOURCE, payload) == Outcome(r, err)
      ensures Value() == FetchAllResponse(old(Values()) + [r])
    {
      ghost var before := Values();
      var item := new ResourceMsg();
      resources := resources + [item];
      err := item.Unmarshal(payload);
      r := item.Value();
      assert Values()[..|before|] == before;
      assert Values() == before + [r];
    }

    method Assign(fieldNum: int, wireType: nat, dAtA: seq<byte>, start: nat)
      returns (known: bool, iNdEx: nat, err: Option<DecodeError>)
      requires start <= |dAtA|
      modifies this
      ensures FetchAllSwitch(old(Value()), fieldNum, wireType, dAtA[start..]) ==
              Switched(known, Value(), iNdEx - start, err)
      ensures err.None? ==> start <= iNdEx <= |dAtA|
      ensures !known ==> Value() == old(Value())
    {
      known, iNdEx, err := fieldNum == 1, start, None;
      if known {
        if wireType != 2 {
          err := Some(WrongWireType);
        } else {
          iNdEx, err := AssignItem(dAtA, start);
        }
      }
    }

    method AssignItem(dAtA: seq<byte>, start: nat) returns (iNdEx: nat, err: Option<DecodeError>)
      requires start <= |dAtA|
      modifies this
      ensures FetchAllSwitch(old(Value()), 1, 2, dAtA[start..]) == Switched(true, Value(), iNdEx - start, err)
      ensures err.None? ==> start <= iNdEx <= |dAtA|
    {
      ghost var m, s := Value(), dAtA[start..];
      var payload;
      payload, iNdEx, err := ReadPayload(dAtA, start);
      if err.None? {
        ghost var n := iNdEx - start;
        ghost var r;
        err, r := Append(payload);
        ItemRead(m, s, payload, n, r, err);
      }
    }

    method ReadField(dAtA: seq<byte>, preIndex: nat) returns (n: int, err: Option<DecodeError>)
      requires preIndex < |dAtA|
      modifies this
      ensures OneField(FetchAllSwitch, old(Value()), dAtA[preIndex..]) == Outcome((Value(), n), err)
      ensures err.None? ==> 0 < n <= |dAtA| - preIndex
    {
      ghost var m := Value();
      n := 0;
      var fieldNum, wireType, iNdEx, known;
      fieldNum, wireType, iNdEx, err := ReadTag(dAtA, preIndex);
      if err.Some? {
        return;
      }
      ghost var i := iNdEx;
      known, iNdEx, err := Assign(fieldNum, wireType, dAtA, iNdEx);
      n := iNdEx - preIndex;
      TurnOf(FetchAllSwitch, m, dAtA, preIndex, fieldNum, wireType, i, known, Value(), iNdEx, n, err);
      if err.None? && !known {
        n, err := SkipUnknown(dAtA, preIndex);
      }
    }

    method Unmarshal(dAtA: seq<byte>) returns (err: Option<DecodeError>)
      modifies this
      ensures Codec.Unmarshal(FetchAllSwitch, old(Value()), dAtA) == Outcome(Value(), err)
    {
      ghost var m0 := Value();
      var iNdEx := 0;
      err := None;
      assert dAtA[0..] == dAtA;
      while iNdEx < |dAtA|
        invariant 0 <= iNdEx <= |dAtA| && err == None
        invariant Codec.Unmarshal(FetchAllSwitch, m0, dAtA) == Codec.Unmarshal(FetchAllSwitch, Value(), dAtA[iNdEx..])
      {
        ghost var m := Value();
        var n;
        n, err := ReadField(dAtA, iNdEx);
        if err.Some? {
          return;
        }
        var next := iNdEx + n;
        TurnDone(FetchAllSwitch, m, dAtA, iNdEx, n, next, Value());
        iNdEx := next;
      }
    }
  }

  lemma {:induction false} MarshalAllPrefix(rs: seq<Resource>, k: nat, k': nat)
    requires k < |rs| && k' == k + 1
    ensures MarshalAll(rs[..k']) == MarshalAll(rs[..k]) + StringField(0x0a, MarshalResource(rs[k]))
    ensures |MarshalAll(rs[..k'])| <= |MarshalAll(rs)|
    decreases |rs| - k
  {
    assert rs[..k'][..k] == rs[..k];
    if k' < |rs| {
      MarshalAllPrefix(rs, k', k' + 1);
    } else {
      assert rs[..k'] == rs;
    }
  }
}
