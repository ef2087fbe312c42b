/**
 Messages, errors and type canonicalisation shared by every other module
 (models/models.go, models/helpers.go and the message types of models/locket.pb.go).
 */
module Models {

  type byte = b: int | 0 <= b < 256

  /** A Go string: an arbitrary byte sequence. */
  type GoString = seq<byte>

  const TWO_31: int := 0x8000_0000
  const TWO_32: int := 0x1_0000_0000
  const TWO_63: int := 0x8000_0000_0000_0000
  const TWO_64: int := 0x1_0000_0000_0000_0000

  type int32 = x: int | -TWO_31 <= x < TWO_31
  type int64 = x: int | -TWO_63 <= x < TWO_63

  datatype Option<+T> = None | Some(value: T)

  datatype Result<+T, +E> = Ok(value: T) | Err(error: E)

  datatype Resource = Resource(key: GoString, owner: GoString, value: GoString, typ: GoString, typeCode: int32)

  datatype LockRequest = LockRequest(resource: Option<Resource>, ttlInSeconds: int64)

  datatype FetchAllRequest = FetchAllRequest(typ: GoString, typeCode: int32)

  datatype FetchAllResponse = FetchAllResponse(resources: seq<Resource>)

  datatype Error =
    | LockCollision
    | InvalidTTL
    | InvalidOwner
    | ResourceNotFound
    | InvalidType
    | GuidFailure

  // "lock" and "presence"
  const LOCK_TYPE: GoString := [108, 111, 99, 107]
  const PRESENCE_TYPE: GoString := [112, 114, 101, 115, 101, 110, 99, 101]

  const UNKNOWN: int32 := 0
  const LOCK: int32 := 1
  const PRESENCE: int32 := 2

  function GetTypeCode(lockType: GoString): int32 {
    if lockType == LOCK_TYPE then LOCK
    else if lockType == PRESENCE_TYPE then PRESENCE
    else UNKNOWN
  }

  function GetType(typ: GoString, typeCode: int32): GoString {
    if typeCode == LOCK then LOCK_TYPE
    else if typeCode == PRESENCE then PRESENCE_TYPE
    else typ
  }

  function GetResource(r: Resource): Resource {
    if r.typeCode == UNKNOWN then r.(typeCode := GetTypeCode(r.typ))
    else r.(typ := GetType(r.typ, r.typeCode))
  }

  /** The type check that the handler runs on Lock and FetchAll requests. */
  function Validate(typ: GoString, typeCode: int32): Option<Error> {
    if !(UNKNOWN <= typeCode <= PRESENCE) then Some(InvalidType)
    else if typeCode == UNKNOWN then
      if typ != PRESENCE_TYPE && typ != LOCK_TYPE then Some(InvalidType) else None
    else if typ != [] && typeCode == LOCK && typ != LOCK_TYPE then Some(InvalidType)
    else if typ != [] && typeCode == PRESENCE && typ != PRESENCE_TYPE then Some(InvalidType)
    else None
  }

  /** One of the two spellings that the type string and the type code may take together. */
  predicate Canonical(r: Resource) {
    || (r.typ == LOCK_TYPE && r.typeCode == LOCK)
    || (r.typ == PRESENCE_TYPE && r.typeCode == PRESENCE)
  }

  lemma TypeNamesDiffer()
    ensures LOCK_TYPE != PRESENCE_TYPE && LOCK_TYPE != [] && PRESENCE_TYPE != []
  {
    assert |LOCK_TYPE| == 4 && |PRESENCE_TYPE| == 8;
  }

  /** A text in ASCII, as bytes. */
  function Text(s: string): (bs: GoString)
    requires forall i :: 0 <= i < |s| ==> s[i] < 128 as char
  {
    seq(|s|, i requires 0 <= i < |s| => s[i] as int)
  }

  lemma TypeNames()
    ensures LOCK_TYPE == Text("lock") && PRESENCE_TYPE == Text("presence")
  {
    var l, p := Text("lock"), Text("presence");
    assert l[0] == 108 && l[1] == 111 && l[2] == 99 && l[3] == 107;
    assert p[0] == 112 && p[1] == 114 && p[2] == 101 && p[3] == 115;
    assert p[4] == 101 && p[5] == 110 && p[6] == 99 && p[7] == 101;
  }

  /** What canonicalising leaves alone, and what it fills in: the type string by a declared type code,
      the type code by the type string where no code is given. */
  lemma GetResourceKeeps(r: Resource)
    ensures var g := GetResource(r);
            && g.key == r.key && g.owner == r.owner && g.value == r.value
            && (r.typeCode != UNKNOWN ==> g.typeCode == r.typeCode)
            && (r.typeCode != LOCK && r.typeCode != PRESENCE ==> g.typ == r.typ)
            && (r.typeCode == LOCK ==> g.typ == LOCK_TYPE)
            && (r.typeCode == PRESENCE ==> g.typ == PRESENCE_TYPE)
            && (r.typeCode == UNKNOWN && r.typ == LOCK_TYPE ==> g.typeCode == LOCK)
            && (r.typeCode == UNKNOWN && r.typ == PRESENCE_TYPE ==> g.typeCode == PRESENCE)
            && (r.typeCode == UNKNOWN && r.typ != LOCK_TYPE && r.typ != PRESENCE_TYPE ==> g.typeCode == UNKNOWN)
  {
    TypeNamesDiffer();
  }

  /** The type that a valid request is about: the one it names, or the one its code stands for. */
  function TypeAsked(typ: GoString, typeCode: int32): GoString {
    if typ != [] then typ else if typeCode == LOCK then LOCK_TYPE else PRESENCE_TYPE
  }

  lemma ValidTypeIsAsked(typ: GoString, typeCode: int32)
    requires Validate(typ, typeCode).None?
    ensures GetType(typ, typeCode) == TypeAsked(typ, typeCode) && TypeAsked(typ, typeCode) != []
  {
    TypeNamesDiffer();
  }

  /** Canonicalising twice is canonicalising once, on every resource, valid or not. */
  lemma GetResourceIdempotent(r: Resource)
    ensures GetResource(GetResource(r)) == GetResource(r)
  {
    TypeNamesDiffer();
  }

  /** Validation accepts exactly the requests in which at least one of the two type fields names
      a known type and the two do not contradict each other. */
  lemma ValidateExact(typ: GoString, typeCode: int32)
    ensures Validate(typ, typeCode).None? <==>
            || (typ == [] && (typeCode == LOCK || typeCode == PRESENCE))
            || (GetTypeCode(typ) != UNKNOWN && (typeCode == UNKNOWN || typeCode == GetTypeCode(typ)))
    ensures Validate(typ, typeCode).Some? ==> Validate(typ, typeCode) == Some(InvalidType)
  {
    TypeNamesDiffer();
  }

  /** Every resource that passes validation becomes canonical, and the stored type string alone
      then determines the type code again. */
  lemma ValidatedBecomesCanonical(r: Resource)
    requires Validate(r.typ, r.typeCode).None?
    ensures Canonical(GetResource(r))
    ensures GetTypeCode(GetResource(r).typ) == GetResource(r).typeCode
  {
    TypeNamesDiffer();
  }

  /** Storing only the type string loses nothing exactly when the type code is a declared one. */
  lemma TypeCodeRecoverable(r: Resource)
    ensures GetTypeCode(GetResource(r).typ) == GetResource(r).typeCode <==> UNKNOWN <= r.typeCode <= PRESENCE
  {
    TypeNamesDiffer();
  }
}
