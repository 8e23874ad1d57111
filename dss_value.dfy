/** Typed values, src/dss/dss_load_unload.c:173-480.

    A value holds a key, a type tag and a C union of one member per type.
    The union is modelled by the member last written (Datum); reading it as
    another member gives the other member's bytes reinterpreted, which the
    model keeps symbolic (Punned). A memset of the union is Zeroed, which
    reads as zero, false, NULL or the empty byte object through every
    member. */
module DssValue {
  import opened Util

  datatype DataType =
    | TBool | TByte | TString | TSize | TPid
    | TInt | TInt8 | TInt16 | TInt32 | TInt64
    | TUint | TUint8 | TUint16 | TUint32 | TUint64
    | TByteObject | TFloat | TTimeval | TPtr | TVpid
    | TOther(code: nat)

  /** The types whose union member is an integer of fixed width. */
  predicate IsNumeric(t: DataType) {
    !(t.TBool? || t.TString? || t.TByteObject? || t.TFloat? || t.TTimeval? || t.TPtr? || t.TOther?)
  }

  /** The range of a numeric member's C type (size_t and the 64-bit types
      on an LP64 platform; pid_t, int and unsigned int are 32 bits). */
  function MinOf(t: DataType): int
    requires IsNumeric(t)
  {
    match t
    case TInt8 => -0x80
    case TInt16 => -0x8000
    case TInt | TInt32 | TPid => -0x8000_0000
    case TInt64 => -0x8000_0000_0000_0000
    case _ => 0
  }

  function MaxOf(t: DataType): int
    requires IsNumeric(t)
  {
    match t
    case TByte | TUint8 => 0xff
    case TInt8 => 0x7f
    case TUint16 => 0xffff
    case TInt16 => 0x7fff
    case TInt | TInt32 | TPid => 0x7fff_ffff
    case TUint | TUint32 | TVpid => 0xffff_ffff
    case TInt64 => 0x7fff_ffff_ffff_ffff
    case _ => 0xffff_ffff_ffff_ffff
  }

  /** A prrte_byte_object_t: a possibly NULL byte pointer and a size. */
  datatype ByteObject = ByteObject(bytes: Option<seq<byte>>, size: int)

  /** A byte object whose pointer, when set, holds at least `size` bytes. */
  predicate ByteObjectOk(bo: ByteObject) {
    bo.bytes.Some? && bo.size > 0 ==> bo.size <= |bo.bytes.value|
  }

  /** The deep copy the value functions make: the first `size` bytes when
      there are any, otherwise NULL with size 0. */
  function CopyByteObject(bo: ByteObject): (r: ByteObject)
    requires ByteObjectOk(bo)
    ensures ByteObjectOk(r)
    ensures r.bytes.Some? <==> bo.bytes.Some? && bo.size > 0
    ensures r.bytes.Some? ==> r.size == |r.bytes.value| == bo.size && r.bytes.value == bo.bytes.value[..bo.size]
    ensures r.bytes.None? ==> r.size == 0
  {
    if bo.bytes.Some? && 0 < bo.size then ByteObject(Some(bo.bytes.value[..bo.size]), bo.size)
    else ByteObject(None, 0)
  }

  /** Copying a copy changes nothing. */
  lemma CopyByteObjectIdempotent(bo: ByteObject)
    requires ByteObjectOk(bo)
    ensures CopyByteObject(CopyByteObject(bo)) == CopyByteObject(bo)
  {
    var c := CopyByteObject(bo);
    if c.bytes.Some? {
      assert c.bytes.value[..c.size] == c.bytes.value;
    }
  }

  /** The content of the union. */
  datatype Datum =
    | Zeroed
    | Flag(b: bool)
    | Number(member: DataType, n: int)
    | Text(s: Option<string>)
    | Bytes(bo: ByteObject)
    | Fval(bits: bv32)
    | Tv(sec: int, usec: int)
    | Ptr(addr: nat)
    | Punned(from: Datum, view: DataType)

  /** The union's last written member is the one of type t. */
  predicate HoldsMember(d: Datum, t: DataType) {
    match d
    case Zeroed => false
    case Flag(_) => t.TBool?
    case Number(m, _) => IsNumeric(t) && m == t
    case Text(_) => t.TString?
    case Bytes(_) => t.TByteObject?
    case Fval(_) => t.TFloat?
    case Tv(_, _) => t.TTimeval?
    case Ptr(_) => t.TPtr?
    case Punned(_, v) => v == t
  }

  /** Every member of a memset union reads as zero. */
  function ZeroOf(t: DataType): (d: Datum)
    ensures !t.TOther? ==> HoldsMember(d, t)
  {
    match t
    case TBool => Flag(false)
    case TString => Text(None)
    case TByteObject => Bytes(ByteObject(None, 0))
    case TFloat => Fval(0)
    case TTimeval => Tv(0, 0)
    case TPtr => Ptr(0)
    case TOther(_) => Zeroed
    case _ => Number(t, 0)
  }

  /** Reading the union through the member of type t. */
  function MemberOf(d: Datum, t: DataType): (r: Datum)
    ensures !t.TOther? ==> HoldsMember(r, t)
    ensures HoldsMember(d, t) ==> r == d
  {
    if d.Zeroed? then ZeroOf(t)
    else if HoldsMember(d, t) then d
    else Punned(d, t)
  }

  /** Reading a member twice is reading it once. */
  lemma MemberOfIdempotent(d: Datum, t: DataType)
    ensures MemberOf(MemberOf(d, t), t) == MemberOf(d, t)
  {
  }

  /** Every byte object inside the datum is well formed. */
  predicate DatumOk(d: Datum) {
    match d
    case Bytes(bo) => ByteObjectOk(bo)
    case Punned(from, _) => DatumOk(from)
    case _ => true
  }

  /** What the caller's pointer designates when it is not NULL: a C value of
      type t (a non-NULL string; for PTR, the pointer itself). */
  predicate Fits(t: DataType, x: Datum) {
    match t
    case TBool => x.Flag?
    case TString => x.Text? && x.s.Some?
    case TByteObject => x.Bytes? && ByteObjectOk(x.bo)
    case TFloat => x.Fval?
    case TTimeval => x.Tv?
    case TPtr => x.Ptr? && x.addr > 0
    case TOther(_) => false
    case _ => x.Number? && x.member == t && MinOf(t) <= x.n <= MaxOf(t)
  }

  /** prrte_value_load and prrte_value_xfer know every type but VPID. */
  predicate LoadSupported(t: DataType) {
    !t.TVpid? && !t.TOther?
  }

  /** prrte_value_unload also knows VPID. */
  predicate UnloadSupported(t: DataType) {
    !t.TOther?
  }

  datatype Value = Value(key: Option<string>, vtype: DataType, data: Datum)

  datatype DataResult = DataResult(status: Status, data: Datum)

  /** The union a load leaves behind: a NULL pointer for any type but
      STRING and BYTE_OBJECT zeroes it; an unsupported type leaves it
      alone; STRING and BYTE_OBJECT store a deep copy (NULL for NULL). */
  function LoadData(prior: Datum, x: Option<Datum>, t: DataType): DataResult
    requires x.Some? && LoadSupported(t) ==> Fits(t, x.value)
  {
    if x.None? && !t.TString? && !t.TByteObject? then DataResult(Success, Zeroed)
    else if !LoadSupported(t) then DataResult(ErrNotSupported, prior)
    else if t.TString? then DataResult(Success, if x.None? then Text(None) else x.value)
    else if t.TByteObject? then
      DataResult(Success, Bytes(if x.None? then ByteObject(None, 0) else CopyByteObject(x.value.bo)))
    else DataResult(Success, x.value)
  }

  /** The value after prrte_value_load: the type is set first, whatever
      happens next; the key is not touched. */
  function Loaded(v: Value, x: Option<Datum>, t: DataType): (r: Value)
    requires x.Some? && LoadSupported(t) ==> Fits(t, x.value)
    ensures r.vtype == t && r.key == v.key
  {
    v.(vtype := t, data := LoadData(v.data, x, t).data)
  }

  /** The caller's destination for prrte_value_unload: `data` NULL, `*data`
      NULL, or `*data` pointing at storage. */
  datatype Dest = NoDest | NullSlot | Slot

  datatype UnloadResult = UnloadResult(status: Status, out: Option<Datum>)

  /** A byte object read from a union is deep-copied; any other member is
      handed back as read. */
  function CopyOut(m: Datum, t: DataType): Datum
    requires DatumOk(m)
  {
    if t.TByteObject? && m.Bytes? then Bytes(CopyByteObject(m.bo)) else m
  }

  /** prrte_value_unload: TYPE_MISMATCH when the type differs from the
      value's, BAD_PARAM for a NULL destination (or a NULL `*data` for
      anything but STRING and BYTE_OBJECT), NOT_SUPPORTED for unknown
      types, otherwise the member of that type. */
  function UnloadSpec(v: Value, t: DataType, dest: Dest): UnloadResult
    requires DatumOk(v.data)
  {
    if t != v.vtype then UnloadResult(ErrTypeMismatch, None)
    else if dest.NoDest? || (!t.TString? && !t.TByteObject? && dest.NullSlot?) then UnloadResult(ErrBadParam, None)
    else if !UnloadSupported(t) then UnloadResult(ErrNotSupported, None)
    else UnloadResult(Success, Some(CopyOut(MemberOf(v.data, t), t)))
  }

  /** The value after prrte_value_xfer: the key is copied only when the
      source has one, the type always, the data for the types load knows. */
  function Xferred(dest: Value, src: Value): (r: Value)
    requires DatumOk(src.data)
  {
    Value(if src.key.Some? then src.key else dest.key, src.vtype,
          if LoadSupported(src.vtype) then CopyOut(MemberOf(src.data, src.vtype), src.vtype) else dest.data)
  }

  // ---------------------------------------------------------------------
  // Properties
  // ---------------------------------------------------------------------

  /** What loading x as type t is meant to store, as seen through unload:
      the value itself, with byte objects normalised, and the zero of the
      type (NULL for strings and byte objects) for a NULL pointer. */
  function Stored(t: DataType, x: Option<Datum>): Datum
    requires x.Some? && LoadSupported(t) ==> Fits(t, x.value)
  {
    if x.None? then ZeroOf(t)
    else if t.TByteObject? then Bytes(CopyByteObject(x.value.bo))
    else x.value
  }

  /** Load, then unload with the same supported type: the caller gets back
      what was loaded. */
  lemma {:induction false} LoadUnloadRoundTrip(v: Value, x: Option<Datum>, t: DataType, dest: Dest)
    requires DatumOk(v.data) && LoadSupported(t)
    requires x.Some? ==> Fits(t, x.value)
    requires dest.Slot? || (dest.NullSlot? && (t.TString? || t.TByteObject?))
    ensures DatumOk(Loaded(v, x, t).data)
    ensures UnloadSpec(Loaded(v, x, t), t, dest) == UnloadResult(Success, Some(Stored(t, x)))
  {
    if t.TByteObject? {
      if x.Some? {
        CopyByteObjectIdempotent(x.value.bo);
      }
    }
  }

  /** The type is overwritten even when the load fails. */
  lemma LoadNotSupported(v: Value, x: Datum, t: DataType)
    requires !LoadSupported(t)
    ensures Loaded(v, Some(x), t) == v.(vtype := t)
    ensures LoadData(v.data, Some(x), t).status == ErrNotSupported
  {
  }

  /** A NULL pointer zeroes the union even for a type load does not know:
      loading NULL as VPID succeeds, and unloading VPID then yields 0. */
  lemma NullVpidLoads(v: Value)
    ensures LoadData(v.data, None, TVpid) == DataResult(Success, Zeroed)
    ensures UnloadSpec(Loaded(v, None, TVpid), TVpid, Slot) == UnloadResult(Success, Some(Number(TVpid, 0)))
  {
  }

  /** The unload error cases, each stated both ways. */
  lemma UnloadErrors(v: Value, t: DataType, dest: Dest)
    requires DatumOk(v.data)
    ensures UnloadSpec(v, t, dest).status == ErrTypeMismatch <==> t != v.vtype
    ensures UnloadSpec(v, t, dest).status == ErrBadParam <==>
              t == v.vtype && (dest.NoDest? || (!t.TString? && !t.TByteObject? && dest.NullSlot?))
    ensures UnloadSpec(v, t, dest).status == Success <==>
              t == v.vtype && UnloadSupported(t) && (dest.Slot? || (dest.NullSlot? && (t.TString? || t.TByteObject?)))
    ensures UnloadSpec(v, t, dest).out.Some? <==> UnloadSpec(v, t, dest).status == Success
  {
  }

  /** After a transfer of a type load knows, unloading the destination
      gives what unloading the source gives. */
  lemma {:induction false} XferPreservesUnload(dest: Value, src: Value, dst: Dest)
    requires DatumOk(src.data) && LoadSupported(src.vtype)
    ensures DatumOk(Xferred(dest, src).data)
    ensures Xferred(dest, src).vtype == src.vtype
    ensures UnloadSpec(Xferred(dest, src), src.vtype, dst) == UnloadSpec(src, src.vtype, dst)
  {
    var m := MemberOf(src.data, src.vtype);
    MemberOfIdempotent(src.data, src.vtype);
    if src.vtype.TByteObject? && m.Bytes? {
      CopyByteObjectIdempotent(m.bo);
    }
  }

  /** The key is copied only from a source that has one. */
  lemma XferKey(dest: Value, src: Value)
    requires DatumOk(src.data)
    ensures src.key.Some? ==> Xferred(dest, src).key == src.key
    ensures src.key.None? ==> Xferred(dest, src).key == dest.key
  {
  }

  // ---------------------------------------------------------------------
  // The value object
  // ---------------------------------------------------------------------

  class KeyValue {
    var key: Option<string>
    var vtype: DataType
    var data: Datum

    function Snapshot(): Value
      reads this
    {
      Value(key, vtype, data)
    }

    predicate Valid()
      reads this
    {
      DatumOk(data)
    }

    constructor (key: Option<string>, vtype: DataType, data: Datum)
      requires DatumOk(data)
      ensures Snapshot() == Value(key, vtype, data) && Valid()
    {
      this.key, this.vtype, this.data := key, vtype, data;
    }

    /** prrte_value_load; `x` is what the caller's pointer designates, None
        for NULL. */
    method Load(x: Option<Datum>, t: DataType) returns (rc: Status)
      requires Valid()
      requires x.Some? && LoadSupported(t) ==> Fits(t, x.value)
      modifies this`vtype, this`data
      ensures Snapshot() == Loaded(old(Snapshot()), x, t) && Valid()
      ensures rc == LoadData(old(data), x, t).status
    {
      vtype := t;
      if x.None? && !t.TString? && !t.TByteObject? {
        data := Zeroed;
        return Success;
      }
      match t {
        case TString =>
          data := if x.Some? then x.value else Text(None);
        case TByteObject =>
          if x.Some? && x.value.bo.bytes.Some? && 0 < x.value.bo.size {
            var bo := x.value.bo;
            data := Bytes(ByteObject(Some(bo.bytes.value[..bo.size]), bo.size));
          } else {
            data := Bytes(ByteObject(None, 0));
          }
        case TVpid =>
          return ErrNotSupported;
        case TOther(_) =>
          return ErrNotSupported;
        case _ =>
          data := x.value;
      }
      rc := Success;
    }

    /** prrte_value_unload; leaves the value as it is. */
    method Unload(t: DataType, dest: Dest) returns (rc: Status, out: Option<Datum>)
      requires Valid()
      ensures UnloadResult(rc, out) == UnloadSpec(Snapshot(), t, dest)
    {
      if t != vtype {
        return ErrTypeMismatch, None;
      }
      if dest.NoDest? || (!t.TString? && !t.TByteObject? && dest.NullSlot?) {
        return ErrBadParam, None;
      }
      if t.TOther? {
        return ErrNotSupported, None;
      }
      var m := MemberOf(data, t);
      if t.TByteObject? && m.Bytes? && m.bo.bytes.Some? && 0 < m.bo.size {
        out := Some(Bytes(ByteObject(Some(m.bo.bytes.value[..m.bo.size]), m.bo.size)));
      } else if t.TByteObject? && m.Bytes? {
        out := Some(Bytes(ByteObject(None, 0)));
      } else {
        out := Some(m);
      }
      rc := Success;
    }

    /** prrte_value_xfer into this value. The source frees the destination's
        string or byte object before copying from the source's, so a
        transfer of such a value onto itself is excluded. */
    method Xfer(src: KeyValue) returns (rc: Status)
      requires Valid() && src.Valid()
      requires src != this || !(src.vtype.TString? || src.vtype.TByteObject?)
      modifies this`key, this`vtype, this`data
      ensures Snapshot() == Xferred(old(Snapshot()), old(src.Snapshot())) && Valid()
      ensures rc == if LoadSupported(old(src.vtype)) then Success else ErrNotSupported
    {
      var srcKey, srcType, srcData := src.key, src.vtype, src.data;
      if srcKey.Some? {
        key := srcKey;
      }
      vtype := srcType;
      if !LoadSupported(srcType) {
        return ErrNotSupported;
      }
      var m := MemberOf(srcData, srcType);
      if srcType.TByteObject? && m.Bytes? {
        data := Bytes(CopyByteObject(m.bo));
      } else {
        data := m;
      }
      rc := Success;
    }
  }

  /** Loading and unloading through the object: a string comes back as it
      went in. */
  method LoadUnloadString(kv: KeyValue, s: string) returns (back: Option<Datum>)
    requires kv.Valid()
    modifies kv`vtype, kv`data
    ensures back == Some(Text(Some(s)))
  {
    var rc := kv.Load(Some(Text(Some(s))), TString);
    LoadUnloadRoundTrip(old(kv.Snapshot()), Some(Text(Some(s))), TString, Slot);
    rc, back := kv.Unload(TString, Slot);
  }
}
