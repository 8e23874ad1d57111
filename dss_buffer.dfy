/** DSS buffer payload transfer, src/dss/dss_load_unload.c:33-171.

    A buffer is a region of bytes with three cursors: the base (absent when
    the buffer owns no memory), the unpack pointer and the pack pointer.
    The pack pointer always sits `bytesUsed` bytes past the base, so both
    pointers are kept as offsets from the base. Bytes between the unpack
    offset and `bytesUsed` are packed but not yet unpacked. */
module DssBuffer {
  import opened Util

  /** PRRTE_DSS_BUFFER_NON_DESC / PRRTE_DSS_BUFFER_FULLY_DESC. */
  datatype BufferType = NonDescribed | FullyDescribed

  /** A snapshot of a buffer's fields. */
  datatype BufState = BufState(
    hasBase: bool, region: seq<byte>, unpackOffset: nat, packOffset: nat,
    bytesUsed: nat, bytesAllocated: nat, kind: BufferType)

  /** The bookkeeping every buffer keeps: the region is as large as what is
      allocated, unpacking never passes packing, and a buffer without a
      base owns nothing. */
  predicate WellFormed(s: BufState) {
    && |s.region| == s.bytesAllocated
    && s.unpackOffset <= s.bytesUsed <= s.bytesAllocated
    && s.packOffset == s.bytesUsed
    && (!s.hasBase ==> s.bytesAllocated == 0)
  }

  /** A freshly constructed buffer (PRRTE_CONSTRUCT): no base, all counts
      zero, the default buffer type. */
  function Empty(defaultKind: BufferType): (s: BufState)
    ensures WellFormed(s)
  {
    BufState(false, [], 0, 0, 0, 0, defaultKind)
  }

  /** The bytes packed so far. */
  function Packed(s: BufState): (r: seq<byte>)
    requires WellFormed(s)
    ensures |r| == s.bytesUsed
  {
    s.region[..s.bytesUsed]
  }

  /** The bytes packed but not yet unpacked. */
  function Unpacked(s: BufState): (r: seq<byte>)
    requires WellFormed(s)
    ensures |r| == s.bytesUsed - s.unpackOffset
    ensures r == Packed(s)[s.unpackOffset..]
  {
    s.region[s.unpackOffset..s.bytesUsed]
  }

  /** What prrte_dss_unload hands back: a payload (absent when NULL) and a count. */
  datatype Payload = Payload(bytes: Option<seq<byte>>, count: int)

  datatype UnloadResult = UnloadResult(payload: Payload, after: BufState)

  /** prrte_dss_unload on a buffer and a payload destination: an empty
      buffer gives a NULL payload and is left as it is; otherwise the caller
      receives the unpacked bytes (NULL when there are none) and the buffer
      is reset. */
  function UnloadSpec(s: BufState, defaultKind: BufferType): UnloadResult
    requires WellFormed(s)
  {
    if !s.hasBase || s.bytesUsed == 0 then UnloadResult(Payload(None, 0), s)
    else
      var u := Unpacked(s);
      UnloadResult(Payload(if |u| == 0 then None else Some(u), |u|), Empty(defaultKind))
  }

  /** prrte_dss_load: the buffer is reset first; a NULL payload leaves it
      empty, any other payload becomes the whole region, fully packed and
      not yet unpacked. */
  function LoadSpec(payload: Option<seq<byte>>, defaultKind: BufferType): (s: BufState)
    ensures WellFormed(s)
  {
    if payload.None? then Empty(defaultKind)
    else
      var p := payload.value;
      BufState(true, p, 0, |p|, |p|, |p|, defaultKind)
  }

  datatype CopyResult = CopyResult(status: Status, after: BufState)

  /** prrte_dss_copy_payload on two present buffers: a populated destination
      of another type is refused; otherwise the destination takes the
      source's type, and the source's unpacked bytes are appended to it
      unless there are none or the destination cannot grow. */
  function CopySpec(d: BufState, s: BufState, extendOk: bool): CopyResult
    requires WellFormed(d) && WellFormed(s)
  {
    if d.bytesUsed != 0 && d.kind != s.kind then CopyResult(ErrBuffer, d)
    else
      var d1 := d.(kind := s.kind);
      var u := Unpacked(s);
      if |u| == 0 then CopyResult(Success, d1)
      else if !extendOk then CopyResult(ErrOutOfResource, d1)
      else CopyResult(Success, d1.(hasBase := true, region := Packed(d) + u,
                                    bytesUsed := d.bytesUsed + |u|, packOffset := d.bytesUsed + |u|,
                                    bytesAllocated := d.bytesUsed + |u|))
  }

  // ---------------------------------------------------------------------
  // Properties of the specification
  // ---------------------------------------------------------------------

  /** Unload always hands back exactly the unpacked suffix: its length as
      the count, NULL exactly when it is empty. */
  lemma UnloadReturnsSuffix(s: BufState, defaultKind: BufferType)
    requires WellFormed(s)
    ensures UnloadSpec(s, defaultKind).payload.count == |Unpacked(s)|
    ensures UnloadSpec(s, defaultKind).payload.bytes ==
              if |Unpacked(s)| == 0 then None else Some(Unpacked(s))
  {
  }

  /** With nothing unpacked yet, unload hands back every packed byte and
      leaves the buffer empty. */
  lemma UnloadWhole(s: BufState, defaultKind: BufferType)
    requires WellFormed(s) && s.hasBase && s.bytesUsed > 0 && s.unpackOffset == 0
    ensures UnloadSpec(s, defaultKind) == UnloadResult(Payload(Some(Packed(s)), s.bytesUsed), Empty(defaultKind))
  {
  }

  /** Load followed by unload gives the payload back, and an empty buffer. */
  lemma LoadUnloadRoundTrip(p: seq<byte>, defaultKind: BufferType)
    requires |p| > 0
    ensures UnloadSpec(LoadSpec(Some(p), defaultKind), defaultKind) ==
            UnloadResult(Payload(Some(p), |p|), Empty(defaultKind))
  {
    assert Unpacked(LoadSpec(Some(p), defaultKind)) == p;
  }

  /** Loading a zero-length payload keeps its base; unloading that buffer
      yields NULL and does not reset it. */
  lemma LoadEmptyPayloadKeepsBase(defaultKind: BufferType)
    ensures LoadSpec(Some([]), defaultKind).hasBase
    ensures UnloadSpec(LoadSpec(Some([]), defaultKind), defaultKind) ==
            UnloadResult(Payload(None, 0), LoadSpec(Some([]), defaultKind))
  {
  }

  /** Copying appends the source's unpacked bytes to both the packed and
      the unpacked bytes of the destination, and keeps its unpack offset. */
  lemma CopyAppendsSuffix(d: BufState, s: BufState)
    requires WellFormed(d) && WellFormed(s)
    requires d.bytesUsed == 0 || d.kind == s.kind
    ensures CopySpec(d, s, true).status == Success
    ensures WellFormed(CopySpec(d, s, true).after)
    ensures Packed(CopySpec(d, s, true).after) == Packed(d) + Unpacked(s)
    ensures Unpacked(CopySpec(d, s, true).after) == Unpacked(d) + Unpacked(s)
    ensures CopySpec(d, s, true).after.unpackOffset == d.unpackOffset
    ensures CopySpec(d, s, true).after.kind == s.kind
  {
    var u := Unpacked(s);
    if |u| > 0 {
      var a := d.(kind := s.kind, hasBase := true, region := Packed(d) + u,
                   bytesUsed := d.bytesUsed + |u|, packOffset := d.bytesUsed + |u|,
                   bytesAllocated := d.bytesUsed + |u|);
      assert CopySpec(d, s, true).after == a;
      assert Packed(a) == Packed(d) + u;
      SliceOfAppend(Packed(d), u, d.unpackOffset);
    }
  }

  /** Dropping a prefix that lies inside `p` commutes with appending. */
  lemma SliceOfAppend(p: seq<byte>, u: seq<byte>, off: nat)
    requires off <= |p|
    ensures (p + u)[off..] == p[off..] + u
  {
  }

  /** A refused or failed copy changes nothing but (when it gets that
      far) the destination's type. */
  lemma CopyFailureKeepsBytes(d: BufState, s: BufState, extendOk: bool)
    requires WellFormed(d) && WellFormed(s)
    requires CopySpec(d, s, extendOk).status != Success
    ensures CopySpec(d, s, extendOk).after == d ||
            CopySpec(d, s, extendOk).after == d.(kind := s.kind)
    ensures CopySpec(d, s, extendOk).status == ErrBuffer <==> d.bytesUsed != 0 && d.kind != s.kind
  {
  }

  /** Copying into an empty buffer and unloading it hands back the source's
      unpacked bytes. */
  lemma CopyThenUnload(s: BufState, defaultKind: BufferType)
    requires WellFormed(s) && |Unpacked(s)| > 0
    ensures var d := CopySpec(Empty(defaultKind), s, true).after;
            WellFormed(d) && UnloadSpec(d, defaultKind).payload == Payload(Some(Unpacked(s)), |Unpacked(s)|)
  {
    var d := CopySpec(Empty(defaultKind), s, true).after;
    assert Packed(d) == Unpacked(s);
    assert Unpacked(d) == Packed(d);
  }

  /** Every operation keeps the bookkeeping well formed. */
  lemma OperationsKeepWellFormed(d: BufState, s: BufState, p: Option<seq<byte>>, extendOk: bool, defaultKind: BufferType)
    requires WellFormed(d) && WellFormed(s)
    ensures WellFormed(UnloadSpec(d, defaultKind).after)
    ensures WellFormed(LoadSpec(p, defaultKind))
    ensures WellFormed(CopySpec(d, s, extendOk).after)
  {
  }

  // ---------------------------------------------------------------------
  // The buffer object and the three operations
  // ---------------------------------------------------------------------

  class Buffer {
    var hasBase: bool
    var region: seq<byte>
    var unpackOffset: nat
    var packOffset: nat
    var bytesUsed: nat
    var bytesAllocated: nat
    var kind: BufferType

    function Abs(): BufState
      reads this
    {
      BufState(hasBase, region, unpackOffset, packOffset, bytesUsed, bytesAllocated, kind)
    }

    predicate Valid()
      reads this
    {
      WellFormed(Abs())
    }

    constructor (defaultKind: BufferType)
      ensures Abs() == Empty(defaultKind)
    {
      hasBase, region, unpackOffset, packOffset, bytesUsed, bytesAllocated, kind :=
        false, [], 0, 0, 0, 0, defaultKind;
    }

    /** PRRTE_DESTRUCT followed by PRRTE_CONSTRUCT. */
    method Reset(defaultKind: BufferType)
      modifies this
      ensures Abs() == Empty(defaultKind)
    {
      hasBase, region, unpackOffset, packOffset, bytesUsed, bytesAllocated, kind :=
        false, [], 0, 0, 0, 0, defaultKind;
    }

    /** prrte_dss_buffer_extend: room for k more bytes past what is used;
        the packed bytes and every cursor stay where they were. */
    method Extend(k: nat)
      requires Valid()
      modifies this`hasBase, this`region, this`bytesAllocated
      ensures Valid() && hasBase
      ensures bytesAllocated == bytesUsed + k
      ensures Packed(Abs()) == old(Packed(Abs()))
    {
      region := region[..bytesUsed] + seq(k, _ => 0 as byte);
      bytesAllocated := bytesUsed + k;
      hasBase := true;
    }
  }

  /** prrte_dss_unload; `payloadGiven` is false when the payload
      destination is NULL. */
  method Unload(buffer: Buffer?, payloadGiven: bool, defaultKind: BufferType) returns (rc: Status, out: Option<Payload>)
    requires buffer != null ==> buffer.Valid()
    modifies buffer
    ensures buffer == null || !payloadGiven ==>
              rc == ErrBadParam && out.None? && (buffer != null ==> buffer.Abs() == old(buffer.Abs()))
    ensures buffer != null && payloadGiven ==>
              && rc == Success
              && out == Some(UnloadSpec(old(buffer.Abs()), defaultKind).payload)
              && buffer.Abs() == UnloadSpec(old(buffer.Abs()), defaultKind).after
  {
    if buffer == null || !payloadGiven {
      return ErrBadParam, None;
    }
    if !buffer.hasBase || buffer.bytesUsed == 0 {
      return Success, Some(Payload(None, 0));
    }
    if buffer.unpackOffset == 0 {
      // hand the whole region over without copying
      out := Some(Payload(Some(buffer.region[..buffer.bytesUsed]), buffer.bytesUsed));
      buffer.hasBase, buffer.bytesUsed := false, 0;
    } else {
      var count := buffer.bytesUsed - buffer.unpackOffset;
      if count == 0 {
        out := Some(Payload(None, 0));
      } else {
        out := Some(Payload(Some(buffer.region[buffer.unpackOffset..buffer.bytesUsed]), count));
      }
    }
    buffer.Reset(defaultKind);
    rc := Success;
  }

  /** prrte_dss_load; `payload` is the n bytes the caller hands over, or
      None for a NULL payload. */
  method Load(buffer: Buffer?, payload: Option<seq<byte>>, n: int, defaultKind: BufferType) returns (rc: Status)
    requires payload.Some? ==> n == |payload.value|
    modifies buffer
    ensures buffer == null ==> rc == ErrBadParam
    ensures buffer != null ==> rc == Success && buffer.Abs() == LoadSpec(payload, defaultKind) && buffer.Valid()
  {
    if buffer == null {
      return ErrBadParam;
    }
    buffer.Reset(defaultKind);
    if payload.None? {
      return Success;
    }
    buffer.hasBase := true;
    buffer.region := payload.value;
    buffer.packOffset := n;
    buffer.unpackOffset := 0;
    buffer.bytesAllocated, buffer.bytesUsed := n, n;
    rc := Success;
  }

  /** prrte_dss_copy_payload; `extendOk` is false when the destination
      cannot be grown. Source and destination may be the same buffer. */
  method CopyPayload(dest: Buffer?, src: Buffer?, extendOk: bool) returns (rc: Status)
    requires dest != null ==> dest.Valid()
    requires src != null ==> src.Valid()
    modifies dest
    ensures dest == null || src == null ==>
              rc == ErrBadParam && (dest != null ==> dest.Abs() == old(dest.Abs()))
    ensures dest != null && src != null ==>
              && CopyResult(rc, dest.Abs()) == CopySpec(old(dest.Abs()), old(src.Abs()), extendOk)
              && dest.Valid()
  {
    if dest == null || src == null {
      return ErrBadParam;
    }
    if dest.bytesUsed != 0 && dest.kind != src.kind {
      return ErrBuffer;
    }
    ghost var d0, s0 := dest.Abs(), src.Abs();
    var suffix := src.region[src.unpackOffset..src.bytesUsed];
    assert suffix == Unpacked(s0);
    dest.kind := src.kind;
    var bytesLeft := |suffix|;
    if bytesLeft == 0 {
      return Success;
    }
    if !extendOk {
      return ErrOutOfResource;
    }
    dest.Extend(bytesLeft);
    dest.region := dest.region[..dest.bytesUsed] + suffix;
    dest.bytesUsed := dest.bytesUsed + bytesLeft;
    dest.packOffset := dest.packOffset + bytesLeft;
    rc := Success;
  }
}
