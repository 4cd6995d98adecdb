/** Reading a FlatBuffer: a table is a buffer and a position in it. Where the Go code would index
    out of range and panic, the result is None. Positions are 32-bit and wrap. */
module Table {
  import opened Bytes
  import opened Common

  const SOFFSET_SIZE: nat := 4
  const UOFFSET_SIZE: nat := 4
  const VOFFSET_SIZE: nat := 2
  const METADATA: nat := 4            // VtableMetadataFields * SizeVOffsetT
  const PREFIX: nat := 4              // sizePrefixLength
  const IDENTIFIER: nat := 4          // fileIdentifierLength

  /** The bytes buf[pos .. pos + n], if they are there. */
  function Cut(buf: seq<byte>, pos: nat, n: nat): Option<seq<byte>> {
    if pos + n <= |buf| then Some(buf[pos..pos + n]) else None
  }

  /** GetUint8/16/32/64, GetVOffsetT and GetUOffsetT on buf[pos..]. */
  function ReadUint(buf: seq<byte>, pos: nat, w: nat): Option<nat> {
    match Cut(buf, pos, w)
    case None => None
    case Some(b) => Some(Get(b))
  }

  function ReadSOffset(buf: seq<byte>, pos: nat): Option<int> {
    match Cut(buf, pos, SOFFSET_SIZE)
    case None => None
    case Some(b) => Some(GetSigned(b))
  }

  /** Table.Offset: the entry at `voffset` of the table's vtable, or 0 beyond the vtable's end. */
  function VtableOffset(buf: seq<byte>, pos: nat, voffset: nat): Option<nat> {
    match ReadSOffset(buf, pos)
    case None => None
    case Some(soff) =>
      var vtable := U32(pos - soff);
      match ReadUint(buf, vtable, VOFFSET_SIZE)
      case None => None
      case Some(len) =>
        if voffset < len then ReadUint(buf, U32(vtable + voffset), VOFFSET_SIZE) else Some(0)
  }

  /** Table.Get*Slot for a scalar of width `w`. */
  function GetSlot(buf: seq<byte>, pos: nat, voffset: nat, w: nat, default: nat): Option<nat> {
    match VtableOffset(buf, pos, voffset)
    case None => None
    case Some(off) => if off == 0 then Some(default) else ReadUint(buf, U32(pos + off), w)
  }

  /** Table.Indirect (and GetIndirectOffset): follow the offset stored at `pos`. */
  function Indirect(buf: seq<byte>, pos: nat): Option<nat> {
    match ReadUint(buf, pos, UOFFSET_SIZE)
    case None => None
    case Some(off) => Some(U32(pos + off))
  }

  /** Table.ByteVector: the bytes of the vector that the offset stored at `pos` refers to. */
  function ByteVector(buf: seq<byte>, pos: nat): Option<seq<byte>> {
    match Indirect(buf, pos)
    case None => None
    case Some(v) =>
      match ReadUint(buf, v, UOFFSET_SIZE)
      case None => None
      case Some(len) => if U32(v + UOFFSET_SIZE) <= U32(v + UOFFSET_SIZE + len) then Cut(buf, U32(v + UOFFSET_SIZE), U32(v + UOFFSET_SIZE + len) - U32(v + UOFFSET_SIZE)) else None
  }

  /** Table.VectorLen: the length of the vector that the table's field at `off` refers to. */
  function VectorLen(buf: seq<byte>, pos: nat, off: nat): Option<nat> {
    match Indirect(buf, U32(pos + off))
    case None => None
    case Some(v) => ReadUint(buf, v, UOFFSET_SIZE)
  }

  /** Table.Vector: where the data of that vector starts. */
  function Vector(buf: seq<byte>, pos: nat, off: nat): Option<nat> {
    match Indirect(buf, U32(pos + off))
    case None => None
    case Some(v) => Some(U32(v + UOFFSET_SIZE))
  }

  /** GetRootAs: the position of the root table. */
  function RootAs(buf: seq<byte>, offset: nat): Option<nat> {
    match ReadUint(buf, offset, UOFFSET_SIZE)
    case None => None
    case Some(n) => Some(U32(n + offset))
  }

  /** GetSizePrefixedRootAs. */
  function SizePrefixedRootAs(buf: seq<byte>, offset: nat): Option<nat> {
    match ReadUint(buf, U32(offset + PREFIX), UOFFSET_SIZE)
    case None => None
    case Some(n) => Some(U32(n + offset + PREFIX))
  }

  /** GetSizePrefix. */
  function SizePrefix(buf: seq<byte>, offset: nat): Option<nat> { ReadUint(buf, offset, UOFFSET_SIZE) }

  /** GetBufferIdentifier. */
  function BufferIdentifier(buf: seq<byte>): Option<seq<byte>> { Cut(buf, UOFFSET_SIZE, IDENTIFIER) }

  /** GetSizePrefixedBufferIdentifier. */
  function SizePrefixedBufferIdentifier(buf: seq<byte>): Option<seq<byte>> { Cut(buf, UOFFSET_SIZE + PREFIX, IDENTIFIER) }
}
