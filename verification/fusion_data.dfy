/** The byte-level writer and reader that every Fusion record is serialized with.

    A writer is the sequence of bytes written so far; writing appends. A reader
    is a buffer plus a read position; reading returns the value and the reader
    advanced past it, or `Truncated` when the buffer ends too early.

    The writer and reader classes themselves are not part of this model, so
    their byte order is a choice made here: a `ushort` is written low byte
    first. That order is fixed in `UInt16Bytes` and in its inverse
    `UInt16Of` (both bodies and both contracts); the records are stated
    against `UInt16Bytes` only, so another byte order would change those two
    functions and nothing else.
 */
module FusionData {

  /** An unsigned 8-bit value (C# `byte`). */
  type byte = x: int | 0 <= x < 0x100

  /** An unsigned 16-bit value (C# `ushort`). */
  type ushort = x: int | 0 <= x < 0x1_0000

  /** `sizeof(byte)` and `sizeof(ushort)` in C#. */
  const SizeOfByte: nat := 1
  const SizeOfUShort: nat := 2

  /** A read position inside a byte buffer. */
  datatype Reader = Reader(buffer: seq<byte>, position: nat)

  /** The outcome of reading one value: the value and the advanced reader,
      or `Truncated` when fewer bytes remain than the value needs. */
  datatype Read<+T> = Read(value: T, next: Reader) | Truncated

  /** The two bytes a `ushort` occupies on the wire, low byte first. */
  function UInt16Bytes(v: ushort): (bs: seq<byte>)
    ensures |bs| == SizeOfUShort
    ensures bs[0] as int + 0x100 * bs[1] as int == v
  {
    [v % 0x100, v / 0x100]
  }

  /** Reassembles a `ushort` from its two wire bytes; the inverse of `UInt16Bytes`. */
  function UInt16Of(lo: byte, hi: byte): (v: ushort)
    ensures UInt16Bytes(v) == [lo, hi]
  {
    lo as int + 0x100 * hi as int
  }

  function WriteByte(writer: seq<byte>, b: byte): (r: seq<byte>)
    ensures |r| == |writer| + SizeOfByte
  {
    writer + [b]
  }

  function WriteUInt16(writer: seq<byte>, v: ushort): (r: seq<byte>)
    ensures |r| == |writer| + SizeOfUShort
  {
    writer + UInt16Bytes(v)
  }

  /** Reads one byte; succeeds exactly when one byte remains, and then
      consumes exactly that byte. */
  function ReadByte(reader: Reader): (r: Read<byte>)
    ensures r.Read? <==> reader.position + SizeOfByte <= |reader.buffer|
    ensures r.Read? ==> r.next == Reader(reader.buffer, reader.position + SizeOfByte)
    ensures r.Read? ==> reader.buffer[reader.position] == r.value
  {
    if reader.position < |reader.buffer| then
      Read(reader.buffer[reader.position], Reader(reader.buffer, reader.position + 1))
    else
      Truncated
  }

  /** Reads one `ushort`; succeeds exactly when two bytes remain, and then
      consumes exactly those two bytes, which are the value's encoding. */
  function ReadUInt16(reader: Reader): (r: Read<ushort>)
    ensures r.Read? <==> reader.position + SizeOfUShort <= |reader.buffer|
    ensures r.Read? ==> r.next == Reader(reader.buffer, reader.position + SizeOfUShort)
    ensures r.Read? ==>
      reader.buffer[reader.position .. reader.position + SizeOfUShort] == UInt16Bytes(r.value)
  {
    var p := reader.position;
    if p + 2 <= |reader.buffer| then
      var v := UInt16Of(reader.buffer[p], reader.buffer[p + 1]);
      assert reader.buffer[p .. p + 2] == [reader.buffer[p], reader.buffer[p + 1]];
      Read(v, Reader(reader.buffer, p + 2))
    else
      Truncated
  }

  /** A `ushort` written anywhere in a stream is read back unchanged, and
      the reader stops right after it. */
  lemma ReadWriteUInt16(writer: seq<byte>, v: ushort, rest: seq<byte>)
    ensures ReadUInt16(Reader(WriteUInt16(writer, v) + rest, |writer|))
         == Read(v, Reader(WriteUInt16(writer, v) + rest, |writer| + SizeOfUShort))
  {
    var buf := WriteUInt16(writer, v) + rest;
    var r := ReadUInt16(Reader(buf, |writer|));
    assert buf[|writer| .. |writer| + 2] == UInt16Bytes(v);
    assert UInt16Bytes(r.value) == UInt16Bytes(v);
  }
}
