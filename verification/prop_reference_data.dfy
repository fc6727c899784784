/** `PropReferenceData`: a fixed-size, three-byte handle to one synced prop,
    made of the owning peer's small id and the prop's sync id. Other messages
    carry it in place of the prop's full metadata, so it has to decode
    correctly wherever it sits inside a larger buffer.
 */
module PropReference {
  import opened FusionData

  datatype PropReferenceData = PropReferenceData(smallId: byte, syncId: ushort)

  /** `sizeof(byte) + sizeof(ushort)`. */
  const Size: nat := SizeOfByte + SizeOfUShort

  /** Appends the record to `writer`: the small id, then the sync id. The
      result is the writer followed by exactly `Size` bytes, which is three. */
  function Serialize(writer: seq<byte>, data: PropReferenceData): (r: seq<byte>)
    ensures Size == 3 && |r| == |writer| + Size
    ensures r == writer + [data.smallId] + UInt16Bytes(data.syncId)
  {
    WriteUInt16(WriteByte(writer, data.smallId), data.syncId)
  }

  /** Reads the record at the reader's position: a byte, then a `ushort`.
      It succeeds exactly when `Size` bytes remain; it then consumes exactly
      `Size` bytes, and those bytes are the encoding of what it returns. */
  function Deserialize(reader: Reader): (r: Read<PropReferenceData>)
    ensures r.Read? <==> reader.position + Size <= |reader.buffer|
    ensures r.Read? ==> r.next == Reader(reader.buffer, reader.position + Size)
    ensures r.Read? ==>
      reader.buffer[reader.position .. reader.position + Size] == Serialize([], r.value)
  {
    match ReadByte(reader)
    case Truncated => Truncated
    case Read(smallId, afterSmallId) =>
      match ReadUInt16(afterSmallId)
      case Truncated => Truncated
      case Read(syncId, afterSyncId) =>
        var p := reader.position;
        assert reader.buffer[p .. p + 3]
            == [reader.buffer[p]] + reader.buffer[p + 1 .. p + 3];
        Read(PropReferenceData(smallId, syncId), afterSyncId)
  }

  /** The factory: a record holding exactly the given ids. */
  function Create(smallId: byte, syncId: ushort): (data: PropReferenceData)
    ensures data.smallId == smallId && data.syncId == syncId
  {
    PropReferenceData(smallId, syncId)
  }

  /** Disposing releases nothing the wire format can see: both ids survive. */
  function Dispose(data: PropReferenceData): (r: PropReferenceData)
    ensures r.smallId == data.smallId && r.syncId == data.syncId
  {
    data
  }

  /** Round trip, embedded: a record serialized after any prefix and followed
      by any bytes is read back field for field, and the reader stops right
      before the following bytes. */
  lemma DeserializeSerialize(prefix: seq<byte>, data: PropReferenceData, rest: seq<byte>)
    ensures Deserialize(Reader(Serialize(prefix, data) + rest, |prefix|))
         == Read(data, Reader(Serialize(prefix, data) + rest, |prefix| + Size))
  {
    var buffer := Serialize(prefix, data) + rest;
    var r := Deserialize(Reader(buffer, |prefix|));
    assert buffer[|prefix| .. |prefix| + Size] == Serialize([], data);
    SerializeInjective(r.value, data);
  }

  /** Two records with the same encoding are the same record. */
  lemma SerializeInjective(a: PropReferenceData, b: PropReferenceData)
    requires Serialize([], a) == Serialize([], b)
    ensures a == b
  {
    var ea, eb := Serialize([], a), Serialize([], b);
    assert ea[0] == a.smallId && eb[0] == b.smallId;
    assert ea[1 ..] == UInt16Bytes(a.syncId) && eb[1 ..] == UInt16Bytes(b.syncId);
  }
}
