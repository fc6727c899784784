/** The entity-unqueue response: the authoritative peer's answer to a
    client's queued entity, binding the client's temporary queued id to the
    entity id the server allocated. It is a fixed-size, four-byte record, and
    its handler is client-only.
 */
module EntityUnqueueResponse {
  import opened FusionData

  datatype EntityUnqueueResponseData = EntityUnqueueResponseData(queuedId: ushort, allocatedId: ushort)

  /** `sizeof(ushort) * 2`. */
  const Size: nat := SizeOfUShort * 2

  /** Appends the record to `writer`: the queued id, then the allocated id.
      The result is the writer followed by exactly `Size` bytes, which is four. */
  function Serialize(writer: seq<byte>, data: EntityUnqueueResponseData): (r: seq<byte>)
    ensures Size == 4 && |r| == |writer| + Size
    ensures r == writer + UInt16Bytes(data.queuedId) + UInt16Bytes(data.allocatedId)
  {
    WriteUInt16(WriteUInt16(writer, data.queuedId), data.allocatedId)
  }

  /** Reads the record at the reader's position: two `ushort`s. It succeeds
      exactly when `Size` bytes remain; it then consumes exactly `Size` bytes,
      and those bytes are the encoding of what it returns. */
  function Deserialize(reader: Reader): (r: Read<EntityUnqueueResponseData>)
    ensures r.Read? <==> reader.position + Size <= |reader.buffer|
    ensures r.Read? ==> r.next == Reader(reader.buffer, reader.position + Size)
    ensures r.Read? ==>
      reader.buffer[reader.position .. reader.position + Size] == Serialize([], r.value)
  {
    match ReadUInt16(reader)
    case Truncated => Truncated
    case Read(queuedId, afterQueuedId) =>
      match ReadUInt16(afterQueuedId)
      case Truncated => Truncated
      case Read(allocatedId, afterAllocatedId) =>
        var p := reader.position;
        assert reader.buffer[p .. p + 4]
            == reader.buffer[p .. p + 2] + reader.buffer[p + 2 .. p + 4];
        Read(EntityUnqueueResponseData(queuedId, allocatedId), afterAllocatedId)
  }

  /** The factory: a record holding exactly the given ids. */
  function Create(queuedId: ushort, allocatedId: ushort): (data: EntityUnqueueResponseData)
    ensures data.queuedId == queuedId && data.allocatedId == allocatedId
  {
    EntityUnqueueResponseData(queuedId, allocatedId)
  }

  /** Two records with the same encoding are the same record. */
  lemma SerializeInjective(a: EntityUnqueueResponseData, b: EntityUnqueueResponseData)
    requires Serialize([], a) == Serialize([], b)
    ensures a == b
  {
    var ea, eb := Serialize([], a), Serialize([], b);
    assert ea[..2] == UInt16Bytes(a.queuedId) && eb[..2] == UInt16Bytes(b.queuedId);
    assert ea[2..] == UInt16Bytes(a.allocatedId) && eb[2..] == UInt16Bytes(b.allocatedId);
  }

  /** Round trip, embedded: a record serialized after any prefix and followed
      by any bytes is read back field for field, and the reader stops right
      before the following bytes. */
  lemma DeserializeSerialize(prefix: seq<byte>, data: EntityUnqueueResponseData, rest: seq<byte>)
    ensures Deserialize(Reader(Serialize(prefix, data) + rest, |prefix|))
         == Read(data, Reader(Serialize(prefix, data) + rest, |prefix| + Size))
  {
    var buffer := Serialize(prefix, data) + rest;
    var r := Deserialize(Reader(buffer, |prefix|));
    assert buffer[|prefix| .. |prefix| + Size] == Serialize([], data);
    SerializeInjective(r.value, data);
  }

  // ---------------------------------------------------------------------
  // The message handler.
  // ---------------------------------------------------------------------

  /** What handling one payload amounts to.
      - `RoleViolation`: the handler ran in the server role and threw its
        expected-client fault before reading anything.
      - `Malformed`: the payload ended before a whole record was read.
      - `Forwarded`: the decoded record's ids went to the id manager's
        unqueue step, queued id first and allocated id second, which answered
        `success`; a `false` answer is recorded, and is not a fault. The call
        is the decoded record itself, since it passes exactly its two fields. */
  datatype HandleResult =
    | RoleViolation
    | Malformed
    | Forwarded(call: EntityUnqueueResponseData, success: bool)

  predicate IsFault(r: HandleResult) {
    r.RoleViolation? || r.Malformed?
  }

  /** Handles one payload. The id manager's unqueue step is not part of this
      model, so its answer is the parameter `unqueue`; the entity it also
      returns is only logged in debug builds and is left out. */
  function HandleMessage(bytes: seq<byte>, isServerHandled: bool, unqueue: EntityUnqueueResponseData -> bool)
    : (r: HandleResult)
    ensures isServerHandled ==> r == RoleViolation
    ensures IsFault(r) <==> isServerHandled || |bytes| < Size
    ensures r.Forwarded? ==>
      && Serialize([], r.call) == bytes[..Size]
      && r.success == unqueue(r.call)
  {
    if isServerHandled then
      RoleViolation
    else
      match Deserialize(Reader(bytes, 0))
      case Truncated => Malformed
      case Read(data, _) =>
        Forwarded(data, unqueue(data))
  }

  /** A client handling an encoded response forwards exactly the encoded ids,
      queued id first, whatever follows the record in the payload and
      whatever the id manager answers. */
  lemma HandleEncodedResponse(queuedId: ushort, allocatedId: ushort, rest: seq<byte>,
                              unqueue: EntityUnqueueResponseData -> bool)
    ensures HandleMessage(Serialize([], Create(queuedId, allocatedId)) + rest, false, unqueue)
         == Forwarded(Create(queuedId, allocatedId), unqueue(Create(queuedId, allocatedId)))
  {
    DeserializeSerialize([], Create(queuedId, allocatedId), rest);
  }
}
