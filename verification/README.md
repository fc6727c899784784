# Entity-sync wire records, unqueue handler and grip-events cache

This project is a Dafny model of three small pieces of a multiplayer entity-sync layer.

- **Fixed-size wire records.** `PropReferenceData` is a 3-byte handle to a synced prop: the owner's 1-byte small id, then the prop's 2-byte sync id. `EntityUnqueueResponseData` is a 4-byte record: the client's 2-byte queued id, then the 2-byte id the server allocated. Each has `Serialize`, `Deserialize`, `Create` and a `Size` constant. They are modelled as pure functions over byte sequences (`fusion_data.dfy`, `prop_reference_data.dfy`, `entity_unqueue_response.dfy`).
- **The client-only unqueue handler** (`EntityUnqueueResponse.HandleMessage`). In the server role it fails before it reads anything. In the client role it decodes the record and passes both ids, unchanged and queued id first, to the id manager's unqueue step. A `false` answer from that step is not a fault.
- **The grip-events cache extender** (`simple_grip_events_extender.dfy`). Registering an entity's component array maps every component to the entity. Unregistering removes every component by key. The cache is a finite map.

A writer is the byte sequence written so far, and writing appends to it. A reader is a buffer plus a position. A read returns the value and the advanced reader, or `Truncated` when too few bytes remain. The writer and reader classes are not part of this model, so their byte order is a choice made here: a `ushort` goes low byte first (`FusionData.UInt16Bytes`).

## Model

| member | source | states |
|---|---|---|
| PropReference.Serialize | Core/src/Network/Data/PropReferenceData.cs:9-18 | `Size` is 3, i.e. one byte plus one `ushort`. The output is the writer followed by exactly `Size` bytes: the small id, then the two bytes of the sync id. |
| PropReference.Deserialize | Core/src/Network/Data/PropReferenceData.cs:20-24 | It succeeds exactly when `Size` bytes remain. On success it consumes exactly `Size` bytes and leaves the buffer unchanged. The bytes it consumed are the encoding of the record it returns. |
| PropReference.DeserializeSerialize | Core/src/Network/Data/PropReferenceData.cs:14-24 | Round trip at any offset: a record serialized after any prefix and followed by any bytes is read back field for field. The reader stops exactly where the following bytes begin. |
| PropReference.SerializeInjective | Core/src/Network/Data/PropReferenceData.cs:14-18 | Two records with the same encoding are equal. |
| PropReference.Create | Core/src/Network/Data/PropReferenceData.cs:31-37 | The record's small id and sync id are exactly the arguments. |
| PropReference.Dispose | Core/src/Network/Data/PropReferenceData.cs:26-29 | Disposing keeps the small id and the sync id. |
| EntityUnqueueResponse.Serialize | LabFusion/src/Network/Messages/Entities/EntityUnqueueResponseMessage.cs:11-20 | `Size` is 4, i.e. two `ushort`s. The output is the writer followed by exactly `Size` bytes: the queued id's two bytes, then the allocated id's two bytes. |
| EntityUnqueueResponse.Deserialize | LabFusion/src/Network/Messages/Entities/EntityUnqueueResponseMessage.cs:22-26 | It succeeds exactly when `Size` bytes remain. On success it consumes exactly `Size` bytes, and those bytes are the encoding of the record it returns. |
| EntityUnqueueResponse.DeserializeSerialize | LabFusion/src/Network/Messages/Entities/EntityUnqueueResponseMessage.cs:16-26 | Round trip at any offset, for every pair of 16-bit ids: both ids come back, and the reader stops exactly after the record. |
| EntityUnqueueResponse.SerializeInjective | LabFusion/src/Network/Messages/Entities/EntityUnqueueResponseMessage.cs:16-20 | Two records with the same encoding are equal. |
| EntityUnqueueResponse.Create | LabFusion/src/Network/Messages/Entities/EntityUnqueueResponseMessage.cs:28-35 | The record's queued id and allocated id are exactly the arguments. |
| EntityUnqueueResponse.HandleMessage | LabFusion/src/Network/Messages/Entities/EntityUnqueueResponseMessage.cs:42-60 | In the server role the result is the role violation, whatever the payload and the id manager. The result is a fault exactly when the role is server or the payload is shorter than `Size`. So the id manager answering `false` is never a fault. When forwarded, the call is the record the payload's first `Size` bytes encode, and the recorded answer is the id manager's answer to that call. |
| EntityUnqueueResponse.HandleEncodedResponse | LabFusion/src/Network/Messages/Entities/EntityUnqueueResponseMessage.cs:45-52 | A client given an encoded response, followed by any bytes, forwards exactly the encoded queued id and allocated id, in that order. |
| SimpleGripEventsExtender.Add | LabFusion/src/Entities/Components/Arrays/SimpleGripEventsExtender.cs:15 | After one add, the component maps to the entity. Every other key keeps its mapping. |
| SimpleGripEventsExtender.Remove | LabFusion/src/Entities/Components/Arrays/SimpleGripEventsExtender.cs:23 | After one remove, the component is no longer a key. Every remaining key keeps its mapping. |
| SimpleGripEventsExtender.OnRegister | LabFusion/src/Entities/Components/Arrays/SimpleGripEventsExtender.cs:11-17 | The keys afterwards are the old keys plus the array's components. Every component in the array maps to the entity. Every old key not in the array keeps its mapping. |
| SimpleGripEventsExtender.OnUnregister | LabFusion/src/Entities/Components/Arrays/SimpleGripEventsExtender.cs:19-25 | The keys afterwards are the old keys minus the array's components. Every remaining key keeps its mapping. |
| SimpleGripEventsExtender.OnRegisterIsOverride | LabFusion/src/Entities/Components/Arrays/SimpleGripEventsExtender.cs:11-17 | The per-element loop equals one map override by the map from each component to the entity. |
| SimpleGripEventsExtender.OnUnregisterIsKeyRemoval | LabFusion/src/Entities/Components/Arrays/SimpleGripEventsExtender.cs:19-25 | The per-element loop equals removing the set of the array's components from the map. |
| SimpleGripEventsExtender.OnUnregisterIgnoresEntity | LabFusion/src/Entities/Components/Arrays/SimpleGripEventsExtender.cs:19-25 | Unregistering matches on component keys only: any two entity arguments give the same cache. |
| SimpleGripEventsExtender.RegisterThenUnregister | LabFusion/src/Entities/Components/Arrays/SimpleGripEventsExtender.cs:11-25 | If no component was a key beforehand, registering and then unregistering the same array restores the original cache. |
| SimpleGripEventsExtender.EmptyArrayLeavesCache | LabFusion/src/Entities/Components/Arrays/SimpleGripEventsExtender.cs:13-24 | With an empty component array, both operations leave the cache unchanged. |
| SimpleGripEventsExtender.OnRegisterAppend | LabFusion/src/Entities/Components/Arrays/SimpleGripEventsExtender.cs:13-16 | Registering `front + back` is the same as registering `front` and then `back`. |
| SimpleGripEventsExtender.OnUnregisterAppend | LabFusion/src/Entities/Components/Arrays/SimpleGripEventsExtender.cs:21-24 | Unregistering `front + back` is the same as unregistering `front` and then `back`. |

## Left out

- The writer and reader classes are not part of this model. Their byte order is chosen here (low byte first).
- FusionData.ReadByte and FusionData.ReadUInt16 do not model the real reader's behaviour on a truncated buffer. Here a short read returns `Truncated`, and the handler reports it as `Malformed`.
- The id manager's unqueue step is not part of this model. It is a parameter of `HandleMessage`: a total function from the call to its success flag. The pending table, the free pool and the allocation algorithm behind it are not modelled. Neither is the entity it also returns, which the handler only logs.
- The handler's debug log, the message tag's numeric value and the handler's registration with the message router are left out. None of them affects the wire format or the decision the handler makes.
- `Dispose` and its finalizer suppression: only the fact that the record's fields survive is modelled.
- SimpleGripEventsExtender.Add: the cache's own `Add` is not part of this model. It is modelled as an update that overwrites an existing key, so no claim is made about a duplicate add in the real cache. The properties above need no distinctness, except that `RegisterThenUnregister` requires the components not to be cached beforehand.
- SimpleGripEventsExtender.Remove: the cache's own `Remove` is not part of this model. It is modelled as a key removal that does nothing when the key is absent. `OnUnregister` relies on that when the array repeats a component or holds one that was never registered.
- The cache is a static field in the source. Here it is an explicit map passed in and returned.
- The player representation (rig construction, pose transforms, velocity from the frame clock, the broadcast of poses) is left out. It is engine object construction, floating-point transforms and transport I/O rather than protocol logic.
