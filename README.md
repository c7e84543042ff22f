# HA request-type catalog, protocol generation 2.0.1

A Dafny model of `HaRequestType201`, the catalog of requests a slave sends to
the master in Neo4j's HA master/slave protocol, generation 2.0.1. The catalog
is a closed enum of 23 entries. Each entry has four parts:

- a `TargetCaller` that decodes arguments from the request's `ChannelBuffer`
  and calls the `Master`;
- an `ObjectSerializer` that writes the result;
- a wire id, which is the entry's ordinal cast to a Java byte;
- an `isLock` flag.

Modules:

- `Wire` (wire.dfy): Java `byte`/`int`/`long` as bounded integers. Ints and
  longs are written big-endian in two's complement, the `ChannelBuffer`
  default. The file also holds the `(byte)` narrowing cast and readers for
  ints and longs at an offset. Both round trips are proved.
- `Failures` (failures.dfy): what a caller throws, as a datatype, plus
  `Result` and `Option`.
- `Buffers` (buffers.dfy): `ChannelBuffer` as a class. It holds the bytes
  written so far and a reader index. Reads advance the index, or fail with
  `IndexOutOfBounds` and leave it where it was. Writes append.
- `Catalog` (catalog.dfy): the 23 entries in declaration order, `ordinal()`,
  `id()`, resolving an id back to its entry, `isLock()` and each entry's
  serializer.
- `Serializers` (serializers.dfy): the ALLOCATE_IDS and HANDSHAKE serializers.
  Each has a specification function, a method writing to a `ChannelBuffer`
  (for ALLOCATE_IDS a loop over the defrag ids), and a reference decoder with
  round trips in both directions.
- `Callers` (callers.dfy): every entry's `TargetCaller.call`.
  - `CallOf` is the pure specification: what the caller reads, and which
    Master call it makes or what it throws.
  - `Call` runs it against a `ChannelBuffer`.
  - `ReadLockIds` is `AquireLockCall`'s decoding loop over a `long[]`.

The Master is an external collaborator. A caller's outcome
`Invoked(c)` stands for `return master.c(...)` with the decoded arguments,
whatever Response the master then gives.

Where the code and a uniform reading of the protocol differ, the model follows
the code:

- Ten entries report `isLock() == true`, not every lock entry:
  `ACQUIRE_INDEX_ENTRY_WRITE_LOCK` does not override `isLock`.
- Only the four node/relationship lock entries decode an id array. The graph,
  index, schema and index-entry lock entries throw without reading.
- `PUSH_TRANSACTION` throws `ThisShouldNotHappenError` ("obsolete"), not
  `UnsupportedOperationException`. Only the copy-transactions placeholder
  throws the latter.
- `COMMIT` reads nothing and returns `null`. It does not fail.

## Model

| member | source | states |
|---|---|---|
| `Failures.TextInjective` | enterprise/ha/src/main/java/org/neo4j/kernel/ha/HaRequestType201.java:96-358 | the three exception messages differ, so naming a message determines its wording |
| `Wire.ToJavaByte` | enterprise/ha/src/main/java/org/neo4j/kernel/ha/HaRequestType201.java:455-459 | the `(byte)` cast keeps the value modulo 256 |
| `Wire.ByteAt` | enterprise/ha/src/main/java/org/neo4j/kernel/ha/HaRequestType201.java:57 | `readByte` yields the signed byte whose low eight bits are the octet read |
| `Wire.LongsAtEncodeLongs` | enterprise/ha/src/main/java/org/neo4j/kernel/ha/HaRequestType201.java:472-476 | longs written one after another are read back in the same order, wherever they sit in the buffer |
| `Wire.EncodeLongsAtBytes` | enterprise/ha/src/main/java/org/neo4j/kernel/ha/HaRequestType201.java:66-70 | `n` longs read from an offset re-encode to exactly the bytes they were read from |
| `Buffers.ChannelBuffer.ReadByte` | enterprise/ha/src/main/java/org/neo4j/kernel/ha/HaRequestType201.java:57 | reads one signed byte and advances by one; on an empty buffer fails with IndexOutOfBounds and does not move |
| `Buffers.ChannelBuffer.ReadInt` | enterprise/ha/src/main/java/org/neo4j/kernel/ha/HaRequestType201.java:472 | reads a big-endian int and advances by four, or fails without moving when fewer than four bytes remain |
| `Buffers.ChannelBuffer.ReadLong` | enterprise/ha/src/main/java/org/neo4j/kernel/ha/HaRequestType201.java:475 | reads a big-endian long and advances by eight, or fails without moving when fewer than eight bytes remain |
| `Buffers.ChannelBuffer.ReadWith` | enterprise/ha/src/main/java/org/neo4j/kernel/ha/HaRequestType201.java:86 | an external decoder (readString, readBoolean) gets the readable bytes; the cursor moves past what it consumed |
| `Buffers.ChannelBuffer.WriteInt` | enterprise/ha/src/main/java/org/neo4j/kernel/ha/HaRequestType201.java:66 | appends the four-byte encoding and changes nothing else |
| `Buffers.ChannelBuffer.WriteLong` | enterprise/ha/src/main/java/org/neo4j/kernel/ha/HaRequestType201.java:69 | appends the eight-byte encoding and changes nothing else |
| `Catalog.Ordinal` | enterprise/ha/src/main/java/org/neo4j/kernel/ha/HaRequestType201.java:51-429 | every entry's ordinal is its position in the declaration: `Values[Ordinal(t)] == t` |
| `Catalog.Values` | enterprise/ha/src/main/java/org/neo4j/kernel/ha/HaRequestType201.java:51-429 | `values()` lists 23 entries, none twice; with `Ordinal` every entry is listed |
| `Catalog.OrdinalOfValue` | enterprise/ha/src/main/java/org/neo4j/kernel/ha/HaRequestType201.java:51-429 | the entry at position `i` has ordinal `i`, so ordinal and position are inverse |
| `Catalog.Id` | enterprise/ha/src/main/java/org/neo4j/kernel/ha/HaRequestType201.java:455-459 | `id()` is an index into `values()` at which the entry itself sits |
| `Catalog.IdIsOrdinal` | enterprise/ha/src/main/java/org/neo4j/kernel/ha/HaRequestType201.java:455-459 | the byte cast never wraps: `id()` equals the ordinal and lies in 0..22 |
| `Catalog.IdInjective` | enterprise/ha/src/main/java/org/neo4j/kernel/ha/HaRequestType201.java:455-459 | two entries with the same id are the same entry |
| `Catalog.IdsAreContiguous` | enterprise/ha/src/main/java/org/neo4j/kernel/ha/HaRequestType201.java:455-459 | in declaration order the ids are 0, 1, ..., 22, with no gaps |
| `Catalog.Lookup` | enterprise/ha/src/main/java/org/neo4j/kernel/ha/HaRequestType201.java:455-459 | resolving a byte finds an entry exactly when the byte is in 0..22, and that entry has this id |
| `Catalog.LookupId` | enterprise/ha/src/main/java/org/neo4j/kernel/ha/HaRequestType201.java:455-459 | every entry's id resolves back to that entry |
| `Catalog.SerializerOf` | enterprise/ha/src/main/java/org/neo4j/kernel/ha/HaRequestType201.java:443-447 | each entry's serializer; the IdAllocation, Handshake and long serializers each serve exactly one entry (ALLOCATE_IDS, HANDSHAKE, COMMIT) |
| `Catalog.IsLock` | enterprise/ha/src/main/java/org/neo4j/kernel/ha/HaRequestType201.java:461-464 | `isLock()`: only entries declared with the lock serializer report it |
| `Catalog.IsLockFollowsSerializer` | enterprise/ha/src/main/java/org/neo4j/kernel/ha/HaRequestType201.java:421-429 | `isLock()` holds exactly for the entries with the lock serializer other than ACQUIRE_INDEX_ENTRY_WRITE_LOCK |
| `Catalog.LockOpcodes` | enterprise/ha/src/main/java/org/neo4j/kernel/ha/HaRequestType201.java:461-464 | `isLock()` holds exactly for ids 2-5, 13-16, 20 and 21, and is false for every other entry |
| `Serializers.EncodeIdAllocation` | enterprise/ha/src/main/java/org/neo4j/kernel/ha/HaRequestType201.java:60-76 | the ALLOCATE_IDS output is 32 + 8k bytes for k defrag ids |
| `Serializers.EncodeIdAllocationLayout` | enterprise/ha/src/main/java/org/neo4j/kernel/ha/HaRequestType201.java:65-74 | the fields sit in the written order: count, defrag ids, range start, range length, highest id in use, defrag count |
| `Serializers.DecodeEncodeIdAllocation` | enterprise/ha/src/main/java/org/neo4j/kernel/ha/HaRequestType201.java:60-76 | a decoder reading the same fields recovers the whole IdAllocation and stops after the 32 + 8k bytes written |
| `Serializers.EncodeDecodeIdAllocation` | enterprise/ha/src/main/java/org/neo4j/kernel/ha/HaRequestType201.java:60-76 | whatever that decoder accepts is exactly the serializer's output for the value decoded |
| `Serializers.WriteIdAllocation` | enterprise/ha/src/main/java/org/neo4j/kernel/ha/HaRequestType201.java:63-75 | the serializer's loop appends exactly `EncodeIdAllocation` to the buffer |
| `Serializers.EncodeHandshake` | enterprise/ha/src/main/java/org/neo4j/kernel/ha/HaRequestType201.java:229-238 | the HANDSHAKE output is 20 bytes |
| `Serializers.DecodeEncodeHandshake` | enterprise/ha/src/main/java/org/neo4j/kernel/ha/HaRequestType201.java:232-237 | author, checksum and epoch are read back from the 20 bytes written |
| `Serializers.EncodeDecodeHandshake` | enterprise/ha/src/main/java/org/neo4j/kernel/ha/HaRequestType201.java:232-237 | 20 accepted bytes are exactly the encoding of the result decoded from them |
| `Serializers.HandshakeBytes` | enterprise/ha/src/main/java/org/neo4j/kernel/ha/HaRequestType201.java:234-236 | author 3, checksum 999, epoch 2 encode to a 4-byte int 3 followed by the longs 999 and 2, most significant byte first |
| `Serializers.WriteHandshake` | enterprise/ha/src/main/java/org/neo4j/kernel/ha/HaRequestType201.java:232-237 | the serializer appends exactly `EncodeHandshake` to the buffer |
| `Callers.DecodeLockIds` | enterprise/ha/src/main/java/org/neo4j/kernel/ha/HaRequestType201.java:472-476 | a decoded id array of n ids consumed exactly 4 + 8n bytes, and nothing past the readable bytes is ever consumed |
| `Callers.EncodeLockIds` | enterprise/ha/src/main/java/org/neo4j/kernel/ha/HaRequestType201.java:472-476 | the request layout the lock decoder expects takes 4 + 8n bytes |
| `Callers.DecodeEncodeLockIds` | enterprise/ha/src/main/java/org/neo4j/kernel/ha/HaRequestType201.java:472-476 | an encoded id array decodes to the same ids in the same order, consuming 4 + 8n bytes whatever follows |
| `Callers.EncodeDecodeLockIds` | enterprise/ha/src/main/java/org/neo4j/kernel/ha/HaRequestType201.java:472-476 | the bytes a successful decoding consumed are the encoding of the ids it produced |
| `Callers.ZeroCountIsEmpty` | enterprise/ha/src/main/java/org/neo4j/kernel/ha/HaRequestType201.java:472 | a zero count gives an empty id array, not an error, after four bytes |
| `Callers.TruncatedLockIds` | enterprise/ha/src/main/java/org/neo4j/kernel/ha/HaRequestType201.java:472-476 | a count promising more ids than the buffer holds fails with the framing error, so the lock call is never reached |
| `Callers.DecodeLockIdsPrefix` | enterprise/ha/src/main/java/org/neo4j/kernel/ha/HaRequestType201.java:472-476 | unless the request was truncated, bytes after the id array change neither the ids nor what is consumed |
| `Callers.ReadLockIds` | enterprise/ha/src/main/java/org/neo4j/kernel/ha/HaRequestType201.java:469-478 | the allocate-and-fill loop returns `DecodeLockIds` of the readable bytes and advances the cursor by what it consumed, on failure too |
| `Callers.CallOf` | enterprise/ha/src/main/java/org/neo4j/kernel/ha/HaRequestType201.java:51-429 | a retired entry fails on every input; whatever reaches the master is the entry's own operation (`Issuer` of the call is the entry), of the type the entry's serializer writes, with the request context passed on unchanged; nothing past the readable bytes is consumed |
| `Callers.ServedEntriesCanSucceed` | enterprise/ha/src/main/java/org/neo4j/kernel/ha/HaRequestType201.java:51-429 | every entry that is not retired has an input on which it does not fail, the converse of the retired entries failing always |
| `Callers.IdLocksDecodeThenReject` | enterprise/ha/src/main/java/org/neo4j/kernel/ha/HaRequestType201.java:91-156 | the node/relationship lock entries consume what the id decoding consumes; they throw the older-clients error exactly when the decoding succeeds, and the decoding error otherwise |
| `Callers.OtherLocksRejectUnread` | enterprise/ha/src/main/java/org/neo4j/kernel/ha/HaRequestType201.java:277-429 | the graph, index, schema and index-entry lock entries throw the older-clients error and read nothing |
| `Callers.PlaceholderFailsUnread` | enterprise/ha/src/main/java/org/neo4j/kernel/ha/HaRequestType201.java:254-263 | PLACEHOLDER_FOR_COPY_TRANSACTIONS throws UnsupportedOperation and reads nothing |
| `Callers.PushTransactionFailsUnread` | enterprise/ha/src/main/java/org/neo4j/kernel/ha/HaRequestType201.java:351-360 | PUSH_TRANSACTION throws the "obsolete" error and reads nothing |
| `Callers.CommitReturnsNull` | enterprise/ha/src/main/java/org/neo4j/kernel/ha/HaRequestType201.java:159-196 | COMMIT reads nothing and returns null without failing |
| `Callers.AllocateIdsReadsOneByte` | enterprise/ha/src/main/java/org/neo4j/kernel/ha/HaRequestType201.java:54-59 | ALLOCATE_IDS consumes one byte; it calls `allocateIds` with that IdType exactly when the byte indexes `IdType.values()`, and otherwise (negative included) throws ArrayIndexOutOfBounds |
| `Callers.HandshakeReadsTxId` | enterprise/ha/src/main/java/org/neo4j/kernel/ha/HaRequestType201.java:224-228 | a request carrying txId leads to `handshake(txId, null)` after exactly eight bytes |
| `Callers.TokenEntriesPassName` | enterprise/ha/src/main/java/org/neo4j/kernel/ha/HaRequestType201.java:80-88 | CREATE_RELATIONSHIP_TYPE, and likewise CREATE_PROPERTY_KEY and CREATE_LABEL at lines 363-382, call `createRelationshipType`, `createPropertyKey`, `createLabel` respectively with the request's context and the name readString decodes, consuming what readString consumed; a readString failure is rethrown |
| `Callers.ContextOnlyEntriesCallMaster` | enterprise/ha/src/main/java/org/neo4j/kernel/ha/HaRequestType201.java:199-274 | PULL_UPDATES, COPY_STORE and INITIALIZE_TX read nothing and call `pullUpdates`, `copyStore`, `initializeTx` with the request's context |
| `Callers.FinishPassesFlag` | enterprise/ha/src/main/java/org/neo4j/kernel/ha/HaRequestType201.java:210-218 | FINISH calls `finishTransaction(context, b)` with exactly the flag `b` readBoolean decodes, consuming what it consumed; a readBoolean failure is rethrown |
| `Callers.TruncatedRequestsFail` | enterprise/ha/src/main/java/org/neo4j/kernel/ha/HaRequestType201.java:51-239 | ALLOCATE_IDS with no byte, HANDSHAKE with fewer than 8 bytes and the id-lock entries with fewer than 4 bytes fail with the framing error and consume nothing |
| `Callers.NodeWriteLockScenario` | enterprise/ha/src/main/java/org/neo4j/kernel/ha/HaRequestType201.java:91-98 | ids 5, 9, 42 decode in that order and the request is then rejected as an older client after 28 bytes |
| `Callers.TrailingBytesIgnored` | enterprise/ha/src/main/java/org/neo4j/kernel/ha/HaRequestType201.java:51-429 | an entry that does not use readString or readBoolean reads only fixed-layout arguments: once the request is not truncated, bytes appended after it change neither the outcome nor what is consumed |
| `Callers.Call` | enterprise/ha/src/main/java/org/neo4j/kernel/ha/HaRequestType201.java:51-429 | running an entry's caller on a buffer gives `CallOf`'s outcome and moves the reader index by exactly what `CallOf` consumes |

## Left out

- The Master's operations (`allocateIds`, `createRelationshipType`, `createPropertyKey`, `createLabel`, `pullUpdates`, `finishTransaction`, `handshake`, `copyStore`, `initializeTx`) are foreign calls. A caller's outcome names the call and its arguments, and the master's Response is not modelled.
- `Protocol.readString`, `Protocol.readBoolean` and `IdType` are defined outside this core. The two decoders are parameters (`Externals`), which may only consume readable bytes. The size of `IdType.values()` is a parameter too.
- The INTEGER, LONG, VOID and LOCK serializers are defined outside this core. The model records which one each entry uses, but not their byte layout.
- Response-envelope serialization and the server's request dispatch loop are not part of this model. `Catalog.Lookup` stands for resolving an opcode to its entry.
- COPY_STORE's `ToNetworkStoreWriter` streams the store to the response buffer. It is network I/O and is left out, along with `Monitors`.
- The disabled COMMIT transaction-stream decoding is not modelled. What becomes of COMMIT's `null` response after the caller returns is outside this core.
- `Callers.ReadLockIds`: a very large count makes Java allocate a huge array before the reads fail. The model reaches the same IndexOutOfBounds failure and does not model running out of heap.
- Concurrency across connections, timeouts and Netty's buffer internals (capacity, growth, the marked index) are left out.
- Netty's byte order is taken to be its big-endian default.
- Error messages are named values (`Failures.Message`), and `Failures.Text` gives their wording. Comparing messages is comparing names.
