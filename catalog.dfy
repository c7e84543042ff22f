/** The request-type catalog of the HA master/slave protocol, generation 2.0.1:
    a closed enum whose declaration order is the wire opcode of each entry. */
module Catalog {
  import opened Wire
  import opened Failures

  datatype RequestType =
    | AllocateIds
    | CreateRelationshipType
    | AcquireNodeWriteLock
    | AcquireNodeReadLock
    | AcquireRelationshipWriteLock
    | AcquireRelationshipReadLock
    | Commit
    | PullUpdates
    | Finish
    | Handshake
    | CopyStore
    | PlaceholderForCopyTransactions
    | InitializeTx
    | AcquireGraphWriteLock
    | AcquireGraphReadLock
    | AcquireIndexReadLock
    | AcquireIndexWriteLock
    | PushTransaction
    | CreatePropertyKey
    | CreateLabel
    | AcquireSchemaReadLock
    | AcquireSchemaWriteLock
    | AcquireIndexEntryWriteLock

  /** `values()`: the entries in declaration order, each listed once. */
  function Values(): (r: seq<RequestType>)
    ensures |r| == 23
    ensures forall i, j :: 0 <= i < j < |r| ==> r[i] != r[j]
  {
    [
    AllocateIds, CreateRelationshipType,
    AcquireNodeWriteLock, AcquireNodeReadLock, AcquireRelationshipWriteLock, AcquireRelationshipReadLock,
    Commit, PullUpdates, Finish, Handshake, CopyStore, PlaceholderForCopyTransactions, InitializeTx,
    AcquireGraphWriteLock, AcquireGraphReadLock, AcquireIndexReadLock, AcquireIndexWriteLock,
    PushTransaction, CreatePropertyKey, CreateLabel,
    AcquireSchemaReadLock, AcquireSchemaWriteLock, AcquireIndexEntryWriteLock
    ]
  }

  /** `ordinal()`: the entry's position in the declaration. */
  function Ordinal(t: RequestType): (i: nat)
    ensures i < |Values()| && Values()[i] == t
  {
    match t
    case AllocateIds => 0
    case CreateRelationshipType => 1
    case AcquireNodeWriteLock => 2
    case AcquireNodeReadLock => 3
    case AcquireRelationshipWriteLock => 4
    case AcquireRelationshipReadLock => 5
    case Commit => 6
    case PullUpdates => 7
    case Finish => 8
    case Handshake => 9
    case CopyStore => 10
    case PlaceholderForCopyTransactions => 11
    case InitializeTx => 12
    case AcquireGraphWriteLock => 13
    case AcquireGraphReadLock => 14
    case AcquireIndexReadLock => 15
    case AcquireIndexWriteLock => 16
    case PushTransaction => 17
    case CreatePropertyKey => 18
    case CreateLabel => 19
    case AcquireSchemaReadLock => 20
    case AcquireSchemaWriteLock => 21
    case AcquireIndexEntryWriteLock => 22
  }

  /** `id()`: the ordinal narrowed to a Java byte, the opcode sent on the wire. */
  function Id(t: RequestType): (b: Int8)
    ensures 0 <= b < |Values()| && Values()[b] == t
  {
    ToJavaByte(Ordinal(t))
  }

  lemma {:induction false} OrdinalOfValue(i: nat)
    requires i < |Values()|
    ensures Ordinal(Values()[i]) == i
  {
    var vs := Values();
    var k := Ordinal(vs[i]);
    assert vs[k] == vs[i];
  }

  /** The byte cast never wraps: every opcode equals the entry's position. */
  lemma IdIsOrdinal(t: RequestType)
    ensures Id(t) == Ordinal(t) && 0 <= Id(t) < 23
  {
  }

  /** Distinct entries have distinct opcodes. */
  lemma IdInjective(t: RequestType, u: RequestType)
    requires Id(t) == Id(u)
    ensures t == u
  {
    IdIsOrdinal(t);
    IdIsOrdinal(u);
  }

  /** Read in declaration order, the opcodes are 0, 1, ..., 22: no gaps. */
  lemma {:induction false} IdsAreContiguous(i: int)
    requires 0 <= i < |Values()|
    ensures Id(Values()[i]) == i
  {
    OrdinalOfValue(i);
    IdIsOrdinal(Values()[i]);
  }

  /** `values()[id]` as the receiving side resolves an opcode: the entry with that
      id, or nothing when the byte names no entry of this catalog. */
  function Lookup(id: Int8): (r: Option<RequestType>)
    ensures r.Some? <==> 0 <= id < |Values()|
    ensures r.Some? ==> Id(r.value) == id
  {
    if 0 <= id < |Values()| then
      OrdinalOfValue(id);
      IdIsOrdinal(Values()[id]);
      Some(Values()[id])
    else None
  }

  /** Every opcode resolves back to the entry that sent it. */
  lemma LookupId(t: RequestType)
    ensures Lookup(Id(t)) == Some(t)
  {
    IdIsOrdinal(t);
  }

  /** The ObjectSerializer each entry is declared with. */
  datatype Serializer =
    | IdAllocationSerializer
    | IntegerSerializer
    | LockSerializer
    | LongSerializer
    | VoidSerializer
    | HandshakeSerializer

  function SerializerOf(t: RequestType): (s: Serializer)
    // the two serializers this catalog defines itself, and the long one, serve one entry each
    ensures s == IdAllocationSerializer <==> t == AllocateIds
    ensures s == HandshakeSerializer <==> t == Handshake
    ensures s == LongSerializer <==> t == Commit
  {
    match t
    case AllocateIds => IdAllocationSerializer
    case CreateRelationshipType | CreatePropertyKey | CreateLabel => IntegerSerializer
    case Commit => LongSerializer
    case Handshake => HandshakeSerializer
    case PullUpdates | Finish | CopyStore | PlaceholderForCopyTransactions | InitializeTx
      | PushTransaction => VoidSerializer
    case AcquireNodeWriteLock | AcquireNodeReadLock | AcquireRelationshipWriteLock
      | AcquireRelationshipReadLock | AcquireGraphWriteLock | AcquireGraphReadLock
      | AcquireIndexReadLock | AcquireIndexWriteLock | AcquireSchemaReadLock
      | AcquireSchemaWriteLock | AcquireIndexEntryWriteLock => LockSerializer
  }

  /** The type of value a serializer writes (the T of ObjectSerializer<T>). */
  datatype ResultType =
    | IdAllocationResult
    | IntegerResult
    | LockResultType
    | LongResult
    | VoidResult
    | HandshakeResultType

  function Writes(s: Serializer): ResultType
  {
    match s
    case IdAllocationSerializer => IdAllocationResult
    case IntegerSerializer => IntegerResult
    case LockSerializer => LockResultType
    case LongSerializer => LongResult
    case VoidSerializer => VoidResult
    case HandshakeSerializer => HandshakeResultType
  }

  /** `isLock()`: false unless the entry overrides it. */
  function IsLock(t: RequestType): (r: bool)
    ensures r ==> SerializerOf(t) == LockSerializer
  {
    match t
    case AcquireNodeWriteLock | AcquireNodeReadLock
      | AcquireRelationshipWriteLock | AcquireRelationshipReadLock
      | AcquireGraphWriteLock | AcquireGraphReadLock
      | AcquireIndexReadLock | AcquireIndexWriteLock
      | AcquireSchemaReadLock | AcquireSchemaWriteLock => true
    case _ => false
  }

  /** The lock flag follows the serializer, with one exception: the index-entry
      write lock is declared with the lock serializer but does not override isLock. */
  lemma IsLockFollowsSerializer(t: RequestType)
    ensures IsLock(t) <==> SerializerOf(t) == LockSerializer && t != AcquireIndexEntryWriteLock
  {
  }

  /** Exactly ten opcodes report isLock: 2..5, 13..16, 20 and 21. */
  lemma {:induction false} LockOpcodes(t: RequestType)
    ensures IsLock(t) <==> Id(t) in {2, 3, 4, 5, 13, 14, 15, 16, 20, 21}
  {
    IdIsOrdinal(t);
  }
}
