/** The TargetCaller of every catalog entry: what it reads from the request
    buffer and which Master operation it then calls, or what it throws.

    The Master is not modelled: `Invoked(c)` stands for `return master.<c>(...)`,
    whatever Response the master gives back. */
module Callers {
  import opened Wire
  import opened Failures
  import opened Buffers
  import opened Catalog

  /** The calling slave's session, handed on to the master untouched. */
  datatype RequestContext = RequestContext(sessionId: int, machineId: int, epoch: int, lastAppliedTransaction: int)

  /** An IdType, by its position in `IdType.values()`. */
  datatype IdType = IdType(ordinal: nat)

  /** A call on the Master, with the arguments the caller decoded. */
  datatype MasterCall =
    | AllocateIdsCall(context: RequestContext, idType: IdType)
    | CreateRelationshipTypeCall(context: RequestContext, name: string)
    | CreatePropertyKeyCall(context: RequestContext, name: string)
    | CreateLabelCall(context: RequestContext, name: string)
    | PullUpdatesCall(context: RequestContext)
    | FinishTransactionCall(context: RequestContext, success: bool)
    /** handshake(txId, null): the second argument is always null */
    | HandshakeCall(txId: Int64)
    /** copyStore(context, writer): the writer streams to the response buffer */
    | CopyStoreCall(context: RequestContext)
    | InitializeTxCall(context: RequestContext)

  /** The T of the Response<T> each Master operation returns. */
  function Returns(c: MasterCall): ResultType
  {
    match c
    case AllocateIdsCall(_, _) => IdAllocationResult
    case CreateRelationshipTypeCall(_, _) => IntegerResult
    case CreatePropertyKeyCall(_, _) => IntegerResult
    case CreateLabelCall(_, _) => IntegerResult
    case PullUpdatesCall(_) => VoidResult
    case FinishTransactionCall(_, _) => VoidResult
    case HandshakeCall(_) => HandshakeResultType
    case CopyStoreCall(_) => VoidResult
    case InitializeTxCall(_) => VoidResult
  }

  /** The catalog entry whose caller makes this Master call. */
  function Issuer(c: MasterCall): RequestType
  {
    match c
    case AllocateIdsCall(_, _) => AllocateIds
    case CreateRelationshipTypeCall(_, _) => CreateRelationshipType
    case CreatePropertyKeyCall(_, _) => CreatePropertyKey
    case CreateLabelCall(_, _) => CreateLabel
    case PullUpdatesCall(_) => PullUpdates
    case FinishTransactionCall(_, _) => Finish
    case HandshakeCall(_) => Handshake
    case CopyStoreCall(_) => CopyStore
    case InitializeTxCall(_) => InitializeTx
  }

  datatype Outcome =
    | Invoked(call: MasterCall)
    /** COMMIT's `return null` */
    | ReturnedNull
    | Threw(failure: Failure)

  /** What a caller does, and how far it moved the input's read cursor. */
  datatype Called = Called(outcome: Outcome, consumed: nat)

  /** Collaborators defined outside this core: Protocol.readString,
      Protocol.readBoolean and the size of `IdType.values()`. */
  datatype Externals = Externals(
    readString: seq<Byte> -> Decoded<string>,
    readBoolean: seq<Byte> -> Decoded<bool>,
    idTypeCount: nat)
  {
    /** Like every ChannelBuffer read, the decoders never go past the writer index. */
    ghost predicate Valid()
    {
      forall s: seq<Byte> :: readString(s).consumed <= |s| && readBoolean(s).consumed <= |s|
    }
  }

  const OlderClients := ThisShouldNotHappen("Jake", OlderClientsNotAllowed)
  const ObsoletePush := ThisShouldNotHappen("ChrisG", PushingObsolete)
  const NotUsedAnymore := UnsupportedOperation(KeptForOrdinals)

  /** The ids AquireLockCall decodes, or why it stopped, and how far it read. */
  datatype LockIds = LockIds(ids: Result<seq<Int64>>, consumed: nat)

  /** AquireLockCall's decoding: an int count, then that many longs. A negative
      count fails at the array allocation; a short buffer fails at the first long
      that is not there, after the longs that are. */
  function DecodeLockIds(s: seq<Byte>): (d: LockIds)
    ensures d.consumed <= |s|
    ensures d.ids.Ok? ==> d.consumed == 4 + 8 * |d.ids.value|
  {
    if |s| < 4 then LockIds(Err(IndexOutOfBounds), 0)
    else
      var n := IntAt(s, 0);
      if n < 0 then LockIds(Err(NegativeArraySize(n)), 4)
      else if |s| < 4 + 8 * n then LockIds(Err(IndexOutOfBounds), 4 + 8 * ((|s| - 4) / 8))
      else LockIds(Ok(LongsAt(s, 4, n)), 4 + 8 * n)
  }

  /** How a slave writes a lock request's ids: the count, then each id. */
  function EncodeLockIds(ids: LongArray): (r: seq<Byte>)
    ensures |r| == 4 + 8 * |ids|
  {
    EncodeInt(|ids|) + EncodeLongs(ids)
  }

  /** The lock-id decoder reads back exactly the ids written, in order, and
      nothing after them. */
  lemma DecodeEncodeLockIds(ids: LongArray, rest: seq<Byte>)
    ensures DecodeLockIds(EncodeLockIds(ids) + rest) == LockIds(Ok(ids), 4 + 8 * |ids|)
  {
    var s := EncodeLockIds(ids) + rest;
    assert s[0..4] == EncodeInt(|ids|);
    IntRoundTrip(|ids|);
    assert s[4..4 + 8 * |ids|] == EncodeLongs(ids);
    LongsAtEncodeLongs(s, 4, ids);
  }

  /** Conversely, the bytes a successful decoding consumed are the encoding of the ids. */
  lemma EncodeDecodeLockIds(s: seq<Byte>)
    requires DecodeLockIds(s).ids.Ok?
    ensures var d := DecodeLockIds(s);
            |d.ids.value| < 0x8000_0000 && s[..d.consumed] == EncodeLockIds(d.ids.value)
  {
    var n: int := IntAt(s, 0);
    IntBytesRoundTrip(s[0..4]);
    EncodeLongsAtBytes(s, 4, n);
    assert s[..4 + 8 * n] == s[0..4] + s[4..4 + 8 * n];
  }

  /** A zero count is an empty array, not an error. */
  lemma ZeroCountIsEmpty(s: seq<Byte>)
    requires |s| >= 4 && IntAt(s, 0) == 0
    ensures DecodeLockIds(s) == LockIds(Ok([]), 4)
  {
  }

  /** The entries built on AquireLockCall, which decode the ids before rejecting. */
  predicate DecodesLockIds(t: RequestType)
  {
    t in {AcquireNodeWriteLock, AcquireNodeReadLock, AcquireRelationshipWriteLock, AcquireRelationshipReadLock}
  }

  /** The entries whose arguments come from Protocol.readString or readBoolean. */
  predicate UsesProtocolDecoder(t: RequestType)
  {
    t in {CreateRelationshipType, CreatePropertyKey, CreateLabel, Finish}
  }

  /** The entries kept only for their opcode: every lock entry, the copy-transactions
      placeholder and transaction pushing. */
  predicate Retired(t: RequestType)
  {
    SerializerOf(t) == LockSerializer || t == PlaceholderForCopyTransactions || t == PushTransaction
  }

  /** A token entry's caller: `call` applied to the name Protocol.readString decodes. */
  function TokenCall(s: seq<Byte>, ext: Externals, call: string -> MasterCall): (c: Called)
    requires ext.Valid()
    ensures c.consumed <= |s|
  {
    var d := ext.readString(s);
    Called(if d.result.Ok? then Invoked(call(d.result.value)) else Threw(d.result.failure), d.consumed)
  }

  /** TargetCaller.call of entry `t` on a request whose readable bytes are `s`. */
  function CallOf(t: RequestType, ctx: RequestContext, s: seq<Byte>, ext: Externals): (c: Called)
    requires ext.Valid()
    ensures c.consumed <= |s|
    // a retired entry fails whatever the input
    ensures Retired(t) ==> c.outcome.Threw?
    // what reaches the master has the type the entry's serializer writes, and
    // carries the request's context unchanged
    ensures c.outcome.Invoked? ==> Returns(c.outcome.call) == Writes(SerializerOf(t))
    ensures c.outcome.Invoked? ==> c.outcome.call.HandshakeCall? || c.outcome.call.context == ctx
    // each entry calls its own Master operation and no other
    ensures c.outcome.Invoked? ==> Issuer(c.outcome.call) == t
  {
    match t
    case AllocateIds =>
      if |s| < 1 then Called(Threw(IndexOutOfBounds), 0)
      else
        var b := ByteAt(s, 0);
        if 0 <= b < ext.idTypeCount then Called(Invoked(AllocateIdsCall(ctx, IdType(b))), 1)
        else Called(Threw(ArrayIndexOutOfBounds(b)), 1)
    case CreateRelationshipType =>
      TokenCall(s, ext, name => CreateRelationshipTypeCall(ctx, name))
    case CreatePropertyKey =>
      TokenCall(s, ext, name => CreatePropertyKeyCall(ctx, name))
    case CreateLabel =>
      TokenCall(s, ext, name => CreateLabelCall(ctx, name))
    case AcquireNodeWriteLock | AcquireNodeReadLock
      | AcquireRelationshipWriteLock | AcquireRelationshipReadLock =>
      var d := DecodeLockIds(s);
      Called(Threw(if d.ids.Ok? then OlderClients else d.ids.failure), d.consumed)
    case Commit => Called(ReturnedNull, 0)
    case PullUpdates => Called(Invoked(PullUpdatesCall(ctx)), 0)
    case Finish =>
      var d := ext.readBoolean(s);
      Called(if d.result.Ok? then Invoked(FinishTransactionCall(ctx, d.result.value)) else Threw(d.result.failure), d.consumed)
    case Handshake =>
      if |s| < 8 then Called(Threw(IndexOutOfBounds), 0)
      else Called(Invoked(HandshakeCall(LongAt(s, 0))), 8)
    case CopyStore => Called(Invoked(CopyStoreCall(ctx)), 0)
    case PlaceholderForCopyTransactions => Called(Threw(NotUsedAnymore), 0)
    case InitializeTx => Called(Invoked(InitializeTxCall(ctx)), 0)
    case AcquireGraphWriteLock | AcquireGraphReadLock | AcquireIndexReadLock | AcquireIndexWriteLock
      | AcquireSchemaReadLock | AcquireSchemaWriteLock | AcquireIndexEntryWriteLock =>
      Called(Threw(OlderClients), 0)
    case PushTransaction => Called(Threw(ObsoletePush), 0)
  }

  // ---------------------------------------------------------------------------
  // What the catalog's callers promise

  /** Every other entry has some input on which it does not fail. */
  lemma ServedEntriesCanSucceed(t: RequestType, ctx: RequestContext)
    requires !Retired(t)
    ensures exists s: seq<Byte>, ext: Externals :: ext.Valid() && !CallOf(t, ctx, s, ext).outcome.Threw?
  {
    var ext := Externals(s => Decoded(Ok([]), 0), s => Decoded(Ok(true), 0), 1);
    var s: seq<Byte> := [0, 0, 0, 0, 0, 0, 0, 0];
    assert ext.Valid();
    assert !CallOf(t, ctx, s, ext).outcome.Threw?;
  }

  /** The node and relationship lock entries read the whole id array first; they
      reject as an older client exactly when that decoding succeeded, and otherwise
      fail with the decoding error. */
  lemma IdLocksDecodeThenReject(t: RequestType, ctx: RequestContext, s: seq<Byte>, ext: Externals)
    requires ext.Valid() && DecodesLockIds(t)
    ensures var c := CallOf(t, ctx, s, ext);
            var d := DecodeLockIds(s);
            && c.consumed == d.consumed
            && (c.outcome == Threw(OlderClients) <==> d.ids.Ok?)
            && (d.ids.Err? ==> c.outcome == Threw(d.ids.failure))
  {
  }

  /** The graph, index, schema and index-entry lock entries reject as an older
      client without reading anything. */
  lemma OtherLocksRejectUnread(t: RequestType, ctx: RequestContext, s: seq<Byte>, ext: Externals)
    requires ext.Valid() && SerializerOf(t) == LockSerializer && !DecodesLockIds(t)
    ensures CallOf(t, ctx, s, ext) == Called(Threw(OlderClients), 0)
  {
  }

  /** The copy-transactions placeholder fails as unsupported without reading. */
  lemma PlaceholderFailsUnread(ctx: RequestContext, s: seq<Byte>, ext: Externals)
    requires ext.Valid()
    ensures CallOf(PlaceholderForCopyTransactions, ctx, s, ext) == Called(Threw(NotUsedAnymore), 0)
  {
  }

  /** Transaction pushing fails as obsolete without reading. */
  lemma PushTransactionFailsUnread(ctx: RequestContext, s: seq<Byte>, ext: Externals)
    requires ext.Valid()
    ensures CallOf(PushTransaction, ctx, s, ext) == Called(Threw(ObsoletePush), 0)
  {
  }

  /** COMMIT reads nothing and returns null; it does not fail. */
  lemma CommitReturnsNull(ctx: RequestContext, s: seq<Byte>, ext: Externals)
    requires ext.Valid()
    ensures CallOf(Commit, ctx, s, ext) == Called(ReturnedNull, 0)
  {
  }

  /** ALLOCATE_IDS reads one byte and calls allocateIds only when that byte is a
      valid IdType index; a negative or too large byte fails. */
  lemma AllocateIdsReadsOneByte(ctx: RequestContext, s: seq<Byte>, ext: Externals)
    requires ext.Valid() && |s| >= 1
    ensures var c := CallOf(AllocateIds, ctx, s, ext);
            var b := ByteAt(s, 0);
            && c.consumed == 1
            && (c.outcome.Invoked? <==> 0 <= b < ext.idTypeCount)
            && (c.outcome.Invoked? ==> c.outcome.call == AllocateIdsCall(ctx, IdType(b)))
            && (!c.outcome.Invoked? ==> c.outcome == Threw(ArrayIndexOutOfBounds(b)))
  {
  }

  /** HANDSHAKE reads the slave's transaction id and nothing else. */
  lemma HandshakeReadsTxId(ctx: RequestContext, txId: Int64, rest: seq<Byte>, ext: Externals)
    requires ext.Valid()
    ensures CallOf(Handshake, ctx, EncodeLong(txId) + rest, ext) == Called(Invoked(HandshakeCall(txId)), 8)
  {
    var s := EncodeLong(txId) + rest;
    assert s[0..8] == EncodeLong(txId);
    LongRoundTrip(txId);
  }

  /** The three token entries pass the decoded name to their own Master operation;
      a failing readString is rethrown. */
  lemma TokenEntriesPassName(t: RequestType, ctx: RequestContext, s: seq<Byte>, ext: Externals)
    requires ext.Valid() && t in {CreateRelationshipType, CreatePropertyKey, CreateLabel}
    ensures var c := CallOf(t, ctx, s, ext);
            var d := ext.readString(s);
            && c.consumed == d.consumed
            && (d.result.Ok? ==> c.outcome == Invoked(
                 match t
                 case CreateRelationshipType => CreateRelationshipTypeCall(ctx, d.result.value)
                 case CreatePropertyKey => CreatePropertyKeyCall(ctx, d.result.value)
                 case _ => CreateLabelCall(ctx, d.result.value)))
            && (d.result.Err? ==> c.outcome == Threw(d.result.failure))
  {
  }

  /** PULL_UPDATES, COPY_STORE and INITIALIZE_TX read nothing and call their
      operation with the request's context. */
  lemma ContextOnlyEntriesCallMaster(ctx: RequestContext, s: seq<Byte>, ext: Externals)
    requires ext.Valid()
    ensures CallOf(PullUpdates, ctx, s, ext) == Called(Invoked(PullUpdatesCall(ctx)), 0)
    ensures CallOf(CopyStore, ctx, s, ext) == Called(Invoked(CopyStoreCall(ctx)), 0)
    ensures CallOf(InitializeTx, ctx, s, ext) == Called(Invoked(InitializeTxCall(ctx)), 0)
  {
  }

  /** FINISH calls finishTransaction with exactly the flag readBoolean decodes. */
  lemma FinishPassesFlag(ctx: RequestContext, s: seq<Byte>, ext: Externals)
    requires ext.Valid()
    ensures var c := CallOf(Finish, ctx, s, ext);
            var d := ext.readBoolean(s);
            && c.consumed == d.consumed
            && (d.result.Ok? ==> c.outcome == Invoked(FinishTransactionCall(ctx, d.result.value)))
            && (d.result.Err? ==> c.outcome == Threw(d.result.failure))
  {
  }

  /** A lock request whose count promises more ids than the buffer holds fails
      with the framing error and never reaches the lock call. */
  lemma TruncatedLockIds(s: seq<Byte>)
    requires |s| >= 4 && 0 <= IntAt(s, 0) && |s| < 4 + 8 * IntAt(s, 0)
    ensures DecodeLockIds(s).ids == Err(IndexOutOfBounds)
  {
  }

  /** A request cut short before its fixed-layout arguments fails with the
      framing error having consumed nothing. */
  lemma TruncatedRequestsFail(t: RequestType, ctx: RequestContext, s: seq<Byte>, ext: Externals)
    requires ext.Valid()
    requires (t == AllocateIds && |s| < 1) || (t == Handshake && |s| < 8) || (DecodesLockIds(t) && |s| < 4)
    ensures CallOf(t, ctx, s, ext) == Called(Threw(IndexOutOfBounds), 0)
  {
  }

  /** A node write lock on ids 5, 9 and 42 reads all three, in order, and is
      then rejected as coming from an older client. */
  lemma NodeWriteLockScenario(ctx: RequestContext, ext: Externals)
    requires ext.Valid()
    ensures var s := EncodeLockIds([5, 9, 42]);
            && DecodeLockIds(s).ids == Ok([5, 9, 42])
            && CallOf(AcquireNodeWriteLock, ctx, s, ext) == Called(Threw(OlderClients), 28)
  {
    var ids: LongArray := [5, 9, 42];
    DecodeEncodeLockIds(ids, []);
    assert EncodeLockIds(ids) + [] == EncodeLockIds(ids);
  }

  lemma LongsAtPrefix(s: seq<Byte>, rest: seq<Byte>, start: nat, n: nat)
    requires start + 8 * n <= |s|
    ensures LongsAt(s + rest, start, n) == LongsAt(s, start, n)
  {
    forall j | 0 <= j < n
      ensures LongsAt(s + rest, start, n)[j] == LongsAt(s, start, n)[j]
    {
      LongsAtIndex(s + rest, start, n, j);
      LongsAtIndex(s, start, n, j);
      assert (s + rest)[start + 8 * j..start + 8 * j + 8] == s[start + 8 * j..start + 8 * j + 8];
    }
  }

  /** The lock-id decoder stops at the end of its array: unless the request was
      truncated, bytes after the ids change neither the ids nor what is consumed. */
  lemma DecodeLockIdsPrefix(s: seq<Byte>, rest: seq<Byte>)
    requires DecodeLockIds(s).ids != Err(IndexOutOfBounds)
    ensures DecodeLockIds(s + rest) == DecodeLockIds(s)
  {
    assert (s + rest)[0..4] == s[0..4];
    var n := IntAt(s, 0);
    if n >= 0 {
      LongsAtPrefix(s, rest, 4, n);
    }
  }

  /** A caller reads a fixed-layout prefix and never looks past it: once the
      request is not truncated, trailing bytes change nothing. */
  lemma {:induction false} TrailingBytesIgnored(t: RequestType, ctx: RequestContext, s: seq<Byte>, rest: seq<Byte>, ext: Externals)
    requires ext.Valid() && !UsesProtocolDecoder(t)
    requires CallOf(t, ctx, s, ext).outcome != Threw(IndexOutOfBounds)
    ensures CallOf(t, ctx, s + rest, ext) == CallOf(t, ctx, s, ext)
  {
    match t
    case AllocateIds =>
      assert (s + rest)[0] == s[0];
    case Handshake =>
      assert (s + rest)[0..8] == s[0..8];
    case AcquireNodeWriteLock | AcquireNodeReadLock
      | AcquireRelationshipWriteLock | AcquireRelationshipReadLock =>
      DecodeLockIdsPrefix(s, rest);
    case _ =>
  }

  // ---------------------------------------------------------------------------
  // The callers as they run against a ChannelBuffer

  /** AquireLockCall.call's decoding loop: allocate `long[readInt()]` and fill it
      with one readLong per element. */
  method ReadLockIds(input: ChannelBuffer) returns (r: Result<seq<Int64>>)
    requires input.Valid()
    modifies input`readerIndex
    ensures input.Valid()
    ensures r == DecodeLockIds(old(input.Readable())).ids
    ensures input.readerIndex == old(input.readerIndex) + DecodeLockIds(old(input.Readable())).consumed
  {
    ghost var s := input.Readable();
    ghost var start := input.readerIndex;
    var count := input.ReadInt();
    if count.Err? {
      return Err(count.failure);
    }
    var n := count.value;
    if n < 0 {
      return Err(NegativeArraySize(n));
    }
    var ids := new Int64[n];
    for i := 0 to n
      invariant input.Valid() && input.data == old(input.data)
      invariant input.readerIndex == start + 4 + 8 * i
      invariant 4 + 8 * i <= |s|
      invariant input.Readable() == s[4 + 8 * i..]
      invariant ids[..i] == LongsAt(s, 4, i)
    {
      ghost var before := input.Readable();
      var x := input.ReadLong();
      if x.Err? {
        assert (|s| - 4) / 8 == i;
        return Err(x.failure);
      }
      assert before[0..8] == s[4 + 8 * i..4 + 8 * i + 8];
      ids[i] := x.value;
      assert ids[..i + 1] == ids[..i] + [x.value];
      LongsAtIndex(s, 4, i + 1, i);
      assert LongsAt(s, 4, i + 1) == LongsAt(s, 4, i) + [LongAt(s, 4 + 8 * i)];
    }
    assert ids[..] == ids[..n];
    r := Ok(ids[..]);
  }

  /** TargetCaller.call of entry `t`, consuming its arguments from `input`. */
  method Call(t: RequestType, ctx: RequestContext, input: ChannelBuffer, ext: Externals) returns (o: Outcome)
    requires input.Valid() && ext.Valid()
    modifies input`readerIndex
    ensures input.Valid()
    ensures o == CallOf(t, ctx, old(input.Readable()), ext).outcome
    ensures input.readerIndex == old(input.readerIndex) + CallOf(t, ctx, old(input.Readable()), ext).consumed
  {
    match t
    case AllocateIds =>
      var b := input.ReadByte();
      if b.Err? {
        return Threw(b.failure);
      }
      if 0 <= b.value < ext.idTypeCount {
        o := Invoked(AllocateIdsCall(ctx, IdType(b.value)));
      } else {
        o := Threw(ArrayIndexOutOfBounds(b.value));
      }
    case CreateRelationshipType =>
      var name := input.ReadWith(ext.readString);
      o := if name.Ok? then Invoked(CreateRelationshipTypeCall(ctx, name.value)) else Threw(name.failure);
    case CreatePropertyKey =>
      var name := input.ReadWith(ext.readString);
      o := if name.Ok? then Invoked(CreatePropertyKeyCall(ctx, name.value)) else Threw(name.failure);
    case CreateLabel =>
      var name := input.ReadWith(ext.readString);
      o := if name.Ok? then Invoked(CreateLabelCall(ctx, name.value)) else Threw(name.failure);
    case AcquireNodeWriteLock | AcquireNodeReadLock
      | AcquireRelationshipWriteLock | AcquireRelationshipReadLock =>
      var ids := ReadLockIds(input);
      // lock(master, context, ids) throws for every id array
      o := Threw(if ids.Ok? then OlderClients else ids.failure);
    case Commit =>
      o := ReturnedNull;
    case PullUpdates =>
      o := Invoked(PullUpdatesCall(ctx));
    case Finish =>
      var success := input.ReadWith(ext.readBoolean);
      o := if success.Ok? then Invoked(FinishTransactionCall(ctx, success.value)) else Threw(success.failure);
    case Handshake =>
      var txId := input.ReadLong();
      o := if txId.Ok? then Invoked(HandshakeCall(txId.value)) else Threw(txId.failure);
    case CopyStore =>
      o := Invoked(CopyStoreCall(ctx));
    case PlaceholderForCopyTransactions =>
      o := Threw(NotUsedAnymore);
    case InitializeTx =>
      o := Invoked(InitializeTxCall(ctx));
    case AcquireGraphWriteLock | AcquireGraphReadLock | AcquireIndexReadLock | AcquireIndexWriteLock
      | AcquireSchemaReadLock | AcquireSchemaWriteLock | AcquireIndexEntryWriteLock =>
      o := Threw(OlderClients);
    case PushTransaction =>
      o := Threw(ObsoletePush);
  }
}
