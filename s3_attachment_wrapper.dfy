/**
 * Model of app/lib/s3_attachment_wrapper.rb: a wrapper around one object of an
 * S3-compatible store that streams the object to a caller-supplied block, chunk
 * by chunk, unless no block is given or the bucket name or object key is blank.
 *
 * The AWS client is modelled by `ObjectStore`: for each object it knows what a
 * `get` delivers (a `Transfer`), it logs every object it is asked to open, and
 * it hands out the chunks one at a time through a `Download`. The caller's block
 * is a `Sink` that records the chunks it is given and may raise on one of
 * them; "no block given" is a null sink. An exception that escapes, from the
 * store or from the block, is returned as `Some(error)`.
 */
module S3Storage {
  import opened Wrappers

  newtype Byte = b: int | 0 <= b < 256

  type Chunk = seq<Byte>

  /** A failure raised by the object-storage client (transport, auth, missing object). */
  datatype FetchError = FetchError(message: string)

  /** What one `get` of an object delivers: chunks in arrival order, then either
      the end of the object (`failure == None`) or an error. */
  datatype Transfer = Transfer(chunks: seq<Chunk>, failure: Option<FetchError>)

  /** The address of one object: `Aws::S3::Object.new(bucket_name:, key:)`. */
  datatype ObjectRef = ObjectRef(bucket: string, key: string)

  /** One step of a download, as the block-form `get` produces it. */
  datatype Event = Data(chunk: Chunk) | EndOfObject | Failed(error: FetchError)

  /** The block raises on its call number `onCall` (0 for the first call), with `message`. */
  datatype BlockRaise = BlockRaise(onCall: nat, message: string)

  /** What escapes `stream_to`: an error of the store, or one the block raised. */
  datatype StreamError = StoreFailed(error: FetchError) | BlockFailed(message: string)

  // ---------------------------------------------------------------------------
  // Rails `blank?`

  /** The characters `[[:space:]]` matches in a Unicode string: the Unicode
      White_Space property. */
  predicate IsSpace(c: char)
  {
    || ('\t' <= c <= '\r')
    || c == ' '
    || c == '\U{85}'
    || c == '\U{A0}'
    || c == '\U{1680}'
    || ('\U{2000}' <= c <= '\U{200A}')
    || c == '\U{2028}'
    || c == '\U{2029}'
    || c == '\U{202F}'
    || c == '\U{205F}'
    || c == '\U{3000}'
  }

  /** `/\A[[:space:]]*\z/` matches `s`, consumed one character at a time. */
  predicate AllSpace(s: string)
  {
    s == [] || (IsSpace(s[0]) && AllSpace(s[1..]))
  }

  /** `blank?` of a value that is either nil or a String. */
  predicate Blank(v: Option<string>)
  {
    v.None? || AllSpace(v.value)
  }

  lemma {:induction false} AllSpaceIff(s: string)
    ensures AllSpace(s) <==> forall i :: 0 <= i < |s| ==> IsSpace(s[i])
  {
    if s != [] {
      AllSpaceIff(s[1..]);
      assert forall i :: 1 <= i < |s| ==> s[i] == s[1..][i - 1];
    }
  }

  /** A value is blank exactly when it is nil, empty, or made of whitespace only. */
  lemma BlankIff(v: Option<string>)
    ensures Blank(v) <==> v == None || v.value == "" || forall i :: 0 <= i < |v.value| ==> IsSpace(v.value[i])
  {
    if v.Some? {
      AllSpaceIff(v.value);
    }
  }

  // ---------------------------------------------------------------------------
  // What `stream_to` does, as functions of its inputs

  /** The object `stream_to` fetches, or `None` when one of its guards returns first. */
  function Target(blockGiven: bool, bucketName: Option<string>, objectKey: Option<string>): Option<ObjectRef>
  {
    if !blockGiven then None
    else if Blank(bucketName) || Blank(objectKey) then None
    else Some(ObjectRef(bucketName.value, objectKey.value))
  }

  /** The objects opened on the store when `target` is fetched. */
  function Requests(target: Option<ObjectRef>): seq<ObjectRef>
  {
    if target.None? then [] else [target.value]
  }

  /** Whether a block that raises as `pending` says (counting calls from the
      start of this transfer) raises on one of the `n` chunks of the object. */
  predicate RaisesWithin(pending: Option<BlockRaise>, n: nat)
  {
    pending.Some? && pending.value.onCall < n
  }

  /** The chunks handed to the block when `target` is fetched from a store that
      answers `respond`: all of them, or those up to and including the one on
      which the block raises. */
  function Forwarded(target: Option<ObjectRef>, respond: ObjectRef -> Transfer, pending: Option<BlockRaise>): seq<Chunk>
  {
    if target.None? then []
    else
      var chunks := respond(target.value).chunks;
      if RaisesWithin(pending, |chunks|) then chunks[..pending.value.onCall + 1] else chunks
  }

  /** The error that escapes `stream_to`, if any: the block's, which stops the
      transfer, or else the store's after its last chunk. */
  function Raised(target: Option<ObjectRef>, respond: ObjectRef -> Transfer, pending: Option<BlockRaise>): Option<StreamError>
  {
    if target.None? then None
    else
      var transfer := respond(target.value);
      if RaisesWithin(pending, |transfer.chunks|) then Some(BlockFailed(pending.value.message))
      else if transfer.failure.Some? then Some(StoreFailed(transfer.failure.value))
      else None
  }

  /** The bytes of a chunk sequence, concatenated. */
  function Concat(chunks: seq<Chunk>): Chunk
  {
    if chunks == [] then [] else Concat(chunks[..|chunks| - 1]) + chunks[|chunks| - 1]
  }

  lemma {:induction false} ConcatAppend(a: seq<Chunk>, b: seq<Chunk>)
    ensures Concat(a + b) == Concat(a) + Concat(b)
  {
    if b != [] {
      ConcatAppend(a, b[..|b| - 1]);
      assert (a + b)[..|a + b| - 1] == a + b[..|b| - 1];
    } else {
      assert a + b == a;
    }
  }

  /** The guards: nothing is fetched when no block is given or when the bucket
      name or object key is nil, empty or whitespace only; otherwise exactly the
      given bucket and key are fetched. */
  lemma TargetGuards(blockGiven: bool, bucketName: Option<string>, objectKey: Option<string>)
    ensures Target(blockGiven, bucketName, objectKey).None? <==>
      || !blockGiven
      || bucketName == None || (forall i :: 0 <= i < |bucketName.value| ==> IsSpace(bucketName.value[i]))
      || objectKey == None || (forall i :: 0 <= i < |objectKey.value| ==> IsSpace(objectKey.value[i]))
    ensures Target(blockGiven, bucketName, objectKey).Some? ==>
      Target(blockGiven, bucketName, objectKey).value == ObjectRef(bucketName.value, objectKey.value)
  {
    BlankIff(bucketName);
    BlankIff(objectKey);
  }

  /** Streaming adds no bytes and reorders none: the block is handed a prefix
      of the object's chunks, and all of them unless it raises first, so the
      bytes it receives are the object's bytes, whatever the chunking. */
  lemma ForwardedBytes(received: seq<Chunk>, target: Option<ObjectRef>, respond: ObjectRef -> Transfer, pending: Option<BlockRaise>)
    ensures target.Some? ==> Forwarded(target, respond, pending) <= respond(target.value).chunks
    ensures Concat(received + Forwarded(target, respond, pending)) ==
            Concat(received) + Concat(Forwarded(target, respond, pending))
    ensures target.Some? && !RaisesWithin(pending, |respond(target.value).chunks|) ==>
      Concat(received + Forwarded(target, respond, pending)) == Concat(received) + Concat(respond(target.value).chunks)
  {
    ConcatAppend(received, Forwarded(target, respond, pending));
  }

  // ---------------------------------------------------------------------------
  // The store, the download and the block

  /** One open download: hands out the chunks of `transfer` in order. */
  class Download {
    const transfer: Transfer
    var position: nat

    ghost predicate Valid()
      reads this
    {
      position <= |transfer.chunks|
    }

    constructor (transfer: Transfer)
      ensures Valid()
      ensures this.transfer == transfer && position == 0
    {
      this.transfer := transfer;
      position := 0;
    }

    /** The next chunk, or the end of the object, or the error that ends the download. */
    method Next() returns (e: Event)
      requires Valid()
      modifies this`position
      ensures Valid()
      ensures old(position) < |transfer.chunks| ==>
        e == Data(transfer.chunks[old(position)]) && position == old(position) + 1
      ensures old(position) == |transfer.chunks| ==>
        position == old(position) &&
        e == (if transfer.failure.None? then EndOfObject else Failed(transfer.failure.value))
    {
      if position < |transfer.chunks| {
        e := Data(transfer.chunks[position]);
        position := position + 1;
      } else if transfer.failure.None? {
        e := EndOfObject;
      } else {
        e := Failed(transfer.failure.value);
      }
    }
  }

  /** The object-storage endpoint, as far as the wrapper sees it. */
  class ObjectStore {
    /** What a `get` of each object delivers. */
    const respond: ObjectRef -> Transfer
    /** Every object opened so far, in order. */
    var requests: seq<ObjectRef>

    constructor (respond: ObjectRef -> Transfer)
      ensures this.respond == respond && requests == []
    {
      this.respond := respond;
      requests := [];
    }

    /** Opens `obj` for a block-form `get`. */
    method Get(obj: ObjectRef) returns (d: Download)
      modifies this`requests
      ensures fresh(d) && d.Valid()
      ensures d.transfer == respond(obj) && d.position == 0
      ensures requests == old(requests) + [obj]
    {
      d := new Download(respond(obj));
      requests := requests + [obj];
    }
  }

  /** The block given to `stream_to`: records every chunk it is called with,
      and raises on one call when `raises` says so (a response stream whose
      client went away, say). */
  class Sink {
    var received: seq<Chunk>
    const raises: Option<BlockRaise>

    constructor (raises: Option<BlockRaise>)
      ensures received == [] && this.raises == raises
    {
      received := [];
      this.raises := raises;
    }

    /** When the block will raise, counting from its next call. */
    function Pending(): Option<BlockRaise>
      reads this
    {
      if raises.Some? && raises.value.onCall >= |received|
      then Some(BlockRaise(raises.value.onCall - |received|, raises.value.message))
      else None
    }

    /** One call of the block; `failure` is the message it raises, if it does. */
    method Write(chunk: Chunk) returns (failure: Option<string>)
      modifies this`received
      ensures received == old(received) + [chunk]
      ensures failure == if raises.Some? && raises.value.onCall == |old(received)| then Some(raises.value.message) else None
    {
      failure := if raises.Some? && raises.value.onCall == |received| then Some(raises.value.message) else None;
      received := received + [chunk];
    }
  }

  // ---------------------------------------------------------------------------
  // S3AttachmentWrapper

  class S3AttachmentWrapper {
    var bucketName: Option<string>
    var objectKey: Option<string>

    constructor (bucketName: Option<string>, objectKey: Option<string>)
      ensures this.bucketName == bucketName && this.objectKey == objectKey
    {
      this.bucketName := bucketName;
      this.objectKey := objectKey;
    }

    /** `stream_to`: a null `sink` means no block was given. The wrapper's own
        fields are outside the frame, so they are never changed. */
    method StreamTo(sink: Sink?, store: ObjectStore) returns (raised: Option<StreamError>)
      modifies sink, store`requests
      ensures store.requests == old(store.requests) + Requests(Target(sink != null, bucketName, objectKey))
      ensures sink != null ==>
        sink.received == old(sink.received) + Forwarded(Target(true, bucketName, objectKey), store.respond, old(sink.Pending()))
      ensures sink != null ==>
        raised == Raised(Target(true, bucketName, objectKey), store.respond, old(sink.Pending()))
      ensures sink == null ==> raised == None
    {
      if sink == null {
        return None;
      }
      if Blank(bucketName) || Blank(objectKey) {
        return None;
      }
      var download := store.Get(ObjectRef(bucketName.value, objectKey.value));
      while true
        invariant download.Valid()
        invariant download.transfer == store.respond(ObjectRef(bucketName.value, objectKey.value))
        invariant store.requests == old(store.requests) + [ObjectRef(bucketName.value, objectKey.value)]
        invariant sink.received == old(sink.received) + download.transfer.chunks[..download.position]
        invariant old(sink.Pending()).None? || old(sink.Pending()).value.onCall >= download.position
        decreases |download.transfer.chunks| - download.position
      {
        var e := download.Next();
        match e
        case Data(chunk) =>
          var failure := sink.Write(chunk);
          if failure.Some? {
            return Some(BlockFailed(failure.value));
          }
        case EndOfObject =>
          return None;
        case Failed(error) =>
          return Some(StoreFailed(error));
      }
    }

    /** `S3AttachmentWrapper.stream_to!`: builds a wrapper for exactly
        `bucketName` and `objectKey` and streams it to the same block. */
    static method StreamToBang(bucketName: Option<string>, objectKey: Option<string>, sink: Sink?, store: ObjectStore)
      returns (raised: Option<StreamError>)
      modifies sink, store`requests
      ensures store.requests == old(store.requests) + Requests(Target(sink != null, bucketName, objectKey))
      ensures sink != null ==>
        sink.received == old(sink.received) + Forwarded(Target(true, bucketName, objectKey), store.respond, old(sink.Pending()))
      ensures sink != null ==>
        Concat(sink.received) ==
        Concat(old(sink.received)) + Concat(Forwarded(Target(true, bucketName, objectKey), store.respond, old(sink.Pending())))
      ensures sink != null ==>
        raised == Raised(Target(true, bucketName, objectKey), store.respond, old(sink.Pending()))
      ensures sink == null ==> raised == None
    {
      var attachment := new S3AttachmentWrapper(bucketName, objectKey);
      raised := attachment.StreamTo(sink, store);
      if sink != null {
        ConcatAppend(old(sink.received), Forwarded(Target(true, bucketName, objectKey), store.respond, old(sink.Pending())));
      }
    }
  }
}
