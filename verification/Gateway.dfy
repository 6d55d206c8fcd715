/** The whole store as one state: tables, Telegram and unfinished uploads, and what each request does to it. Requests
    run one after the other here; the concurrent protocols have modules of their own. */
module Gateway {
  import opened ByteStrings
  import opened Metadata
  import opened Telegram
  import opened Chunks
  import opened Uploads
  import opened Multipart
  import opened Tables
  import opened SQLite
  import opened PrefixCopy
  import opened Rename
  import opened Ownership

  datatype System = System(db: Db, cloud: Cloud, sessions: Sessions)

  /** A part's recorded size is the sum of its chunks' sizes. */
  ghost predicate PartsAddUp(sessions: Sessions) {
    forall id, n :: id in sessions && n in sessions[id].parts ==>
      sessions[id].parts[n].size == SizeSum(sessions[id].parts[n].chunks)
  }

  ghost predicate Inv(s: System) {
    && WellFormed(s.db)
    && s.cloud.Valid()
    && Owned(View(s.db), s.sessions, s.cloud)
    && PartsAddUp(s.sessions)
  }

  // ----- What the store means to its clients -----

  datatype Draft = Draft(k: ObjectKey, parts: map<int, ByteString>)

  /** Bodies by key, and the part bodies of unfinished uploads. */
  datatype Meaning = Meaning(bodies: map<ObjectKey, ByteString>, drafts: map<ByteString, Draft>)

  ghost function Bodies(view: Entries, documents: Documents): map<ObjectKey, ByteString> {
    map k | k in view :: Body(documents, view[k].chunks)
  }

  ghost function DraftOf(session: Session, documents: Documents): Draft {
    Draft(session.Key(), map n | n in session.parts :: PartBody(documents, session.parts[n].chunks))
  }

  ghost function Drafts(sessions: Sessions, documents: Documents): map<ByteString, Draft> {
    map id | id in sessions :: DraftOf(sessions[id], documents)
  }

  ghost function MeaningOf(s: System): Meaning {
    Meaning(Bodies(View(s.db), s.cloud.documents), Drafts(s.sessions, s.cloud.documents))
  }

  // ----- Requests -----

  datatype Request =
    | Put(k: ObjectKey, body: ByteString)
    | Create(id: ByteString, k: ObjectKey)
    | StorePart(id: ByteString, n: int, body: ByteString)
    | Complete(id: ByteString, requested: seq<CompletedPart>)
    | Drop(id: ByteString)
    | Delete(k: ObjectKey)
    | Move(bucket: ByteString, src: ByteString, dst: ByteString)
    | MovePrefix(bucket: ByteString, src: ByteString, dst: ByteString)
    | Rename(from: ByteString, to: ByteString)
    | Fail

  function ChunksOf(db: Db, k: ObjectKey): seq<Chunk> {
    if k in db.objects then ListChunks(db, k) else []
  }

  /** PutObject: send the chunks, write the rows, then best-effort deletion of the replaced messages. */
  ghost predicate PutWith(s: System, k: ObjectKey, body: ByteString, s': System, e: Entry, sent: Cloud) {
    && GoodEntry(k, e)
    && sent.Valid() && SentAfter(s.cloud, sent, e.chunks) && Holds(sent.documents, e.chunks, body)
    && PutInTx(s.db, e.info, e.chunks) == Some(s'.db)
    && Purged(sent, s'.cloud, Messages(ChunksOf(s.db, k)))
    && s'.sessions == s.sessions
  }

  /** CompleteMultipartUpload: rows of the listed parts, cleanup of the replaced object, then the session goes. */
  ghost predicate CompleteWith(s: System, id: ByteString, requested: seq<CompletedPart>, s': System,
                               chosen: seq<MultipartPart>, o: Object)
  {
    && id in s.sessions
    && Completes(s.sessions[id].parts, requested, Ok(chosen))
    && var k := s.sessions[id].Key();
       var rows := Rows(k.bucket, k.key, Flatten(chosen));
    && KeyOfObject(o) == k && o.size == PartSizeSum(chosen) && o.chunkCount == |rows|
    && PutInTx(s.db, o, rows) == Some(s'.db)
    && Purged(s.cloud, s'.cloud, Messages(ChunksOf(s.db, k)))
    && s'.sessions == s.sessions - {id}
  }

  /** UploadPart, once the part's chunks have been sent: the part replaces any earlier one of its number. */
  ghost predicate StorePartWith(s: System, id: ByteString, n: int, body: ByteString, s': System, chunkSize: int,
                                part: MultipartPart)
  {
    && id in s.sessions
    && PartSent(s.cloud, s'.cloud, chunkSize, part.chunks, body) && part.size == |body|
    && s'.db == s.db
    && s'.sessions == s.sessions[id := s.sessions[id].(parts := s.sessions[id].parts[n := part])]
  }

  ghost predicate CreateWith(s: System, id: ByteString, k: ObjectKey, s': System, contentType: ByteString,
                             createdAt: int)
  {
    && id !in s.sessions
    && s' == s.(sessions := s.sessions[id := Session(k.bucket, k.key, contentType, createdAt, map[])])
  }

  ghost predicate MoveWith(s: System, bucket: ByteString, src: ByteString, dst: ByteString, s': System, overwrite: bool,
                           now: int)
  {
    var r := MoveTx(s.db, bucket, src, dst, overwrite, now);
    r.Ok? && s' == s.(db := r.value.0)
  }

  ghost predicate MovePrefixWith(s: System, bucket: ByteString, src: ByteString, dst: ByteString, s': System,
                                 overwrite: bool, now: int)
  {
    var r := MovePrefixTx(s.db, bucket, src, dst, overwrite, now);
    r.Ok? && s' == s.(db := r.value.0)
  }

  /** What each request may do when it succeeds. Fail is a request that gave up, having sent what it sent. Deletions
      that Telegram tolerates (already gone, too old) may leave the message; no other deletion failure is in here. */
  ghost predicate Step(s: System, r: Request, s': System) {
    match r
    case Put(k, body) => exists e, sent :: PutWith(s, k, body, s', e, sent)
    case Create(id, k) => exists contentType, createdAt :: CreateWith(s, id, k, s', contentType, createdAt)
    case StorePart(id, n, body) => exists chunkSize, part :: StorePartWith(s, id, n, body, s', chunkSize, part)
    case Complete(id, requested) => exists chosen, o :: CompleteWith(s, id, requested, s', chosen, o)
    case Drop(id) => s' == s.(sessions := s.sessions - {id})
    case Delete(k) =>
      && s'.db == DeleteInTx(s.db, k) && s'.sessions == s.sessions
      && Purged(s.cloud, s'.cloud, Messages(ChunksOf(s.db, k)))
    case Move(bucket, src, dst) => exists overwrite, now :: MoveWith(s, bucket, src, dst, s', overwrite, now)
    case MovePrefix(bucket, src, dst) =>
      && ExactBucket(s.db, bucket, src) && TargetsEscape(s.db, bucket, src, dst)
      && exists overwrite, now :: MovePrefixWith(s, bucket, src, dst, s', overwrite, now)
    case Rename(from, to) => RenameTx(s.db, from, to) == Ok(s'.db) && s' == s.(db := s'.db)
    case Fail => s.cloud.GrowsTo(s'.cloud) && s'.cloud.Valid() && s' == s.(cloud := s'.cloud)
  }

  // ----- What each request means -----

  function ListedBodies(parts: map<int, ByteString>, requested: seq<CompletedPart>): (bodies: seq<ByteString>)
    requires forall i :: 0 <= i < |requested| ==> requested[i].partNumber in parts
    ensures |bodies| == |requested|
  {
    seq(|requested|, i requires 0 <= i < |requested| => parts[requested[i].partNumber])
  }

  /** The listed parts' bodies, joined, become the object; the upload is gone. */
  ghost predicate MeansComplete(m: Meaning, id: ByteString, requested: seq<CompletedPart>, m': Meaning) {
    && id in m.drafts
    && (forall i :: 0 <= i < |requested| ==> requested[i].partNumber in m.drafts[id].parts)
    && m'.bodies == m.bodies[m.drafts[id].k := Concat(ListedBodies(m.drafts[id].parts, requested))]
    && m'.drafts == m.drafts - {id}
  }

  /** MovePrefix writes `k` from a source among `keys`. */
  predicate IsMoved(keys: set<ObjectKey>, bucket: ByteString, src: ByteString, dst: ByteString, k: ObjectKey) {
    k.bucket == bucket && dst <= k.key && ObjectKey(bucket, src + k.key[|dst|..]) in keys
  }

  /** Where MovePrefix takes each object from: a target from its source, any other from its own key. */
  function MovedFrom(keys: set<ObjectKey>, bucket: ByteString, src: ByteString, dst: ByteString,
                     k: ObjectKey): ObjectKey
  {
    if IsMoved(keys, bucket, src, dst, k) then ObjectKey(bucket, src + k.key[|dst|..]) else k
  }

  /** The object under `k` after the move, if there is one, was the one under `from`. */
  predicate PrefixOrigin(keys: set<ObjectKey>, bucket: ByteString, src: ByteString, dst: ByteString, k: ObjectKey,
                         from: ObjectKey)
  {
    && from == MovedFrom(keys, bucket, src, dst, k)
    && (IsMoved(keys, bucket, src, dst, k) || !(k.bucket == bucket && src <= k.key))
  }

  ghost predicate Means(m: Meaning, r: Request, m': Meaning) {
    match r
    case Put(k, body) => m' == m.(bodies := m.bodies[k := body])
    case Create(id, k) => m' == m.(drafts := m.drafts[id := Draft(k, map[])])
    case StorePart(id, n, body) =>
      id in m.drafts && m' == m.(drafts := m.drafts[id := m.drafts[id].(parts := m.drafts[id].parts[n := body])])
    case Complete(id, requested) => MeansComplete(m, id, requested, m')
    case Drop(id) => m' == m.(drafts := m.drafts - {id})
    case Delete(k) => m' == m.(bodies := m.bodies - {k})
    case Move(bucket, src, dst) =>
      var s, d := ObjectKey(bucket, src), ObjectKey(bucket, dst);
      s in m.bodies && m' == m.(bodies := m.bodies[d := m.bodies[s]] - {s})
    case MovePrefix(bucket, src, dst) =>
      && m'.drafts == m.drafts
      && (forall k :: k in m'.bodies <==>
           exists f :: f in m.bodies && PrefixOrigin(m.bodies.Keys, bucket, src, dst, k, f))
      && (forall k, f :: k in m'.bodies && f in m.bodies && PrefixOrigin(m.bodies.Keys, bucket, src, dst, k, f) ==>
           m'.bodies[k] == m.bodies[f])
    case Rename(from, to) =>
      && m'.drafts == m.drafts
      && (forall k :: k in m.bodies ==>
           RenameKey(k, from, to) in m'.bodies && m'.bodies[RenameKey(k, from, to)] == m.bodies[k])
      && (forall k :: k in m'.bodies ==> exists f :: f in m.bodies && k == RenameKey(f, from, to))
    case Fail => m' == m
  }
}
