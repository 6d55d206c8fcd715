/** store/store.go's ObjectStore: tables, bot client and unfinished uploads as one object, its requests as methods. Each
    method is proved to be a step of the Gateway model, so everything proved about runs holds of it. */
module Store {
  import opened ByteStrings
  import opened Metadata
  import opened Telegram
  import opened Strategy
  import opened Chunks
  import opened Ranges
  import opened Uploads
  import opened Multipart
  import opened Tables
  import opened SQLite
  import opened MetadataStore
  import opened Ownership
  import opened Gateway
  import opened GatewayRuns

  datatype StoreError =
    | MissingContentLength
    | TooLarge
    | InvalidArgument
    | NoSuchUpload
    | NoSuchKey
    | UploadFailed(upload: UploadError)
    | BadParts(parts: PartError)
    | MetadataFailed
    | DeleteRefused

  const MAX_MULTIPART_UPLOADS := 1000

  /** The name UploadStrategy records for each kind of upload. */
  function StrategyName(s: UploadStrategy): ByteString {
    if s.chunked then Ascii("chunked_document")
    else if s.mediaType == Document then Ascii("document")
    else Ascii("typed")
  }

  function TypeName(t: MediaType): ByteString {
    match t
    case Document => DOCUMENT
    case Photo => Ascii("photo")
    case Video => Ascii("video")
    case Audio => Ascii("audio")
    case Animation => Ascii("animation")
  }

  // ----- Steps of a put -----

  /** The new object is written; the messages it replaces are still there. */
  ghost predicate Wrote(s: System, k: ObjectKey, body: ByteString, s': System, e: Entry) {
    && GoodEntry(k, e)
    && s'.cloud.Valid() && SentAfter(s.cloud, s'.cloud, e.chunks) && Holds(s'.cloud.documents, e.chunks, body)
    && PutInTx(s.db, e.info, e.chunks) == Some(s'.db)
    && s'.sessions == s.sessions
  }

  /** The new object is written over one message whose document is not of the recorded size. */
  ghost predicate Misfit(s: System, k: ObjectKey, s': System, e: Entry) {
    && GoodEntry(k, e) && |e.chunks| == 1
    && s'.cloud.Valid() && s.cloud.GrowsTo(s'.cloud)
    && e.chunks[0].telegramFileID in s'.cloud.documents
    && |s'.cloud.documents[e.chunks[0].telegramFileID]| != e.chunks[0].size
    && PutInTx(s.db, e.info, e.chunks) == Some(s'.db)
    && s'.sessions == s.sessions
  }

  /** Such a put leaves the tables well formed and the store unsound. */
  lemma MisfitIsUnsound(s: System, k: ObjectKey, mid: System, e: Entry, s': System)
    requires Inv(s) && Misfit(s, k, mid, e)
    requires s'.db == mid.db && Purged(mid.cloud, s'.cloud, Messages(ChunksOf(s.db, k)))
    ensures WellFormed(s'.db) && !Inv(s')
  {
    hide GoodEntry, PutInTx, View, WellFormed, Messages;
    PutRefines(s.db, k, e);
    var row := Row(k, 0);
    assert ClaimOf(View(s'.db), s'.sessions, row) == Some(RowClaim(e.chunks[0]));
    assert !Backed(s'.cloud.documents, RowClaim(e.chunks[0]));
  }

  lemma WroteThenCleaned(s: System, k: ObjectKey, body: ByteString, mid: System, e: Entry, s': System)
    requires Wrote(s, k, body, mid, e)
    requires s'.db == mid.db && s'.sessions == mid.sessions
    requires Purged(mid.cloud, s'.cloud, Messages(ChunksOf(s.db, k)))
    ensures Step(s, Put(k, body), s')
  {
    hide GoodEntry, SentAfter, Holds, PutInTx, Messages, Purged;
    assert PutWith(s, k, body, s', e, mid.cloud);
  }

  /** A put that wrote its row and then tried to delete what it replaced. */
  lemma PutOutcome(s: System, k: ObjectKey, body: ByteString, mid: System, s': System, records: bool)
    requires Inv(s)
    requires if records then exists e :: Wrote(s, k, body, mid, e) else exists e :: Misfit(s, k, mid, e)
    requires s' == mid.(cloud := s'.cloud) && Purged(mid.cloud, s'.cloud, Messages(ChunksOf(s.db, k)))
    ensures WellFormed(s'.db) && (Inv(s') <==> records)
    ensures records ==> Step(s, Put(k, body), s')
  {
    hide Inv, Step, Wrote, Misfit, Messages, Purged, WellFormed;
    if records {
      var e :| Wrote(s, k, body, mid, e);
      WroteThenCleaned(s, k, body, mid, e, s');
      StepRefines(s, Put(k, body), s');
      InvFacts(s');
    } else {
      var e :| Misfit(s, k, mid, e);
      MisfitIsUnsound(s, k, mid, e, s');
    }
  }

  lemma OneRowIsGood(k: ObjectKey, o: Object, c: Chunk)
    requires KeyOfObject(o) == k == OwnerOfChunk(c) && o.chunkCount == 1 && o.size == c.size > 0
    requires c.partNumber == 1 && c.offset == 0
    ensures GoodEntry(k, Entry(o, [c]))
  {
    assert [c][..0] == [];
    assert Total([]) == 0 && Total([c]) == 0 + c.size;
  }

  lemma OneRowHolds(before: Cloud, sent: Cloud, c: Chunk, body: ByteString)
    requires before.GrowsTo(sent) && before.next <= c.telegramMessageID < sent.next
    requires c.telegramFileID == c.telegramMessageID && c.telegramFileID in sent.documents
    requires sent.documents[c.telegramFileID] == body && c.partNumber == 1 && c.offset == 0 && c.size == |body| > 0
    ensures SentAfter(before, sent, [c]) && Holds(sent.documents, [c], body)
  {
    assert [c][..0] == [];
    assert Content(sent.documents, []) == [];
    assert Content(sent.documents, [c]) == [] + body;
  }

  lemma NoRowsHold(cloud: Cloud)
    ensures SentAfter(cloud, cloud, []) && Holds(cloud.documents, [], [])
  {
  }

  lemma PreviousChunks(db: Db, k: ObjectKey)
    ensures ChunksOf(db, k) == if k in View(db) then View(db)[k].chunks else []
  {
  }

  lemma NothingSentFails(s: System)
    requires Inv(s)
    ensures Step(s, Fail, s)
  {
  }

  lemma UnderWayMeans(before: Cloud, now: Cloud, hashes: Hashes, chunkSize: int, chunks: seq<MultipartChunk>,
                      body: ByteString)
    requires PartUnderWay(before, now, hashes, chunkSize, chunks, body)
    ensures PartSent(before, now, chunkSize, chunks, body) && Labelled(hashes, now.documents, chunks)
  {
  }

  lemma SentRows(before: Cloud, now: Cloud, hashes: Hashes, k: ObjectKey, chunkSize: nat, rows: seq<Chunk>,
                 body: ByteString)
    requires Sent(before, now, hashes, k.bucket, k.key, chunkSize, rows, body)
    ensures SentAfter(before, now, rows) && Holds(now.documents, rows, body)
    ensures forall i :: 0 <= i < |rows| ==> OwnerOfChunk(rows[i]) == k
  {
  }

  /** What a successful put of `reader` stores: nothing for a declared size of 0, else what Telegram keeps of it. */
  function Stored(client: Client, s: UploadStrategy, reader: ByteString, size: int): ByteString {
    if size == 0 then [] else client.Kept(s.mediaType, reader)
  }

  /** A typed upload whose size Telegram reports: the row trusts that size, and keeps no hash of what was sent. */
  predicate TrustsReport(s: UploadStrategy, size: int, reported: nat) {
    size > 0 && s.mediaType != Document && reported > 0
  }

  function PutETag(s: UploadStrategy, reader: ByteString, size: int, reported: nat, hashes: Hashes,
                   randomETag: ByteString):
    ByteString
  {
    if TrustsReport(s, size, reported) then randomETag else Hex(hashes.md5(if size == 0 then [] else reader))
  }

  /** The row a put writes. */
  function PutRow(k: ObjectKey, contentType: ByteString, s: UploadStrategy, reader: ByteString, size: nat,
                  reported: nat,
                  hashes: Hashes, etag: ByteString, now: int): Object
  {
    var trusts := TrustsReport(s, size, reported);
    Object(k.bucket, k.key, if trusts then reported else size, contentType, etag,
           if trusts then [] else Hex(hashes.sha256(if size == 0 then [] else reader)),
           now, PutChunkCount(s, size), TypeName(s.mediaType), StrategyName(s))
  }

  /** The row describes what was sent, but for a typed upload whose size Telegram reports: that takes the reported size,
      a random ETag and no hash. */
  ghost predicate RecordsPut(row: Object, s: UploadStrategy, sent: ByteString, size: nat, reported: nat, hashes: Hashes,
                             randomETag: ByteString)
  {
    && (if size > 0 && s.mediaType != Document && reported > 0
        then row.size == reported && row.sha256 == [] && row.etag == randomETag
        else row.size == size && row.sha256 == Hex(hashes.sha256(sent)) && row.etag == Hex(hashes.md5(sent)))
    && row.chunkCount == (if size == 0 then 0
                          else if s.chunked && s.chunkSize > 0 then CeilDiv(size, s.chunkSize)
                          else 1)
    && row.telegramType == (match s.mediaType
                            case Document => Ascii("document")
                            case Photo => Ascii("photo")
                            case Video => Ascii("video")
                            case Audio => Ascii("audio")
                            case Animation => Ascii("animation"))
    && row.uploadStrategy == (if s.chunked then Ascii("chunked_document")
                              else if s.mediaType == Document then Ascii("document")
                              else Ascii("typed"))
  }

  /** Every chunk row has the object's media type and the hash of its own stretch of what was sent, or none. */
  ghost predicate RecordsChunks(chunks: seq<Chunk>, telegramType: ByteString, sent: ByteString, hashed: bool,
                                hashes: Hashes)
  {
    forall i :: 0 <= i < |chunks| ==>
      && chunks[i].telegramType == telegramType
      && 0 <= chunks[i].offset && 0 <= chunks[i].size
      && if hashed
         then chunks[i].offset + chunks[i].size <= |sent|
              && chunks[i].sha256
                 == Hex(hashes.sha256(sent[chunks[i].offset..chunks[i].offset + chunks[i].size]))
         else chunks[i].sha256 == []
  }

  lemma SentRecordsChunks(before: Cloud, now: Cloud, hashes: Hashes, k: ObjectKey, chunkSize: nat, rows: seq<Chunk>,
                          body: ByteString)
    requires Sent(before, now, hashes, k.bucket, k.key, chunkSize, rows, body)
    ensures RecordsChunks(rows, DOCUMENT, body, true, hashes)
  {
    hide Hex, Holds;
    forall i | 0 <= i < |rows|
      ensures var c := rows[i];
              && 0 <= c.offset && 0 < c.size && c.offset + c.size <= |body|
              && c.telegramFileID in now.documents
              && now.documents[c.telegramFileID] == body[c.offset..c.offset + c.size]
    {
      DocumentIsSlice(now.documents, rows, body, i);
    }
  }

  lemma NoChunksRecorded(hashes: Hashes)
    ensures forall telegramType, sent, hashed :: RecordsChunks([], telegramType, sent, hashed, hashes)
  {
  }

  lemma OneRecordsChunks(c: Chunk, reader: ByteString, hashed: bool, hashes: Hashes)
    requires c.offset == 0 && 0 <= c.size && (hashed ==> c.size == |reader|)
    requires c.sha256 == if hashed then Hex(hashes.sha256(reader)) else []
    ensures RecordsChunks([c], c.telegramType, reader, hashed, hashes)
  {
    hide Hex;
    assert reader[0..|reader|] == reader;
  }

  lemma PutRowRecords(k: ObjectKey, contentType: ByteString, s: UploadStrategy, reader: ByteString, size: nat,
                      reported: nat, hashes: Hashes, randomETag: ByteString, now: int)
    ensures var etag := PutETag(s, reader, size, reported, hashes, randomETag);
            var row := PutRow(k, contentType, s, reader, size, reported, hashes, etag, now);
            && RecordsPut(row, s, if size == 0 then [] else reader, size, reported, hashes, randomETag)
            && KeyOfObject(row) == k && row.contentType == contentType && row.lastModified == now && row.etag == etag
  {
    hide Hex, CeilDiv;
    assert DOCUMENT == Ascii("document");
  }

  /** The row records the size of what can be downloaded: always for documents, for other types when Telegram reports
      the size, or happens to keep it. */
  predicate RecordsKeptSize(client: Client, s: UploadStrategy, reader: ByteString, size: int, call: nat) {
    || size == 0
    || client.ReportedSize(s.mediaType, reader, call) > 0
    || |client.Kept(s.mediaType, reader)| == size
  }

  function PutChunkCount(s: UploadStrategy, size: nat): nat {
    if size == 0 then 0 else if s.chunked && s.chunkSize > 0 then CeilDiv(size, s.chunkSize) else 1
  }

  lemma WrittenRow(db: Db, k: ObjectKey, o: Object, rows: seq<Chunk>)
    requires PutInTx(db, o, rows).Some? && KeyOfObject(o) == k
    requires View(PutInTx(db, o, rows).value) == View(db)[k := Entry(o, rows)]
    ensures k in PutInTx(db, o, rows).value.objects && PutInTx(db, o, rows).value.objects[k] == o
    ensures ListChunks(PutInTx(db, o, rows).value, k) == rows
  {
    hide PutInTx, ListChunks;
    var d := PutInTx(db, o, rows).value;
    assert k in View(d) && View(d)[k].info == o;
  }

  /** The sends a put makes are all accepted, and the body is as long as declared. */
  ghost predicate SendsSucceed(client: Client, s: UploadStrategy, reader: ByteString, size: int, calls: nat) {
    size == 0
    || (|reader| == size
        && client.AcceptsAll(calls, if s.chunked && s.chunkSize > 0 then CeilDiv(size, s.chunkSize) else 1))
  }

  lemma CompletesMeans(parts: Parts, requested: seq<CompletedPart>, r: Result<seq<MultipartPart>, PartError>)
    requires Completes(parts, requested, r)
    ensures r.Ok? <==> GoodUpTo(parts, requested, |requested|)
    ensures r.Ok? ==> r.value == Listed(parts, requested, |requested|)
  {
    hide Listed, InOrder, PartMatches;
  }

  lemma WholeStream(documents: Documents, selected: seq<SelectedChunk>, n: nat, ok: bool)
    requires Downloadable(documents, selected) && n <= |selected|
    requires ok ==> n == |selected|
    requires !ok ==> n < |selected| && selected[n].chunk.fileID !in documents
    ensures ok && selected[..n] == selected
  {
  }

  lemma InvFacts(s: System)
    requires Inv(s)
    ensures s.cloud.Valid() && WellFormed(s.db)
  {
  }

  predicate IsOldest(sessions: Sessions, id: ByteString) {
    id in sessions && forall other :: other in sessions ==> sessions[id].createdAt <= sessions[other].createdAt
  }

  ghost predicate NoneOlder(sessions: Sessions, createdAt: int) {
    forall id :: id in sessions ==> createdAt <= sessions[id].createdAt
  }

  lemma OldestIsOldest(sessions: Sessions, id: ByteString)
    requires IsOldest(sessions, id)
    ensures NoneOlder(sessions, sessions[id].createdAt)
  {
  }

  lemma {:induction false} OldestExists(sessions: Sessions, ids: set<ByteString>)
    requires ids != {} && ids <= sessions.Keys
    ensures exists id ::
              id in ids && forall other :: other in ids ==> sessions[id].createdAt <= sessions[other].createdAt
  {
    var a :| a in ids;
    var rest := ids - {a};
    if rest == {} {
      assert ids == {a};
    } else {
      OldestExists(sessions, rest);
      var b :| b in rest && forall other :: other in rest ==> sessions[b].createdAt <= sessions[other].createdAt;
      var c := if sessions[a].createdAt <= sessions[b].createdAt then a else b;
      forall other | other in ids ensures sessions[c].createdAt <= sessions[other].createdAt {
        assert other == a || other in rest;
      }
    }
  }

  class ObjectStore {
    const meta: SQLiteStore
    const client: Client
    const config: UploadConfig
    const hashes: Hashes
    var sessions: Sessions

    ghost function State(): System
      reads this, meta, client
    {
      System(meta.db, client.cloud, sessions)
    }

    ghost predicate Valid()
      reads this, meta, client
    {
      Inv(State())
    }

    constructor (meta: SQLiteStore, client: Client, config: UploadConfig, hashes: Hashes)
      requires Inv(System(meta.db, client.cloud, map[]))
      ensures this.meta == meta && this.client == client && this.config == config && this.hashes == hashes
      ensures Valid() && Initial(State())
    {
      this.meta, this.client, this.config, this.hashes, sessions := meta, client, config, hashes, map[];
    }

    // ----- Deleting messages -----

    /** deleteChunkMessage: an already deleted message and one too old to delete are tolerated. */
    method DeleteChunkMessage(id: int) returns (ok: bool)
      modifies client
      ensures client.calls == old(client.calls) + 1
      ensures ok <==> client.answers(old(client.calls)) != Refused
      ensures client.cloud == old(client.cloud).Answered(id, client.answers(old(client.calls)))
    {
      var answer := client.DeleteMessage(id);
      ok := answer != Refused;
    }

    /** cleanupReplacedChunks: tries every message, and only logs what goes wrong. */
    method CleanupReplacedChunks(previous: seq<Chunk>)
      modifies client
      ensures client.calls == old(client.calls) + |previous|
      ensures client.cloud == AfterDeletions(old(client.cloud), previous, client.answers, old(client.calls), |previous|)
    {
      for i := 0 to |previous|
        invariant client.calls == old(client.calls) + i
        invariant client.cloud == AfterDeletions(old(client.cloud), previous, client.answers, old(client.calls), i)
      {
        var _ := DeleteChunkMessage(previous[i].telegramMessageID);
      }
    }

    // ----- PutObject -----

    /** putEmpty: a row, and nothing to send. */
    method PutEmpty(k: ObjectKey, contentType: ByteString, s: UploadStrategy, now: int) returns (etag: ByteString)
      requires Valid()
      modifies meta
      ensures etag == Hex(hashes.md5([]))
      ensures exists e :: Wrote(old(State()), k, [], State(), e)
      ensures k in meta.db.objects && meta.db.objects[k] == PutRow(k, contentType, s, [], 0, 0, hashes, etag, now)
      ensures ListChunks(meta.db, k) == []
    {
      hide GoodEntry, WellFormed, View, Owned, PartsAddUp, Holds, SentAfter, PutInTx, Hex;
      etag := Hex(hashes.md5([]));
      var o := Object(k.bucket, k.key, 0, contentType, etag, Hex(hashes.sha256([])), now, 0, TypeName(s.mediaType),
                      StrategyName(s));
      NoRowsHold(client.cloud);
      UploadedEntryIsGood(k, o, [], client.cloud.documents, []);
      PutRefines(meta.db, k, Entry(o, []));
      ghost var before := State();
      WrittenRow(meta.db, k, o, []);
      var _ := meta.PutObject(o, []);
      assert Wrote(before, k, [], State(), Entry(o, []));
    }

    /** putSingle: one message for the whole body. A typed upload takes Telegram's size, when it reports one, and an
        ETag that is no hash; without a report it keeps the declared size, which need not be that of what Telegram
        kept. */
    method PutSingle(k: ObjectKey, contentType: ByteString, s: UploadStrategy, reader: ByteString, size: nat, now: int,
                     randomETag: ByteString)
      returns (r: Result<ByteString, StoreError>)
      requires Valid() && size > 0 && !s.chunked
      modifies meta, client
      ensures r.Ok? <==> |reader| == size && client.accepts(old(client.calls))
      ensures r.Ok? ==>
        var reported := client.ReportedSize(s.mediaType, reader, old(client.calls));
        && r.value == PutETag(s, reader, size, reported, hashes, randomETag)
        && k in meta.db.objects
        && meta.db.objects[k] == PutRow(k, contentType, s, reader, size, reported, hashes, r.value, now)
        && RecordsChunks(ListChunks(meta.db, k), TypeName(s.mediaType), reader,
                         !TrustsReport(s, size, reported), hashes)
      ensures r.Ok? && RecordsKeptSize(client, s, reader, size, old(client.calls)) ==>
        exists e :: Wrote(old(State()), k, client.Kept(s.mediaType, reader), State(), e)
      ensures r.Ok? && !RecordsKeptSize(client, s, reader, size, old(client.calls)) ==>
        exists e :: Misfit(old(State()), k, State(), e)
      ensures r.Err? ==> Step(old(State()), Fail, State())
    {
      hide GoodEntry, WellFormed, View, Owned, PartsAddUp, Holds, SentAfter, PutInTx, Hex, RecordsChunks;
      if |reader| != size {
        return Err(UploadFailed(UnexpectedEOF));
      }
      ghost var before := State();
      var uploaded, fileSize := client.Upload(s.mediaType, reader);
      if uploaded.None? {
        return Err(UploadFailed(SendFailed));
      }
      var id := uploaded.value;
      var storedSize, etag, sha := size, Hex(hashes.md5(reader)), Hex(hashes.sha256(reader));
      if s.mediaType != Document && fileSize > 0 {
        storedSize, etag, sha := fileSize, randomETag, [];
      }
      var o := Object(k.bucket, k.key, storedSize, contentType, etag, sha, now, 1, TypeName(s.mediaType),
                      StrategyName(s));
      var c := Chunk(k.bucket, k.key, 1, 0, storedSize, TypeName(s.mediaType), id, id, [], sha);
      ghost var body := client.Kept(s.mediaType, reader);
      OneRecordsChunks(c, reader, s.mediaType == Document || fileSize == 0, hashes);
      OneRowIsGood(k, o, c);
      PutRefines(meta.db, k, Entry(o, [c]));
      WrittenRow(meta.db, k, o, [c]);
      var _ := meta.PutObject(o, [c]);
      if storedSize == |body| {
        OneRowHolds(before.cloud, client.cloud, c, body);
        assert Wrote(before, k, body, State(), Entry(o, [c]));
      } else {
        assert Misfit(before, k, State(), Entry(o, [c]));
      }
      r := Ok(etag);
    }

    /** putChunked, metadata write included. */
    method PutInChunks(k: ObjectKey, contentType: ByteString, s: UploadStrategy, reader: ByteString, size: nat,
                       now: int)
      returns (r: Result<ByteString, StoreError>)
      requires Valid() && s.chunked && s.chunkSize > 0 && s.mediaType == Document && size > 0
      modifies meta, client
      ensures r.Ok? <==> |reader| == size && client.AcceptsAll(old(client.calls), CeilDiv(size, s.chunkSize))
      ensures r.Ok? ==>
        && r.value == Hex(hashes.md5(reader))
        && (exists e :: Wrote(old(State()), k, reader, State(), e))
        && k in meta.db.objects
        && forall reported ::
             meta.db.objects[k] == PutRow(k, contentType, s, reader, size, reported, hashes, r.value, now)
      ensures r.Ok? ==> RecordsChunks(ListChunks(meta.db, k), DOCUMENT, reader, true, hashes)
      ensures r.Err? ==> Step(old(State()), Fail, State())
    {
      hide GoodEntry, WellFormed, View, Owned, PartsAddUp, Holds, SentAfter, PutInTx, Hex, CeilDiv, Sent,
           Cloud.GrowsTo, Cloud.Valid, RecordsChunks;
      ghost var before := State();
      var sent := PutChunked(client, hashes, k.bucket, k.key, reader, size, s.chunkSize);
      if sent.Err? {
        return Err(UploadFailed(sent.error));
      }
      var rows, etag := sent.value.0, sent.value.1;
      var o := Object(k.bucket, k.key, size, contentType, etag, Hex(hashes.sha256(reader)), now, |rows|, DOCUMENT,
                      StrategyName(s));
      SentRows(before.cloud, client.cloud, hashes, k, s.chunkSize, rows, reader);
      SentRecordsChunks(before.cloud, client.cloud, hashes, k, s.chunkSize, rows, reader);
      UploadedEntryIsGood(k, o, rows, client.cloud.documents, reader);
      PutRefines(meta.db, k, Entry(o, rows));
      WrittenRow(meta.db, k, o, rows);
      var _ := meta.PutObject(o, rows);
      assert Wrote(before, k, reader, State(), Entry(o, rows));
      r := Ok(etag);
    }

    /** ObjectStore.PutObject, for a key whose inferred media type is `inferred`. A put succeeds iff its size is
        declared, a strategy accepts it and its sends go through; otherwise nothing but messages nobody owns is left
        behind. When the row records the size of what Telegram kept it is a Put step, and when it does not the store is
        unsound. */
    method PutObject(k: ObjectKey, contentType: ByteString, inferred: MediaType, reader: ByteString, size: int,
                     now: int,
                     randomETag: ByteString)
      returns (r: Result<ByteString, StoreError>)
      requires Valid()
      modifies meta, client
      ensures r.Ok? <==>
        && size >= 0
        && Resolve(config, inferred, size).Some?
        && SendsSucceed(client, Resolve(config, inferred, size).value, reader, size, old(client.calls))
      ensures r.Ok? ==>
        var s := Resolve(config, inferred, size).value;
        && (Valid() <==> RecordsKeptSize(client, s, reader, size, old(client.calls)))
        && (Valid() ==> Step(old(State()), Put(k, Stored(client, s, reader, size)), State()))
      ensures r.Ok? ==>
        var s := Resolve(config, inferred, size).value;
        var reported := client.ReportedSize(s.mediaType, reader, old(client.calls));
        var sent := if size == 0 then [] else reader;
        && k in meta.db.objects && KeyOfObject(meta.db.objects[k]) == k
        && RecordsPut(meta.db.objects[k], s, sent, size, reported, hashes, randomETag)
        && meta.db.objects[k].contentType == contentType && meta.db.objects[k].lastModified == now
        && meta.db.objects[k].etag == r.value
        && RecordsChunks(ListChunks(meta.db, k), meta.db.objects[k].telegramType, sent,
                         !(s.mediaType != Document && reported > 0), hashes)
      ensures r.Err? ==> Valid() && Step(old(State()), Fail, State())
      ensures WellFormed(meta.db)
    {
      hide Inv, Wrote, Misfit, Purged, Messages, Step, Resolve, StrategyName, Hex, CeilDiv, AfterDeletions, WellFormed,
           View, ChunksOf, ListChunks, RecordsPut, RecordsChunks;
      ghost var before := State();
      NothingSentFails(before);
      InvFacts(before);
      if size < 0 {
        return Err(MissingContentLength);
      }
      var existing := meta.GetObject(k.bucket, k.key);
      var previous := if existing.Ok? then existing.value.chunks else [];
      PreviousChunks(meta.db, k);
      assert previous == ChunksOf(before.db, k);

      ResolvedStrategiesAreUsable(config, inferred, size);
      var strategy := Resolve(config, inferred, size);
      if strategy.None? {
        return Err(TooLarge);
      }
      var s := strategy.value;
      if size == 0 {
        var etag := PutEmpty(k, contentType, s, now);
        NoChunksRecorded(hashes);
        r := Ok(etag);
      } else if !s.chunked {
        r := PutSingle(k, contentType, s, reader, size, now, randomETag);
      } else {
        r := PutInChunks(k, contentType, s, reader, size, now);
      }
      if r.Err? {
        StepRefines(before, Fail, State());
        InvFacts(State());
        return;
      }
      ghost var mid := State();
      ghost var reported := client.ReportedSize(s.mediaType, reader, old(client.calls));
      PutRowRecords(k, contentType, s, reader, size, reported, hashes, randomETag, now);
      ghost var body := Stored(client, s, reader, size);
      ghost var calls := client.calls;
      CleanupReplacedChunks(previous);
      AllDeletionsPurge(mid.cloud, previous, client.answers, calls);
      PutOutcome(before, k, body, mid, State(), RecordsKeptSize(client, s, reader, size, old(client.calls)));
    }

    // ----- GetObject -----

    /** ObjectStore.GetObject: what reaches the client. For a range within the object it is exactly that slice of the
        body the store means by this key, and the stream does not break off. */
    method GetObject(k: ObjectKey, range: Option<ByteRange>) returns (r: Result<(Object, ByteString, bool), StoreError>)
      requires Valid()
      ensures r.Ok? <==> k in MeaningOf(State()).bodies
      ensures r.Err? ==> r == Err(NoSuchKey)
      ensures r.Ok? ==> r.value.0 == meta.db.objects[k]
      ensures r.Ok? && InBounds(MeaningOf(State()).bodies[k], range) ==>
        r.value.1 == Requested(MeaningOf(State()).bodies[k], range) && r.value.2
    {
      hide WellFormed, Owned, PartsAddUp, Body, Stream, Selection, Downloadable, Requested;
      var found := meta.GetObject(k.bucket, k.key);
      if found.Err? {
        return Err(NoSuchKey);
      }
      var sent, downloaded, ok := StreamObject(client.cloud.documents, found.value.chunks, range);
      if InBounds(MeaningOf(State()).bodies[k], range) {
        ReadsMeaning(State(), k, range);
        WholeStream(client.cloud.documents, Selection(found.value.chunks, range), |downloaded|, ok);
      }
      r := Ok((found.value.info, sent, ok));
    }

    // ----- DeleteObject -----

    /** ObjectStore.DeleteObject: messages first, then the rows. It succeeds iff no deletion is refused. A refusal
        leaves the rows, without the messages whose deletion took effect before it; the store is then sound iff all
        deletions before it were answered "too old". */
    method DeleteObject(k: ObjectKey) returns (r: Result<(), StoreError>)
      requires Valid()
      modifies meta, client
      ensures k !in old(meta.db.objects) ==> r.Ok? && State() == old(State())
      ensures k in old(meta.db.objects) ==>
        var chunks, start := old(ListChunks(meta.db, k)), old(client.calls);
        && start <= client.calls <= start + |chunks|
        && (r.Ok? <==> forall i :: start <= i < start + |chunks| ==> client.answers(i) != Refused)
        && client.cloud == AfterDeletions(old(client.cloud), chunks, client.answers, start, client.calls - start)
        && (r.Ok? ==> client.calls == start + |chunks| && Step(old(State()), Delete(k), State()))
        && (r.Err? ==>
             && client.calls > start && client.answers(client.calls - 1) == Refused
             && (forall i :: start <= i < client.calls - 1 ==> client.answers(i) != Refused)
             && State() == old(State()).(cloud := client.cloud))
      ensures r.Ok? ==> Valid()
      ensures r.Err? ==>
        (Valid() <==> forall i :: old(client.calls) <= i < client.calls - 1 ==> client.answers(i) == TooOld)
    {
      hide Inv, ListChunks, DeleteInTx, Purged, Messages, AfterDeletions;
      ghost var before := State();
      var found := meta.GetObject(k.bucket, k.key);
      if found.Err? {
        return Ok(());
      }
      var chunks := found.value.chunks;
      NoDeletions(client.cloud, chunks, client.answers, client.calls);
      for i := 0 to |chunks|
        invariant client.calls == old(client.calls) + i && State() == before.(cloud := client.cloud)
        invariant client.cloud == AfterDeletions(before.cloud, chunks, client.answers, old(client.calls), i)
        invariant forall j :: old(client.calls) <= j < client.calls ==> client.answers(j) != Refused
      {
        var ok := DeleteChunkMessage(chunks[i].telegramMessageID);
        OneMoreDeletion(before.cloud, chunks, client.answers, old(client.calls), i);
        if !ok {
          assert chunks == old(ListChunks(meta.db, k));
          HalfDeletedIff(before, k, client.answers, old(client.calls), i);
          return Err(DeleteRefused);
        }
      }
      AllDeletionsPurge(before.cloud, chunks, client.answers, old(client.calls));
      meta.DeleteObject(k.bucket, k.key);
      assert Step(before, Delete(k), State());
      StepRefines(before, Delete(k), State());
      r := Ok(());
    }

    // ----- Multipart uploads -----

    /** CreateMultipartUpload with a fresh id: past the limit, the oldest upload goes. */
    method CreateMultipartUpload(id: ByteString, k: ObjectKey, contentType: ByteString, now: int)
      requires Valid() && id !in sessions
      modifies this
      ensures Valid()
      ensures if |old(sessions)| < 1000 then Step(old(State()), Create(id, k), State())
              else exists mid, victim ::
                && Step(old(State()), Create(id, k), mid)
                && victim in mid.sessions && NoneOlder(mid.sessions, mid.sessions[victim].createdAt)
                && Step(mid, Drop(victim), State())
      ensures id in sessions ==> sessions[id] == Session(k.bucket, k.key, contentType, now, map[])
    {
      hide Inv, View, NoneOlder;
      ghost var before := State();
      sessions := sessions[id := Session(k.bucket, k.key, contentType, now, map[])];
      ghost var mid := State();
      assert CreateWith(before, id, k, mid, contentType, now);
      assert Step(before, Create(id, k), mid);
      StepRefines(before, Create(id, k), mid);
      if |sessions| <= MAX_MULTIPART_UPLOADS {
        return;
      }
      OldestExists(sessions, sessions.Keys);
      var victim :| victim in sessions && IsOldest(sessions, victim);
      OldestIsOldest(mid.sessions, victim);
      sessions := sessions - {victim};
      assert Step(mid, Drop(victim), State());
      StepRefines(mid, Drop(victim), State());
    }

    method AbortMultipartUpload(id: ByteString, k: ObjectKey) returns (r: Result<(), StoreError>)
      requires Valid()
      modifies this
      ensures Valid()
      ensures r.Ok? <==> id != [] && id in old(sessions) && old(sessions)[id].Key() == k
      ensures r.Ok? ==> Step(old(State()), Drop(id), State())
      ensures r.Err? ==> State() == old(State())
    {
      hide Inv, View;
      if id == [] {
        return Err(InvalidArgument);
      }
      if id !in sessions || sessions[id].bucket != k.bucket || sessions[id].key != k.key {
        return Err(NoSuchUpload);
      }
      ghost var before := State();
      sessions := sessions - {id};
      StepRefines(before, Drop(id), State());
      r := Ok(());
    }

    /** UploadPart: a part that went through replaces whatever its number held; one that did not changes nothing the
        client can see. */
    method UploadPart(id: ByteString, k: ObjectKey, n: int, reader: ByteString, size: int)
      returns (r: Result<ByteString, StoreError>)
      requires Valid()
      modifies this, client
      ensures Valid()
      ensures r.Ok? ==> Step(old(State()), StorePart(id, n, reader), State()) && r.value == Hex(hashes.md5(reader))
      ensures r.Ok? ==>
        && id in sessions && n in sessions[id].parts
        && var part := sessions[id].parts[n];
        && part.number == n && part.size == size && part.etag == r.value && part.md5 == hashes.md5(reader)
        && Labelled(hashes, client.cloud.documents, part.chunks)
      ensures r.Err? ==> Step(old(State()), Fail, State())
      ensures var chunkSize := PartChunkSize(config.chunkSize, config.Limit(Document), DEFAULT_CHUNK_SIZE);
              r.Ok? <==>
                && n >= 1 && id != [] && size >= 0
                && id in old(sessions) && old(sessions)[id].Key() == k
                && chunkSize > 0 && |reader| == size
                && client.AcceptsAll(old(client.calls), CeilDiv(size, chunkSize))
    {
      hide Inv, View, PartSent, Labelled, PartUnderWay, CeilDiv, Hex, Cloud.GrowsTo, Cloud.Valid;
      ghost var before := State();
      NothingSentFails(before);
      InvFacts(before);
      if n < 1 || id == [] || size < 0 {
        return Err(InvalidArgument);
      }
      if id !in sessions || sessions[id].bucket != k.bucket || sessions[id].key != k.key {
        return Err(NoSuchUpload);
      }
      var part := UploadPartChunks(client, hashes, n, reader, size, config.chunkSize, config.Limit(Document),
                                   DEFAULT_CHUNK_SIZE);
      ghost var chunkSize := PartChunkSize(config.chunkSize, config.Limit(Document), DEFAULT_CHUNK_SIZE);
      if part.Err? {
        assert Step(before, Fail, State());
        StepRefines(before, Fail, State());
        return Err(UploadFailed(part.error));
      }
      sessions := sessions[id := sessions[id].(parts := sessions[id].parts[n := part.value])];
      UnderWayMeans(before.cloud, client.cloud, hashes, chunkSize, part.value.chunks, reader);
      assert StorePartWith(before, id, n, reader, State(), chunkSize, part.value);
      assert Step(before, StorePart(id, n, reader), State());
      StepRefines(before, StorePart(id, n, reader), State());
      r := Ok(part.value.etag);
    }

    /** CompleteMultipartUpload: succeeds iff the upload is this key's and the listed parts are stored, in ascending
        order, under their ETags. */
    method CompleteMultipartUpload(id: ByteString, k: ObjectKey, requested: seq<CompletedPart>, now: int)
      returns (r: Result<ByteString, StoreError>)
      requires Valid()
      modifies this, meta, client
      ensures Valid()
      ensures r.Ok? <==>
        && id != [] && requested != []
        && id in old(sessions) && old(sessions)[id].Key() == k
        && GoodUpTo(old(sessions)[id].parts, requested, |requested|)
      ensures r.Ok? ==> Step(old(State()), Complete(id, requested), State())
      ensures r.Ok? ==>
        var chosen := Listed(old(sessions)[id].parts, requested, |requested|);
        && r.value == MultipartETag(hashes, chosen)
        && k in meta.db.objects
        && meta.db.objects[k]
           == Object(k.bucket, k.key, PartSizeSum(chosen), old(sessions)[id].contentType, r.value, [], now,
                     |Flatten(chosen)|, DOCUMENT, MULTIPART)
        && ListChunks(meta.db, k) == Rows(k.bucket, k.key, Flatten(chosen))
      ensures r.Err? ==> State() == old(State())
    {
      hide Inv, View, Completes, PutInTx, Rows, Flatten, MultipartETag, Listed, PartSizeSum, Purged, Messages,
           GoodEntry, AfterDeletions, ListChunks;
      ghost var before := State();
      InvFacts(before);
      if id == [] || requested == [] {
        return Err(InvalidArgument);
      }
      if id !in sessions || sessions[id].bucket != k.bucket || sessions[id].key != k.key {
        return Err(NoSuchUpload);
      }
      var contentType := sessions[id].contentType;
      var chosen := CompleteParts(sessions[id].parts, requested);
      CompletesMeans(sessions[id].parts, requested, chosen);
      if chosen.Err? {
        return Err(BadParts(chosen.error));
      }
      var existing := meta.GetObject(k.bucket, k.key);
      var previous := if existing.Ok? then existing.value.chunks else [];
      PreviousChunks(meta.db, k);
      var o, rows := BuildMultipartObject(k.bucket, k.key, contentType, chosen.value, hashes, now);
      CompletionStep.BuiltEntryIsGood(before, id, requested, chosen.value, o);
      PutRefines(meta.db, k, Entry(o, rows));
      WrittenRow(meta.db, k, o, rows);
      var put := meta.PutObject(o, rows);
      CleanupReplacedChunks(previous);
      AllDeletionsPurge(before.cloud, previous, client.answers, old(client.calls));
      sessions := sessions - {id};
      assert CompleteWith(before, id, requested, State(), chosen.value, o);
      assert Step(before, Complete(id, requested), State());
      StepRefines(before, Complete(id, requested), State());
      r := Ok(o.etag);
    }

    // ----- CopyObject within one bot and chat -----

    /** copyObjectMetadataOnly: new rows over the same messages. The store's invariant survives it only in the cases
        CopySharesMessages names, so it promises no more than the rows. */
    method CopyObjectMetadataOnly(from: ObjectKey, to: ObjectKey, now: int) returns (r: Result<ByteString, StoreError>)
      requires WellFormed(meta.db)
      modifies meta
      ensures r.Ok? <==> from in old(View(meta.db))
      ensures r.Ok? ==> CopyWith(old(State()), from, to, State(), now) && r.value == old(View(meta.db))[from].info.etag
      ensures r.Ok? ==> HoldsCopy(old(meta.db), meta.db, from, to, now)
      ensures r.Err? ==> r == Err(NoSuchKey) && State() == old(State())
      ensures WellFormed(meta.db)
    {
      hide PutInTx, WellFormed, GoodEntry, HoldsCopy;
      ghost var before := meta.db;
      var found := meta.GetObject(from.bucket, from.key);
      if found.Err? {
        return Err(NoSuchKey);
      }
      var e := Rekeyed(found.value, to.bucket, to.key, now);
      CopiedEntryIsGood(meta.db, from, to, now);
      PutRefines(meta.db, to, e);
      var put := meta.PutObject(e.info, e.chunks);
      EntryIsACopy(before, meta.db, from, to, now);
      r := Ok(e.info.etag);
    }
  }

  /** A put that leaves a sound store unsound. A photo of one byte, of which Telegram keeps nothing, is put into an
      empty store; Telegram reports no size, so the row says one byte. */
  method UnreportedPutDangles(hashes: Hashes, k: ObjectKey, contentType: ByteString, now: int, randomETag: ByteString)
    returns (store: ObjectStore, ghost before: System, r: Result<ByteString, StoreError>)
    ensures before.db.objects == map[] && Inv(before)
    ensures fresh(store) && fresh(store.meta) && fresh(store.client)
    ensures r.Ok? && k in store.meta.db.objects && store.meta.db.objects[k].size == 1
    ensures WellFormed(store.meta.db) && !store.Valid()
  {
    hide Inv, Wrote, Misfit, Purged, Messages, Step, TypeName, StrategyName, Hex, CeilDiv, AfterDeletions, WellFormed,
         View, ChunksOf, ListChunks;
    var meta := new SQLiteStore();
    var client := new Client(_ => true, _ => false, _ => TooOld, (_, _) => []);
    EmptyStore(System(meta.db, client.cloud, map[]));
    store := new ObjectStore(meta, client, UploadConfig(true, false, 0, 0, map[]), hashes);
    before := store.State();
    r := store.PutObject(k, contentType, Photo, [0], 1, now, randomETag);
  }
}
