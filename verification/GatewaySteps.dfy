/** Each request keeps the store's invariant and does to the bodies exactly what it means. */
module GatewaySteps {
  import opened ByteStrings
  import opened Metadata
  import opened Telegram
  import opened Chunks
  import opened Uploads
  import opened Multipart
  import opened Tables
  import opened SQLite
  import opened Ownership
  import opened Gateway

  // ----- Shared by all requests -----

  /** A lineage under which the staged parts of one upload stay where they are. */
  ghost predicate KeepsUpload(from: Lineage, id: ByteString) {
    forall n, i :: from(Piece(id, n, i)) == Some(Piece(id, n, i))
  }

  lemma DraftsHandedOn(view: Entries, sessions: Sessions, cloud: Cloud, view': Entries, sessions': Sessions,
                       cloud': Cloud,
                       from: Lineage)
    requires Owned(view, sessions, cloud) && HandedOn(view, sessions, cloud, view', sessions', cloud', from)
    ensures forall id :: id in sessions && id in sessions' && sessions'[id] == sessions[id] && KeepsUpload(from, id) ==>
              DraftOf(sessions'[id], cloud'.documents) == DraftOf(sessions[id], cloud.documents)
  {
    hide Owned, HandedOn, PartBody;
    forall id | id in sessions && id in sessions' && sessions'[id] == sessions[id] && KeepsUpload(from, id)
      ensures DraftOf(sessions'[id], cloud'.documents) == DraftOf(sessions[id], cloud.documents)
    {
      forall n | n in sessions[id].parts
        ensures PartBody(cloud'.documents, sessions'[id].parts[n].chunks)
             == PartBody(cloud.documents, sessions[id].parts[n].chunks)
      {
        PartBodyHandedOn(view, sessions, cloud, view', sessions', cloud', from, id, n);
      }
    }
  }

  function ChunksAt(view: Entries, k: ObjectKey): seq<Chunk> {
    if k in view then view[k].chunks else []
  }

  /** The rows of `k` are newcomers, everything else stays where it is. */
  function Newcomers(k: ObjectKey): Lineage {
    (o: Owner) => if o.Row? && o.k == k then None else Some(o)
  }

  /** Another owner's document survives new messages and the deletion of the messages of `k`. */
  lemma DocumentSurvives(view: Entries, sessions: Sessions, cloud: Cloud, sent: Cloud, cloud': Cloud, k: ObjectKey,
                         o: Owner)
    requires Owned(view, sessions, cloud) && cloud.GrowsTo(sent)
    requires Purged(sent, cloud', Messages(ChunksAt(view, k)))
    requires ClaimOf(view, sessions, o).Some? && !(o.Row? && o.k == k)
    ensures SameDocument(cloud.documents, cloud'.documents, ClaimOf(view, sessions, o).value.file)
  {
    hide ClaimOf, Messages;
    assert Backed(cloud.documents, ClaimOf(view, sessions, o).value);
    if k in view {
      OthersSurvive(view, sessions, cloud, k, o);
    } else {
      NoMessages(ChunksAt(view, k));
    }
    assert SameDocument(sent.documents, cloud'.documents, ClaimOf(view, sessions, o).value.file);
  }

  lemma NoMessages(chunks: seq<Chunk>)
    requires chunks == []
    ensures forall id :: id !in Messages(chunks)
  {
  }

  lemma PurgedIsValid(cloud: Cloud, cloud': Cloud, ids: set<int>)
    requires cloud.Valid() && Purged(cloud, cloud', ids)
    ensures cloud'.Valid()
  {
  }

  // ----- Put -----

  lemma OldMessagesAreOld(view: Entries, sessions: Sessions, cloud: Cloud, k: ObjectKey, id: int)
    requires Owned(view, sessions, cloud) && cloud.Valid()
    requires id in Messages(ChunksAt(view, k))
    ensures id < cloud.next
  {
    if k in view {
      OwnedEntryIsReadable(view, sessions, cloud, k);
    }
  }

  lemma NewRowsAreBacked(before: Cloud, sent: Cloud, cloud': Cloud, chunks: seq<Chunk>, body: ByteString, ids: set<int>)
    requires before.Valid() && sent.Valid() && SentAfter(before, sent, chunks) && Holds(sent.documents, chunks, body)
    requires Purged(sent, cloud', ids) && forall id :: id in ids ==> id < before.next
    ensures forall i :: 0 <= i < |chunks| ==>
              chunks[i].telegramMessageID >= before.next && Backed(cloud'.documents, RowClaim(chunks[i]))
    ensures Holds(cloud'.documents, chunks, body)
  {
    forall i | 0 <= i < |chunks|
      ensures chunks[i].telegramMessageID >= before.next && Backed(cloud'.documents, RowClaim(chunks[i]))
      ensures SameDocument(sent.documents, cloud'.documents, chunks[i].telegramFileID)
    {
      assert chunks[i].telegramMessageID !in ids;
    }
    SameContent(sent.documents, cloud'.documents, chunks);
  }

  lemma PutHandsOn(view: Entries, sessions: Sessions, cloud: Cloud, sent: Cloud, cloud': Cloud, k: ObjectKey, e: Entry,
                   body: ByteString)
    requires Owned(view, sessions, cloud) && cloud.Valid() && sent.Valid()
    requires SentAfter(cloud, sent, e.chunks) && Holds(sent.documents, e.chunks, body)
    requires Purged(sent, cloud', Messages(ChunksAt(view, k)))
    ensures HandedOn(view, sessions, cloud, view[k := e], sessions, cloud', Newcomers(k))
    ensures Holds(cloud'.documents, e.chunks, body)
  {
    hide Owned, Holds, Messages, Purged;
    var view' := view[k := e];
    var replaced := Messages(ChunksAt(view, k));
    forall id | id in replaced ensures id < cloud.next {
      OldMessagesAreOld(view, sessions, cloud, k, id);
    }
    NewRowsAreBacked(cloud, sent, cloud', e.chunks, body, replaced);
    var from := Newcomers(k);
    forall o | ClaimOf(view', sessions, o).Some?
      ensures ComesFrom(view, sessions, cloud, cloud', ClaimOf(view', sessions, o).value, from(o))
    {
      if !(o.Row? && o.k == k) {
        assert ClaimOf(view', sessions, o) == ClaimOf(view, sessions, o);
        DocumentSurvives(view, sessions, cloud, sent, cloud', k, o);
      }
    }
  }

  /** A step that hands its claims on keeps the invariant. */
  lemma InvHandedOn(s: System, s': System, from: Lineage)
    requires Inv(s) && WellFormed(s'.db) && s'.cloud.Valid() && PartsAddUp(s'.sessions)
    requires HandedOn(View(s.db), s.sessions, s.cloud, View(s'.db), s'.sessions, s'.cloud, from)
    ensures Inv(s')
  {
    hide WellFormed, View, Owned, HandedOn, PartsAddUp;
    HandingOnKeepsOwned(View(s.db), s.sessions, s.cloud, View(s'.db), s'.sessions, s'.cloud, from);
  }

  lemma InvOwned(s: System)
    requires Inv(s)
    ensures WellFormed(s.db) && s.cloud.Valid() && Owned(View(s.db), s.sessions, s.cloud) && PartsAddUp(s.sessions)
  {
  }

  lemma PutStep(s: System, k: ObjectKey, body: ByteString, s': System, e: Entry, sent: Cloud)
    requires Inv(s) && PutWith(s, k, body, s', e, sent)
    ensures Inv(s') && Means(MeaningOf(s), Put(k, body), MeaningOf(s'))
  {
    hide Inv, View, WellFormed, Owned, GoodEntry, PutInTx, SentAfter, Holds, Messages, PartsAddUp, HandedOn, Purged,
         MeaningOf,
         Means;
    InvOwned(s);
    var view, from := View(s.db), Newcomers(k);
    PutRefines(s.db, k, e);
    ChunksInView(s.db, k);
    PutHandsOn(view, s.sessions, s.cloud, sent, s'.cloud, k, e, body);
    PurgedIsValid(sent, s'.cloud, Messages(ChunksOf(s.db, k)));
    InvHandedOn(s, s', from);
    PutMeans(s, k, body, s', e);
  }

  lemma ChunksInView(db: Db, k: ObjectKey)
    ensures ChunksOf(db, k) == ChunksAt(View(db), k)
  {
  }

  lemma PutMeans(s: System, k: ObjectKey, body: ByteString, s': System, e: Entry)
    requires Owned(View(s.db), s.sessions, s.cloud)
    requires View(s'.db) == View(s.db)[k := e] && s'.sessions == s.sessions && Holds(s'.cloud.documents, e.chunks, body)
    requires HandedOn(View(s.db), s.sessions, s.cloud, View(s'.db), s'.sessions, s'.cloud, Newcomers(k))
    ensures Means(MeaningOf(s), Put(k, body), MeaningOf(s'))
  {
    hide View, Owned, Holds, HandedOn, DraftOf, Body;
    DraftsHandedOn(View(s.db), s.sessions, s.cloud, View(s'.db), s.sessions, s'.cloud, Newcomers(k));
    OthersKeepTheirBodies(View(s.db), s.sessions, s.cloud, View(s'.db), s.sessions, s'.cloud, Newcomers(k), {k});
    HeldBody(s'.cloud.documents, e.chunks, body);
  }

  lemma HeldBody(documents: Documents, chunks: seq<Chunk>, body: ByteString)
    requires Holds(documents, chunks, body)
    ensures Body(documents, chunks) == body
  {
  }

  /** Entries whose rows stay where they are keep their bodies. */
  lemma OthersKeepTheirBodies(view: Entries, sessions: Sessions, cloud: Cloud, view': Entries, sessions': Sessions,
                              cloud': Cloud, from: Lineage, changed: set<ObjectKey>)
    requires Owned(view, sessions, cloud) && HandedOn(view, sessions, cloud, view', sessions', cloud', from)
    requires forall j, i :: j !in changed ==> from(Row(j, i)) == Some(Row(j, i))
    requires forall j :: j in view && j !in changed && j in view' ==> view'[j] == view[j]
    ensures forall j :: j in view && j !in changed && j in view' ==>
              Body(cloud'.documents, view'[j].chunks) == Body(cloud.documents, view[j].chunks)
  {
    hide Owned, HandedOn, Body;
    forall j | j in view && j !in changed && j in view'
      ensures Body(cloud'.documents, view'[j].chunks) == Body(cloud.documents, view[j].chunks)
    {
      BodyHandedOn(view, sessions, cloud, view', sessions', cloud', from, j, j);
    }
  }

  // ----- Delete -----

  lemma DeleteHandsOn(view: Entries, sessions: Sessions, cloud: Cloud, cloud': Cloud, k: ObjectKey)
    requires Owned(view, sessions, cloud)
    requires Purged(cloud, cloud', Messages(ChunksAt(view, k)))
    ensures HandedOn(view, sessions, cloud, view - {k}, sessions, cloud', Newcomers(k))
  {
    hide Owned, Messages, Purged;
    var view' := view - {k};
    forall o | ClaimOf(view', sessions, o).Some?
      ensures ComesFrom(view, sessions, cloud, cloud', ClaimOf(view', sessions, o).value, Newcomers(k)(o))
    {
      assert ClaimOf(view', sessions, o) == ClaimOf(view, sessions, o);
      DocumentSurvives(view, sessions, cloud, cloud, cloud', k, o);
    }
  }

  lemma DeleteStep(s: System, k: ObjectKey, s': System)
    requires Inv(s) && Step(s, Delete(k), s')
    ensures Inv(s') && Means(MeaningOf(s), Delete(k), MeaningOf(s'))
  {
    hide Inv, View, WellFormed, Owned, DeleteInTx, Messages, PartsAddUp, HandedOn, Purged, MeaningOf, Means;
    InvOwned(s);
    var from := Newcomers(k);
    DeleteRefines(s.db, k);
    ChunksInView(s.db, k);
    DeleteHandsOn(View(s.db), s.sessions, s.cloud, s'.cloud, k);
    PurgedIsValid(s.cloud, s'.cloud, Messages(ChunksOf(s.db, k)));
    InvHandedOn(s, s', from);
    DeleteMeans(s, k, s');
  }

  lemma DeleteMeans(s: System, k: ObjectKey, s': System)
    requires Owned(View(s.db), s.sessions, s.cloud)
    requires View(s'.db) == View(s.db) - {k} && s'.sessions == s.sessions
    requires HandedOn(View(s.db), s.sessions, s.cloud, View(s'.db), s'.sessions, s'.cloud, Newcomers(k))
    ensures Means(MeaningOf(s), Delete(k), MeaningOf(s'))
  {
    hide View, Owned, HandedOn, DraftOf, Body;
    DraftsHandedOn(View(s.db), s.sessions, s.cloud, View(s'.db), s.sessions, s'.cloud, Newcomers(k));
    OthersKeepTheirBodies(View(s.db), s.sessions, s.cloud, View(s'.db), s.sessions, s'.cloud, Newcomers(k), {k});
  }

  // ----- Relocations: moves, prefix moves and renames of buckets -----

  /** Rows of `k` come from the rows of `origin(k)`. */
  function From(origin: ObjectKey -> ObjectKey): Lineage {
    (o: Owner) => if o.Row? then Some(Row(origin(o.k), o.i)) else Some(o)
  }

  /** Every entry is the entry of its origin under another key, and no two entries have one origin. */
  ghost predicate Relocates(view: Entries, view': Entries, origin: ObjectKey -> ObjectKey) {
    && (forall k :: k in view' ==>
         && origin(k) in view
         && |view'[k].chunks| == |view[origin(k)].chunks|
         && forall i :: 0 <= i < |view'[k].chunks| ==>
              RowClaim(view'[k].chunks[i]) == RowClaim(view[origin(k)].chunks[i]))
    && (forall k, j :: k in view' && j in view' && origin(k) == origin(j) ==> k == j)
  }

  lemma RelocationHandsOn(view: Entries, sessions: Sessions, cloud: Cloud, view': Entries,
                          origin: ObjectKey -> ObjectKey)
    requires Owned(view, sessions, cloud) && Relocates(view, view', origin)
    ensures HandedOn(view, sessions, cloud, view', sessions, cloud, From(origin))
  {
    hide Owned;
    var from := From(origin);
    forall o | ClaimOf(view', sessions, o).Some?
      ensures ComesFrom(view, sessions, cloud, cloud, ClaimOf(view', sessions, o).value, from(o))
    {
    }
  }

  lemma RelocationStep(s: System, s': System, origin: ObjectKey -> ObjectKey)
    requires Inv(s) && WellFormed(s'.db) && s' == s.(db := s'.db)
    requires Relocates(View(s.db), View(s'.db), origin)
    ensures Inv(s')
    ensures MeaningOf(s').drafts == MeaningOf(s).drafts
    ensures MeaningOf(s').bodies.Keys == View(s'.db).Keys
    ensures forall k :: k in View(s'.db) ==>
              origin(k) in View(s.db) && MeaningOf(s').bodies[k] == MeaningOf(s).bodies[origin(k)]
  {
    hide Inv, View, WellFormed, Owned, PartsAddUp, HandedOn, DraftOf, Body;
    InvOwned(s);
    var view, view', from := View(s.db), View(s'.db), From(origin);
    RelocationHandsOn(view, s.sessions, s.cloud, view', origin);
    InvHandedOn(s, s', from);
    DraftsHandedOn(view, s.sessions, s.cloud, view', s.sessions, s.cloud, from);
    forall k | k in view'
      ensures Body(s.cloud.documents, view'[k].chunks) == Body(s.cloud.documents, view[origin(k)].chunks)
    {
      BodyHandedOn(view, s.sessions, s.cloud, view', s.sessions, s.cloud, from, origin(k), k);
    }
  }

  function MoveOrigin(s: ObjectKey, d: ObjectKey): ObjectKey -> ObjectKey {
    (k: ObjectKey) => if k == d then s else k
  }

  lemma MoveStep(s: System, bucket: ByteString, src: ByteString, dst: ByteString, s': System, overwrite: bool, now: int)
    requires Inv(s) && MoveWith(s, bucket, src, dst, s', overwrite, now)
    ensures Inv(s') && Means(MeaningOf(s), Move(bucket, src, dst), MeaningOf(s'))
  {
    hide Inv, View, WellFormed, MoveTx, Body, Drafts;
    InvOwned(s);
    var k, d := ObjectKey(bucket, src), ObjectKey(bucket, dst);
    MoveRefines(s.db, bucket, src, dst, overwrite, now);
    var view, view' := View(s.db), View(s'.db);
    assert Relocates(view, view', MoveOrigin(k, d));
    RelocationStep(s, s', MoveOrigin(k, d));
  }

  // ----- Storing a part -----

  function NewPart(id: ByteString, n: int): Lineage {
    (o: Owner) => if o.Piece? && o.id == id && o.part == n then None else Some(o)
  }

  lemma NewPiecesAreBacked(before: Cloud, now: Cloud, chunkSize: int, chunks: seq<MultipartChunk>, body: ByteString)
    requires PartSent(before, now, chunkSize, chunks, body)
    ensures before.GrowsTo(now) && now.Valid() && PartBody(now.documents, chunks) == body
    ensures forall i :: 0 <= i < |chunks| ==>
              chunks[i].telegramMessageID >= before.next && Backed(now.documents, PieceClaim(chunks[i]))
    ensures forall i, j :: 0 <= i < j < |chunks| ==> chunks[i].telegramMessageID != chunks[j].telegramMessageID
    ensures SizeSum(chunks) == |body|
  {
    RowsHold(now.documents, [], [], chunks);
    forall i, j | 0 <= i < j < |chunks| ensures chunks[i].telegramMessageID < chunks[j].telegramMessageID {
    }
  }

  lemma StorePartHandsOn(s: System, id: ByteString, n: int, body: ByteString, s': System, chunkSize: int,
                         part: MultipartPart)
    requires Owned(View(s.db), s.sessions, s.cloud) && StorePartWith(s, id, n, body, s', chunkSize, part)
    ensures HandedOn(View(s.db), s.sessions, s.cloud, View(s.db), s'.sessions, s'.cloud, NewPart(id, n))
  {
    hide Owned, View, PartSent;
    var view, from := View(s.db), NewPart(id, n);
    NewPiecesAreBacked(s.cloud, s'.cloud, chunkSize, part.chunks, body);
    forall o | ClaimOf(view, s'.sessions, o).Some?
      ensures ComesFrom(view, s.sessions, s.cloud, s'.cloud, ClaimOf(view, s'.sessions, o).value, from(o))
    {
      if !(o.Piece? && o.id == id && o.part == n) {
        assert ClaimOf(view, s'.sessions, o) == ClaimOf(view, s.sessions, o);
      }
    }
  }

  lemma StorePartStep(s: System, id: ByteString, n: int, body: ByteString, s': System, chunkSize: int,
                      part: MultipartPart)
    requires Inv(s) && StorePartWith(s, id, n, body, s', chunkSize, part)
    ensures Inv(s') && Means(MeaningOf(s), StorePart(id, n, body), MeaningOf(s'))
  {
    hide Inv, View, WellFormed, Owned, HandedOn, PartSent, MeaningOf, Means;
    InvOwned(s);
    NewPiecesAreBacked(s.cloud, s'.cloud, chunkSize, part.chunks, body);
    StorePartHandsOn(s, id, n, body, s', chunkSize, part);
    InvHandedOn(s, s', NewPart(id, n));
    StorePartMeans(s, id, n, body, s', chunkSize, part);
  }

  lemma StorePartMeans(s: System, id: ByteString, n: int, body: ByteString, s': System, chunkSize: int,
                       part: MultipartPart)
    requires Owned(View(s.db), s.sessions, s.cloud) && StorePartWith(s, id, n, body, s', chunkSize, part)
    requires HandedOn(View(s.db), s.sessions, s.cloud, View(s.db), s'.sessions, s'.cloud, NewPart(id, n))
    ensures Means(MeaningOf(s), StorePart(id, n, body), MeaningOf(s'))
  {
    hide View, Owned, HandedOn, Body, PartBody, PartSent, DraftOf;
    var view, from := View(s.db), NewPart(id, n);
    OthersKeepTheirBodies(view, s.sessions, s.cloud, view, s'.sessions, s'.cloud, from, {});
    assert MeaningOf(s').bodies == MeaningOf(s).bodies;
    DraftsHandedOn(view, s.sessions, s.cloud, view, s'.sessions, s'.cloud, from);
    StoredPartDraft(s, id, n, body, s', chunkSize, part);
    assert forall x :: x != id ==> KeepsUpload(from, x);
  }

  lemma StoredPartDraft(s: System, id: ByteString, n: int, body: ByteString, s': System, chunkSize: int,
                        part: MultipartPart)
    requires Owned(View(s.db), s.sessions, s.cloud) && StorePartWith(s, id, n, body, s', chunkSize, part)
    requires HandedOn(View(s.db), s.sessions, s.cloud, View(s.db), s'.sessions, s'.cloud, NewPart(id, n))
    ensures var d := DraftOf(s.sessions[id], s.cloud.documents);
            DraftOf(s'.sessions[id], s'.cloud.documents) == d.(parts := d.parts[n := body])
  {
    hide View, Owned, HandedOn, Body, PartBody, PartSent;
    NewPiecesAreBacked(s.cloud, s'.cloud, chunkSize, part.chunks, body);
    forall m | m in s.sessions[id].parts && m != n
      ensures PartBody(s'.cloud.documents, s'.sessions[id].parts[m].chunks)
           == PartBody(s.cloud.documents, s.sessions[id].parts[m].chunks)
    {
      PartBodyHandedOn(View(s.db), s.sessions, s.cloud, View(s.db), s'.sessions, s'.cloud, NewPart(id, n), id, m);
    }
  }
}
