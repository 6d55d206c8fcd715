/** Who owns which Telegram message: the live chunk rows, and the chunks of parts not yet completed. */
module Ownership {
  import opened ByteStrings
  import opened Metadata
  import opened Telegram
  import opened Chunks
  import opened Multipart
  import opened Tables
  import opened SQLite

  /** An upload between CreateMultipartUpload and its completion, abort or eviction. */
  datatype Session = Session(
    bucket: ByteString, key: ByteString, contentType: ByteString, createdAt: int, parts: Parts)
  {
    function Key(): ObjectKey {
      ObjectKey(bucket, key)
    }
  }

  type Sessions = map<ByteString, Session>
  type Entries = map<ObjectKey, Entry>

  /** The i-th chunk row of an object, or the i-th chunk of an uploaded part. */
  datatype Owner = Row(k: ObjectKey, i: int) | Piece(id: ByteString, part: int, i: int)

  datatype Claim = Claim(file: int, message: int, size: int)

  function RowClaim(c: Chunk): Claim {
    Claim(c.telegramFileID, c.telegramMessageID, c.size)
  }

  function PieceClaim(c: MultipartChunk): Claim {
    Claim(c.telegramFileID, c.telegramMessageID, c.size)
  }

  function ClaimOf(view: Entries, sessions: Sessions, o: Owner): Option<Claim> {
    match o
    case Row(k, i) => if k in view && 0 <= i < |view[k].chunks| then Some(RowClaim(view[k].chunks[i])) else None
    case Piece(id, n, i) =>
      if id in sessions && n in sessions[id].parts && 0 <= i < |sessions[id].parts[n].chunks|
      then Some(PieceClaim(sessions[id].parts[n].chunks[i])) else None
  }

  predicate Backed(documents: Documents, c: Claim) {
    c.file == c.message && c.size > 0 && c.file in documents && |documents[c.file]| == c.size
  }

  predicate SameMessage(view: Entries, sessions: Sessions, o: Owner, p: Owner) {
    var c, d := ClaimOf(view, sessions, o), ClaimOf(view, sessions, p);
    c.Some? && d.Some? && c.value.message == d.value.message
  }

  /** Every claimed document can be downloaded and has the claimed size, and no two owners share a message. */
  ghost predicate Owned(view: Entries, sessions: Sessions, cloud: Cloud) {
    && (forall o :: ClaimOf(view, sessions, o).Some? ==> Backed(cloud.documents, ClaimOf(view, sessions, o).value))
    && (forall o, p :: SameMessage(view, sessions, o, p) ==> o == p)
  }

  // ----- One step of the store, seen through its owners -----

  /** Where an owner's claim comes from: from an owner before the step, or (None) from a message sent during it. */
  type Lineage = Owner -> Option<Owner>

  predicate SameDocument(documents: Documents, documents': Documents, id: int) {
    id in documents ==> id in documents' && documents'[id] == documents[id]
  }

  ghost predicate ComesFrom(view: Entries, sessions: Sessions, cloud: Cloud, cloud': Cloud, c: Claim,
                            from: Option<Owner>)
  {
    match from
    case None => c.message >= cloud.next && Backed(cloud'.documents, c)
    case Some(p) => ClaimOf(view, sessions, p) == Some(c) && SameDocument(cloud.documents, cloud'.documents, c.file)
  }

  /** Claims are handed on one to one, documents and all, or are new and distinct. */
  ghost predicate HandedOn(view: Entries, sessions: Sessions, cloud: Cloud, view': Entries, sessions': Sessions,
                           cloud': Cloud, from: Lineage)
  {
    && (forall o :: ClaimOf(view', sessions', o).Some? ==>
         ComesFrom(view, sessions, cloud, cloud', ClaimOf(view', sessions', o).value, from(o)))
    && (forall o, p :: SameOrigin(view', sessions', from, o, p) ==> o == p)
  }

  predicate SameOrigin(view': Entries, sessions': Sessions, from: Lineage, o: Owner, p: Owner) {
    && ClaimOf(view', sessions', o).Some? && ClaimOf(view', sessions', p).Some?
    && from(o) == from(p)
    && (from(o).None? ==> SameMessage(view', sessions', o, p))
  }

  lemma HandingOnKeepsOwned(view: Entries, sessions: Sessions, cloud: Cloud, view': Entries, sessions': Sessions,
                            cloud': Cloud, from: Lineage)
    requires Owned(view, sessions, cloud) && cloud.Valid()
    requires HandedOn(view, sessions, cloud, view', sessions', cloud', from)
    ensures Owned(view', sessions', cloud')
  {
    hide ClaimOf;
    forall o | ClaimOf(view', sessions', o).Some?
      ensures Backed(cloud'.documents, ClaimOf(view', sessions', o).value)
      ensures from(o).Some? <==> ClaimOf(view', sessions', o).value.message < cloud.next
    {
      var c := ClaimOf(view', sessions', o).value;
      assert ComesFrom(view, sessions, cloud, cloud', c, from(o));
      if from(o).Some? {
        assert Backed(cloud.documents, ClaimOf(view, sessions, from(o).value).value);
      }
    }
    forall o, p | SameMessage(view', sessions', o, p) ensures o == p {
      assert ComesFrom(view, sessions, cloud, cloud', ClaimOf(view', sessions', o).value, from(o));
      assert ComesFrom(view, sessions, cloud, cloud', ClaimOf(view', sessions', p).value, from(p));
      if from(o).Some? {
        assert SameMessage(view, sessions, from(o).value, from(p).value);
      }
      assert SameOrigin(view', sessions', from, o, p);
    }
  }

  // ----- What owners store -----

  ghost function Body(documents: Documents, chunks: seq<Chunk>): ByteString {
    if Readable(documents, chunks) then Content(documents, chunks) else []
  }

  ghost function PartBody(documents: Documents, chunks: seq<MultipartChunk>): ByteString {
    if PartReadable(documents, chunks) then PartContent(documents, chunks) else []
  }

  lemma OwnedEntryIsReadable(view: Entries, sessions: Sessions, cloud: Cloud, k: ObjectKey)
    requires Owned(view, sessions, cloud) && k in view
    ensures Readable(cloud.documents, view[k].chunks)
    ensures forall i :: 0 <= i < |view[k].chunks| ==> Backed(cloud.documents, RowClaim(view[k].chunks[i]))
  {
    var chunks := view[k].chunks;
    forall i | 0 <= i < |chunks| ensures Backed(cloud.documents, RowClaim(chunks[i])) {
      assert ClaimOf(view, sessions, Row(k, i)) == Some(RowClaim(chunks[i]));
    }
  }

  lemma OwnedPartIsReadable(view: Entries, sessions: Sessions, cloud: Cloud, id: ByteString, n: int)
    requires Owned(view, sessions, cloud) && id in sessions && n in sessions[id].parts
    ensures PartReadable(cloud.documents, sessions[id].parts[n].chunks)
  {
    var chunks := sessions[id].parts[n].chunks;
    forall i | 0 <= i < |chunks| ensures Backed(cloud.documents, PieceClaim(chunks[i])) {
      assert ClaimOf(view, sessions, Piece(id, n, i)) == Some(PieceClaim(chunks[i]));
    }
  }

  /** Two chunk lists over the same documents store the same body. */
  lemma {:induction false} SameBody(documents: Documents, documents': Documents, a: seq<Chunk>, b: seq<Chunk>)
    requires |a| == |b| && Readable(documents, a)
    requires forall i :: 0 <= i < |a| ==>
               RowClaim(a[i]) == RowClaim(b[i]) && SameDocument(documents, documents', a[i].telegramFileID)
    ensures Readable(documents', b) && Content(documents', b) == Content(documents, a)
  {
    assert forall i :: 0 <= i < |a| ==> RowClaim(a[i]) == RowClaim(b[i]);
    if a != [] {
      SameBody(documents, documents', a[..|a| - 1], b[..|b| - 1]);
    }
  }

  /** An entry whose rows all come from one entry's rows stores what that entry stored. */
  lemma BodyHandedOn(view: Entries, sessions: Sessions, cloud: Cloud, view': Entries, sessions': Sessions,
                     cloud': Cloud,
                     from: Lineage, k: ObjectKey, k': ObjectKey)
    requires Owned(view, sessions, cloud) && HandedOn(view, sessions, cloud, view', sessions', cloud', from)
    requires k in view && k' in view' && |view'[k'].chunks| == |view[k].chunks|
    requires forall i :: 0 <= i < |view[k].chunks| ==> from(Row(k', i)) == Some(Row(k, i))
    ensures Body(cloud'.documents, view'[k'].chunks) == Body(cloud.documents, view[k].chunks)
  {
    var a, b := view[k].chunks, view'[k'].chunks;
    OwnedEntryIsReadable(view, sessions, cloud, k);
    forall i | 0 <= i < |a|
      ensures RowClaim(a[i]) == RowClaim(b[i]) && SameDocument(cloud.documents, cloud'.documents, a[i].telegramFileID)
    {
      assert ClaimOf(view', sessions', Row(k', i)) == Some(RowClaim(b[i]));
      assert ComesFrom(view, sessions, cloud, cloud', RowClaim(b[i]), from(Row(k', i)));
    }
    SameBody(cloud.documents, cloud'.documents, a, b);
  }

  /** A part that stays as it is keeps its body. */
  lemma PartBodyHandedOn(view: Entries, sessions: Sessions, cloud: Cloud, view': Entries, sessions': Sessions,
                         cloud': Cloud, from: Lineage, id: ByteString, n: int)
    requires Owned(view, sessions, cloud) && HandedOn(view, sessions, cloud, view', sessions', cloud', from)
    requires id in sessions && n in sessions[id].parts && id in sessions' && n in sessions'[id].parts
    requires sessions'[id].parts[n] == sessions[id].parts[n]
    requires forall i :: 0 <= i < |sessions[id].parts[n].chunks| ==> from(Piece(id, n, i)) == Some(Piece(id, n, i))
    ensures PartBody(cloud'.documents, sessions'[id].parts[n].chunks)
         == PartBody(cloud.documents, sessions[id].parts[n].chunks)
  {
    var chunks := sessions[id].parts[n].chunks;
    OwnedPartIsReadable(view, sessions, cloud, id, n);
    forall i | 0 <= i < |chunks| ensures SameDocument(cloud.documents, cloud'.documents, chunks[i].telegramFileID) {
      assert ClaimOf(view', sessions', Piece(id, n, i)) == Some(PieceClaim(chunks[i]));
      assert ComesFrom(view, sessions, cloud, cloud', PieceClaim(chunks[i]), from(Piece(id, n, i)));
    }
    PartContentKept(cloud.documents, cloud'.documents, chunks);
  }

  // ----- Deleting messages -----

  function Messages(chunks: seq<Chunk>): set<int> {
    set i | 0 <= i < |chunks| :: chunks[i].telegramMessageID
  }

  /** Some of `ids` have been deleted, and nothing else has changed. */
  ghost predicate Purged(cloud: Cloud, cloud': Cloud, ids: set<int>) {
    && cloud'.next == cloud.next
    && (forall id :: id !in ids ==> SameDocument(cloud.documents, cloud'.documents, id))
    && (forall id :: id in cloud'.documents ==> id in cloud.documents && cloud'.documents[id] == cloud.documents[id])
  }

  /** Deleting one object's messages leaves every other owner's document alone. */
  lemma OthersSurvive(view: Entries, sessions: Sessions, cloud: Cloud, k: ObjectKey, o: Owner)
    requires Owned(view, sessions, cloud) && k in view
    requires ClaimOf(view, sessions, o).Some? && !(o.Row? && o.k == k)
    ensures ClaimOf(view, sessions, o).value.message !in Messages(view[k].chunks)
  {
    var chunks := view[k].chunks;
    forall i | 0 <= i < |chunks| ensures chunks[i].telegramMessageID != ClaimOf(view, sessions, o).value.message {
      assert ClaimOf(view, sessions, Row(k, i)) == Some(RowClaim(chunks[i]));
      assert SameMessage(view, sessions, o, Row(k, i)) ==> o == Row(k, i);
    }
  }

  // ----- Deleting the messages of one object, answer by answer -----

  /** The first `n` chunks' messages have been asked for, and call `start + i` answered for chunk `i`. */
  function AfterDeletions(cloud: Cloud, chunks: seq<Chunk>, answers: nat -> Deletion, start: nat, n: nat): Cloud
    requires n <= |chunks|
  {
    if n == 0 then cloud
    else
      AfterDeletions(cloud, chunks, answers, start, n - 1)
        .Answered(chunks[n - 1].telegramMessageID, answers(start + n - 1))
  }

  lemma PurgeOneMore(start: Cloud, before: Cloud, after: Cloud, chunks: seq<Chunk>, i: nat)
    requires i < |chunks|
    requires Purged(start, before, Messages(chunks[..i])) && Purged(before, after, {chunks[i].telegramMessageID})
    ensures Purged(start, after, Messages(chunks[..i + 1]))
  {
    forall id
      ensures id in Messages(chunks[..i + 1]) <==> id in Messages(chunks[..i]) || id == chunks[i].telegramMessageID
    {
      MessageOneMore(chunks, i, id);
    }
    hide Messages;
    forall id | id !in Messages(chunks[..i + 1]) ensures SameDocument(start.documents, after.documents, id) {
      assert SameDocument(start.documents, before.documents, id);
      assert SameDocument(before.documents, after.documents, id);
    }
  }

  lemma MessageOneMore(chunks: seq<Chunk>, i: nat, id: int)
    requires i < |chunks|
    ensures id in Messages(chunks[..i + 1]) <==> id in Messages(chunks[..i]) || id == chunks[i].telegramMessageID
  {
    var a, b := chunks[..i], chunks[..i + 1];
    if id in Messages(a) {
      var x :| 0 <= x < |a| && a[x].telegramMessageID == id;
      assert b[x] == a[x];
    }
    if id in Messages(b) {
      var x :| 0 <= x < |b| && b[x].telegramMessageID == id;
      assert x < i ==> a[x] == b[x];
    }
    assert b[i] == chunks[i];
  }

  lemma NoDeletions(cloud: Cloud, chunks: seq<Chunk>, answers: nat -> Deletion, start: nat)
    ensures AfterDeletions(cloud, chunks, answers, start, 0) == cloud
  {
  }

  lemma OneMoreDeletion(cloud: Cloud, chunks: seq<Chunk>, answers: nat -> Deletion, start: nat, n: nat)
    requires n < |chunks|
    ensures AfterDeletions(cloud, chunks, answers, start, n + 1)
         == AfterDeletions(cloud, chunks, answers, start, n).Answered(chunks[n].telegramMessageID, answers(start + n))
  {
  }

  lemma AnswerPurges(cloud: Cloud, id: int, answer: Deletion)
    ensures Purged(cloud, cloud.Answered(id, answer), {id})
  {
  }

  /** Whatever the answers, only these chunks' messages can have gone. */
  lemma {:induction false} DeletionsPurge(cloud: Cloud, chunks: seq<Chunk>, answers: nat -> Deletion, start: nat,
                                          n: nat)
    requires n <= |chunks|
    ensures Purged(cloud, AfterDeletions(cloud, chunks, answers, start, n), Messages(chunks[..n]))
  {
    if n > 0 {
      hide Messages;
      DeletionsPurge(cloud, chunks, answers, start, n - 1);
      var mid := AfterDeletions(cloud, chunks, answers, start, n - 1);
      AnswerPurges(mid, chunks[n - 1].telegramMessageID, answers(start + n - 1));
      PurgeOneMore(cloud, mid, AfterDeletions(cloud, chunks, answers, start, n), chunks, n - 1);
    }
  }

  lemma AllDeletionsPurge(cloud: Cloud, chunks: seq<Chunk>, answers: nat -> Deletion, start: nat)
    ensures Purged(cloud, AfterDeletions(cloud, chunks, answers, start, |chunks|), Messages(chunks))
  {
    DeletionsPurge(cloud, chunks, answers, start, |chunks|);
    assert chunks[..|chunks|] == chunks;
  }

  /** A message whose deletion took effect stays gone. */
  lemma {:induction false} DeletedIsGone(cloud: Cloud, chunks: seq<Chunk>, answers: nat -> Deletion, start: nat,
                                         n: nat, i: nat)
    requires i < n <= |chunks| && answers(start + i).MessageGone()
    ensures chunks[i].telegramMessageID !in AfterDeletions(cloud, chunks, answers, start, n).documents
    decreases n
  {
    if i < n - 1 {
      DeletedIsGone(cloud, chunks, answers, start, n - 1, i);
    }
  }

  /** Deletions that took no effect change nothing. */
  lemma {:induction false} NothingDeleted(cloud: Cloud, chunks: seq<Chunk>, answers: nat -> Deletion, start: nat,
                                          n: nat)
    requires n <= |chunks|
    requires forall i :: start <= i < start + n ==> !answers(i).MessageGone()
    ensures AfterDeletions(cloud, chunks, answers, start, n) == cloud
  {
    if n > 0 {
      NothingDeleted(cloud, chunks, answers, start, n - 1);
    }
  }
}
