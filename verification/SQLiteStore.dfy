/** metadata/sqlite.go: transactions over the two tables, and the map from keys to (object, chunks) they refine. */
module SQLite {
  import opened ByteStrings
  import opened Metadata
  import opened Chunks
  import opened Tables

  datatype MetaError = NotFound | DestinationExists | SamePath | ConstraintFailed

  // ----- The map the tables stand for -----

  datatype Entry = Entry(info: Object, chunks: seq<Chunk>)

  /** chunk_count rows numbered 1..chunk_count, offsets contiguous from 0, sizes adding up to the object's size. */
  ghost predicate GoodEntry(k: ObjectKey, e: Entry) {
    && KeyOfObject(e.info) == k
    && (forall i :: 0 <= i < |e.chunks| ==> OwnerOfChunk(e.chunks[i]) == k)
    && |e.chunks| == e.info.chunkCount
    && Contiguous(e.chunks)
    && Total(e.chunks) == e.info.size
  }

  ghost predicate WellFormed(db: Db) {
    && Keyed(db)
    && (forall k :: k in db.objects ==> GoodEntry(k, Entry(db.objects[k], ListChunks(db, k))))
    && (forall k :: k !in db.objects ==> ListChunks(db, k) == [])
  }

  ghost function View(db: Db): map<ObjectKey, Entry> {
    map k | k in db.objects :: Entry(db.objects[k], ListChunks(db, k))
  }

  lemma ViewMeaning(db: Db)
    ensures forall k :: k in View(db) <==> k in db.objects
    ensures forall k :: k in View(db) ==> View(db)[k] == Entry(db.objects[k], ListChunks(db, k))
  {
  }

  lemma GoodRows(k: ObjectKey, e: Entry)
    requires GoodEntry(k, e)
    ensures RowsFor(k, e.chunks)
  {
  }

  /** In well-formed tables every chunk row belongs to an object and is numbered within its chunk count. */
  lemma NoOrphanRows(db: Db)
    requires WellFormed(db)
    ensures forall c :: c in db.chunks ==> c.owner in db.objects && 1 <= c.part <= db.objects[c.owner].chunkCount
  {
    forall c | c in db.chunks ensures c.owner in db.objects && 1 <= c.part <= db.objects[c.owner].chunkCount {
      ListChunksIsListing(db, c.owner);
      assert HasPart(ListChunks(db, c.owner), c.part);
    }
  }

  /** A put of a good entry writes that entry, and leaves the rest of the map alone. */
  lemma PutRefines(db: Db, k: ObjectKey, e: Entry)
    requires WellFormed(db) && GoodEntry(k, e)
    ensures var r := PutInTx(db, e.info, e.chunks);
            && r.Some? && WellFormed(r.value)
            && View(r.value) == View(db)[k := e]
            && r.value.buckets == db.buckets
  {
    hide PutInTx, ListChunks, Contiguous, Total;
    GoodRows(k, e);
    PutEffect(db, e.info, e.chunks);
  }

  lemma DeleteRefines(db: Db, k: ObjectKey)
    requires WellFormed(db)
    ensures WellFormed(DeleteInTx(db, k)) && View(DeleteInTx(db, k)) == View(db) - {k}
    ensures DeleteInTx(db, k).buckets == db.buckets
  {
    hide DeleteInTx, ListChunks, Contiguous, Total;
    DeleteEffect(db, k);
  }

  // ----- Copies and moves of one object -----

  function Rekeyed(e: Entry, bucket: ByteString, key: ByteString, now: int): Entry {
    Entry(e.info.(bucket := bucket, key := key, lastModified := now), CopyChunksForKey(e.chunks, bucket, key))
  }

  function CopyChunksForKey(chunks: seq<Chunk>, bucket: ByteString, key: ByteString): (r: seq<Chunk>)
    ensures |r| == |chunks|
  {
    seq(|chunks|, i requires 0 <= i < |chunks| => chunks[i].(bucket := bucket, key := key))
  }

  lemma {:induction false} RekeyedTotal(chunks: seq<Chunk>, bucket: ByteString, key: ByteString)
    ensures Total(CopyChunksForKey(chunks, bucket, key)) == Total(chunks)
  {
    if chunks != [] {
      RekeyedTotal(chunks[..|chunks| - 1], bucket, key);
      var r := CopyChunksForKey(chunks, bucket, key);
      assert r[..|r| - 1] == CopyChunksForKey(chunks[..|chunks| - 1], bucket, key);
    }
  }

  lemma RekeyedIsGood(k: ObjectKey, e: Entry, bucket: ByteString, key: ByteString, now: int)
    requires GoodEntry(k, e)
    ensures GoodEntry(ObjectKey(bucket, key), Rekeyed(e, bucket, key, now))
  {
    RekeyedTotal(e.chunks, bucket, key);
    var r := CopyChunksForKey(e.chunks, bucket, key);
    forall i | 0 <= i < |r| ensures r[i].offset == Total(r[..i]) {
      RekeyedTotal(e.chunks[..i], bucket, key);
      assert r[..i] == CopyChunksForKey(e.chunks[..i], bucket, key);
    }
  }

  /** CopyObject's transaction. */
  function CopyTx(db: Db, bucket: ByteString, src: ByteString, dst: ByteString, overwrite: bool, now: int):
    Result<(Db, bool), MetaError>
  {
    var s, d := ObjectKey(bucket, src), ObjectKey(bucket, dst);
    if s !in db.objects then Err(NotFound)
    else if d in db.objects && !overwrite then Err(DestinationExists)
    else
      var e := Rekeyed(Entry(db.objects[s], ListChunks(db, s)), bucket, dst, now);
      match PutInTx(db, e.info, e.chunks)
      case None => Err(ConstraintFailed)
      case Some(tx) => Ok((tx, d !in db.objects))
  }

  /** MoveObject's transaction: refuses a move onto itself, copies, then deletes the source. */
  function MoveTx(db: Db, bucket: ByteString, src: ByteString, dst: ByteString, overwrite: bool, now: int):
    Result<(Db, bool), MetaError>
  {
    if src == dst then Err(SamePath)
    else
      match CopyTx(db, bucket, src, dst, overwrite, now)
      case Err(e) => Err(e)
      case Ok(r) => Ok((DeleteInTx(r.0, ObjectKey(bucket, src)), r.1))
  }

  /** `to` holds `from`'s object: its row and chunk rows with the key, the bucket and the modification time changed, and
      nothing else. */
  ghost predicate HoldsCopy(db: Db, tx: Db, from: ObjectKey, to: ObjectKey, now: int) {
    && from in db.objects && to in tx.objects
    && tx.objects[to] == db.objects[from].(bucket := to.bucket, key := to.key, lastModified := now)
    && |ListChunks(tx, to)| == |ListChunks(db, from)|
    && forall i :: 0 <= i < |ListChunks(tx, to)| ==>
         ListChunks(tx, to)[i] == ListChunks(db, from)[i].(bucket := to.bucket, key := to.key)
  }

  lemma RekeyedIsACopy(db: Db, tx: Db, from: ObjectKey, to: ObjectKey, now: int)
    requires from in db.objects && to in tx.objects
    ensures Entry(tx.objects[to], ListChunks(tx, to))
              == Rekeyed(Entry(db.objects[from], ListChunks(db, from)), to.bucket, to.key, now)
       <==> HoldsCopy(db, tx, from, to, now)
  {
    hide ListChunks;
  }

  /** A copy succeeds iff there is a source and it may write the destination; it then adds one entry, with the
      source's own chunks, and nothing else. */
  lemma CopyRefines(db: Db, bucket: ByteString, src: ByteString, dst: ByteString, overwrite: bool, now: int)
    requires WellFormed(db)
    ensures var s, d := ObjectKey(bucket, src), ObjectKey(bucket, dst);
            var r := CopyTx(db, bucket, src, dst, overwrite, now);
            && (r.Ok? <==> s in View(db) && (d in View(db) ==> overwrite))
            && (r.Ok? ==>
                 && WellFormed(r.value.0)
                 && View(r.value.0) == View(db)[d := Rekeyed(View(db)[s], bucket, dst, now)]
                 && HoldsCopy(db, r.value.0, s, d, now)
                 && r.value.0.buckets == db.buckets
                 && (r.value.1 <==> d !in View(db)))
  {
    hide ListChunks, PutInTx, Contiguous, Total;
    var s := ObjectKey(bucket, src);
    if s in db.objects {
      var e := Entry(db.objects[s], ListChunks(db, s));
      RekeyedIsGood(s, e, bucket, dst, now);
      PutRefines(db, ObjectKey(bucket, dst), Rekeyed(e, bucket, dst, now));
      var r := CopyTx(db, bucket, src, dst, overwrite, now);
      if r.Ok? {
        EntryIsACopy(db, r.value.0, s, ObjectKey(bucket, dst), now);
      }
    }
  }

  lemma EntryIsACopy(db: Db, tx: Db, from: ObjectKey, to: ObjectKey, now: int)
    requires from in View(db) && to in View(tx) && View(tx)[to] == Rekeyed(View(db)[from], to.bucket, to.key, now)
    ensures HoldsCopy(db, tx, from, to, now)
  {
    hide ListChunks, Rekeyed, HoldsCopy;
    RekeyedIsACopy(db, tx, from, to, now);
  }

  /** A move is a copy that takes the source away; a move onto itself is refused. */
  lemma MoveRefines(db: Db, bucket: ByteString, src: ByteString, dst: ByteString, overwrite: bool, now: int)
    requires WellFormed(db)
    ensures var s, d := ObjectKey(bucket, src), ObjectKey(bucket, dst);
            var r := MoveTx(db, bucket, src, dst, overwrite, now);
            && (r.Ok? <==> src != dst && s in View(db) && (d in View(db) ==> overwrite))
            && (r.Ok? ==>
                 && WellFormed(r.value.0)
                 && View(r.value.0) == View(db)[d := Rekeyed(View(db)[s], bucket, dst, now)] - {s}
                 && HoldsCopy(db, r.value.0, s, d, now)
                 && r.value.0.buckets == db.buckets
                 && (r.value.1 <==> d !in View(db)))
  {
    hide View, WellFormed, DeleteInTx, CopyTx, HoldsCopy;
    CopyRefines(db, bucket, src, dst, overwrite, now);
    var c := CopyTx(db, bucket, src, dst, overwrite, now);
    if src != dst && c.Ok? {
      DeleteRefines(c.value.0, ObjectKey(bucket, src));
      var s, d := ObjectKey(bucket, src), ObjectKey(bucket, dst);
      EntryIsACopy(db, DeleteInTx(c.value.0, s), s, d, now);
    }
  }
}
