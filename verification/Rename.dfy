/** SQLiteStore.RenameBucket: three UPDATEs in one transaction. */
module Rename {
  import opened ByteStrings
  import opened Metadata
  import opened Chunks
  import opened Tables
  import opened SQLite

  function RenameKey(k: ObjectKey, from: ByteString, to: ByteString): ObjectKey {
    if k.bucket == from then ObjectKey(to, k.key) else k
  }

  function RenameChunkKey(c: ChunkKey, from: ByteString, to: ByteString): ChunkKey {
    ChunkKey(RenameKey(c.owner, from, to), c.part)
  }

  type Objects = map<ObjectKey, Object>
  type ChunkRows = map<ChunkKey, Chunk>

  /** The UPDATE breaks a primary key: a row of `from` has a namesake in `to`. */
  predicate ObjectConflict(objects: Objects, from: ByteString, to: ByteString) {
    exists k :: k in objects && k.bucket == from && ObjectKey(to, k.key) in objects
  }

  predicate ChunkConflict(chunks: ChunkRows, from: ByteString, to: ByteString) {
    exists c :: c in chunks && c.owner.bucket == from && ChunkKey(ObjectKey(to, c.owner.key), c.part) in chunks
  }

  /** The key a renamed row had before. */
  function OldKey(objects: Objects, k: ObjectKey, from: ByteString, to: ByteString): ObjectKey {
    if k.bucket == to && ObjectKey(from, k.key) in objects then ObjectKey(from, k.key) else k
  }

  function OldChunkKey(chunks: ChunkRows, c: ChunkKey, from: ByteString, to: ByteString): ChunkKey {
    var o := ChunkKey(ObjectKey(from, c.owner.key), c.part);
    if c.owner.bucket == to && o in chunks then o else c
  }

  /** UPDATE objects SET bucket = to WHERE bucket = from */
  function UpdateObjects(objects: Objects, from: ByteString, to: ByteString): Objects {
    var keys := set k | k in objects :: RenameKey(k, from, to);
    map k | k in keys && OldKey(objects, k, from, to) in objects
      :: objects[OldKey(objects, k, from, to)].(bucket := k.bucket)
  }

  /** UPDATE object_chunks SET bucket = to WHERE bucket = from */
  function UpdateChunks(chunks: ChunkRows, from: ByteString, to: ByteString): ChunkRows {
    var keys := set c | c in chunks :: RenameChunkKey(c, from, to);
    map c | c in keys && OldChunkKey(chunks, c, from, to) in chunks
      :: chunks[OldChunkKey(chunks, c, from, to)].(bucket := c.owner.bucket)
  }

  function RenameTx(db: Db, from: ByteString, to: ByteString): Result<Db, MetaError> {
    if from == to then Err(SamePath)
    else if from !in db.buckets then Err(NotFound)
    else if to in db.buckets then Err(DestinationExists)
    else if ObjectConflict(db.objects, from, to) || ChunkConflict(db.chunks, from, to) then Err(ConstraintFailed)
    else
      Ok(Db((db.buckets - {from})[to := db.buckets[from]],
            UpdateObjects(db.objects, from, to),
            UpdateChunks(db.chunks, from, to)))
  }

  lemma UpdatedObjects(objects: Objects, from: ByteString, to: ByteString)
    requires from != to && !ObjectConflict(objects, from, to)
    requires forall k :: k in objects ==> KeyOfObject(objects[k]) == k
    ensures var d := UpdateObjects(objects, from, to);
            && (forall k :: k in d ==> OldKey(objects, k, from, to) in objects
                                       && k == RenameKey(OldKey(objects, k, from, to), from, to))
            && (forall k :: k in objects ==>
                 var n := RenameKey(k, from, to);
                 n in d && OldKey(objects, n, from, to) == k && d[n] == objects[k].(bucket := n.bucket))
  {
    var d := UpdateObjects(objects, from, to);
    forall k | k in objects ensures OldKey(objects, RenameKey(k, from, to), from, to) == k {
      assert ObjectKey(to, ObjectKey(from, k.key).key) == ObjectKey(to, k.key);
    }
    forall k | k in d ensures k == RenameKey(OldKey(objects, k, from, to), from, to) {
      var o :| o in objects && k == RenameKey(o, from, to);
    }
  }

  lemma UpdatedChunks(chunks: ChunkRows, from: ByteString, to: ByteString)
    requires from != to && !ChunkConflict(chunks, from, to)
    requires forall c :: c in chunks ==> KeyOfChunk(chunks[c]) == c
    ensures var d := UpdateChunks(chunks, from, to);
            && (forall c :: c in d ==> OldChunkKey(chunks, c, from, to) in chunks
                                       && c == RenameChunkKey(OldChunkKey(chunks, c, from, to), from, to))
            && (forall c :: c in chunks ==>
                 var n := RenameChunkKey(c, from, to);
                 n in d && OldChunkKey(chunks, n, from, to) == c && d[n] == chunks[c].(bucket := n.owner.bucket))
  {
    var d := UpdateChunks(chunks, from, to);
    forall c | c in chunks ensures OldChunkKey(chunks, RenameChunkKey(c, from, to), from, to) == c {
      var other := ChunkKey(ObjectKey(from, c.owner.key), c.part);
      assert ChunkKey(ObjectKey(to, other.owner.key), other.part) == ChunkKey(ObjectKey(to, c.owner.key), c.part);
    }
    forall c | c in d ensures c == RenameChunkKey(OldChunkKey(chunks, c, from, to), from, to) {
      var o :| o in chunks && c == RenameChunkKey(o, from, to);
    }
  }

  function RenamedEntry(e: Entry, bucket: ByteString): Entry {
    Entry(e.info.(bucket := bucket), CopyChunksForKey(e.chunks, bucket, e.info.key))
  }

  /** The chunk listing of an object moves with it when the other side has none. */
  lemma RenamedListing(db: Db, d: Db, from: ByteString, to: ByteString, k: ObjectKey)
    requires Keyed(db) && Keyed(d) && from != to && !ChunkConflict(db.chunks, from, to)
    requires d.chunks == UpdateChunks(db.chunks, from, to)
    requires k.bucket == to ==> ListChunks(db, ObjectKey(from, k.key)) == []
    requires k.bucket == from ==> ListChunks(db, ObjectKey(to, k.key)) == []
    ensures var n := RenameKey(k, from, to);
            ListChunks(d, n) == CopyChunksForKey(ListChunks(db, k), n.bucket, k.key)
  {
    hide ListChunks, UpdateChunks, ChunkConflict;
    var n := RenameKey(k, from, to);
    var renamed := CopyChunksForKey(ListChunks(db, k), n.bucket, k.key);
    ListChunksIsListing(d, n);
    RenamedRowsAreThere(db, d, from, to, k);
    forall c | c in d.chunks && c.owner == n ensures HasPart(renamed, c.part) {
      RenamedRowIsListed(db, d, from, to, k, c);
    }
    ListingIsUnique(d, n, ListChunks(d, n), renamed);
  }

  lemma RenamedRowsAreThere(db: Db, d: Db, from: ByteString, to: ByteString, k: ObjectKey)
    requires Keyed(db) && from != to && !ChunkConflict(db.chunks, from, to)
    requires d.chunks == UpdateChunks(db.chunks, from, to)
    ensures var n := RenameKey(k, from, to);
            var renamed := CopyChunksForKey(ListChunks(db, k), n.bucket, k.key);
            && RowsFor(n, renamed)
            && (forall i :: 0 <= i < |renamed| ==>
                 && ChunkKey(n, renamed[i].partNumber) in d.chunks
                 && d.chunks[ChunkKey(n, renamed[i].partNumber)] == renamed[i])
  {
    hide ListChunks, UpdateChunks, ChunkConflict;
    var n := RenameKey(k, from, to);
    UpdatedChunks(db.chunks, from, to);
    var rows := ListChunks(db, k);
    ListChunksIsListing(db, k);
    var renamed := CopyChunksForKey(rows, n.bucket, k.key);
    forall i | 0 <= i < |renamed|
      ensures ChunkKey(n, renamed[i].partNumber) in d.chunks
      ensures d.chunks[ChunkKey(n, renamed[i].partNumber)] == renamed[i]
    {
      assert RenameChunkKey(ChunkKey(k, rows[i].partNumber), from, to) == ChunkKey(n, rows[i].partNumber);
    }
  }

  lemma RenamedRowIsListed(db: Db, d: Db, from: ByteString, to: ByteString, k: ObjectKey, c: ChunkKey)
    requires Keyed(db) && from != to && !ChunkConflict(db.chunks, from, to)
    requires d.chunks == UpdateChunks(db.chunks, from, to)
    requires k.bucket == to ==> ListChunks(db, ObjectKey(from, k.key)) == []
    requires k.bucket == from ==> ListChunks(db, ObjectKey(to, k.key)) == []
    requires c in d.chunks && c.owner == RenameKey(k, from, to)
    ensures HasPart(CopyChunksForKey(ListChunks(db, k), c.owner.bucket, k.key), c.part)
  {
    hide ListChunks, UpdateChunks, ChunkConflict;
    UpdatedChunks(db.chunks, from, to);
    var rows := ListChunks(db, k);
    ListChunksIsListing(db, k);
    var o := OldChunkKey(db.chunks, c, from, to);
    OldOwner(db, o, k, from, to);
    assert HasPart(rows, o.part);
    var i :| 0 <= i < |rows| && rows[i].partNumber == c.part;
    assert CopyChunksForKey(rows, c.owner.bucket, k.key)[i].partNumber == c.part;
  }

  lemma OldOwner(db: Db, o: ChunkKey, k: ObjectKey, from: ByteString, to: ByteString)
    requires Keyed(db) && o in db.chunks
    requires RenameKey(o.owner, from, to) == RenameKey(k, from, to)
    requires k.bucket == to ==> ListChunks(db, ObjectKey(from, k.key)) == []
    requires k.bucket == from ==> ListChunks(db, ObjectKey(to, k.key)) == []
    ensures o.owner == k
  {
    hide ListChunks;
    ListChunksIsListing(db, o.owner);
    assert HasPart(ListChunks(db, o.owner), o.part);
  }

  /** For well-formed tables a rename succeeds iff the names differ, the source bucket exists, the target bucket does
      not, and no object row of the target is in the way; it then moves every entry of the bucket, chunks and all, and
      keeps every other entry. */
  lemma RenameRefines(db: Db, from: ByteString, to: ByteString)
    requires WellFormed(db)
    ensures var r := RenameTx(db, from, to);
            && (r.Ok? <==>
                 from != to && from in db.buckets && to !in db.buckets && !ObjectConflict(db.objects, from, to))
            && (r.Ok? ==>
                 && WellFormed(r.value)
                 && r.value.buckets == (db.buckets - {from})[to := db.buckets[from]]
                 && (forall k :: k in View(db) ==>
                      var n := RenameKey(k, from, to);
                      n in View(r.value) && View(r.value)[n] == RenamedEntry(View(db)[k], n.bucket))
                 && (forall k :: k in db.objects ==>
                      var n := if k.bucket == from then ObjectKey(to, k.key) else k;
                      HoldsCopy(db, r.value, k, n, db.objects[k].lastModified))
                 && (forall n :: n in View(r.value) ==> exists k :: k in View(db) && n == RenameKey(k, from, to)))
  {
    hide ListChunks, UpdateObjects, UpdateChunks, Contiguous, Total, HoldsCopy, RenamedEntry;
    NoOrphanRows(db);
    if ChunkConflict(db.chunks, from, to) {
      var c :| c in db.chunks && c.owner.bucket == from && ChunkKey(ObjectKey(to, c.owner.key), c.part) in db.chunks;
      assert c.owner in db.objects && ObjectKey(to, c.owner.key) in db.objects;
    }
    if RenameTx(db, from, to).Ok? {
      RenameOutcome(db, from, to);
      var d := RenameTx(db, from, to).value;
      forall k | k in db.objects
        ensures var n := if k.bucket == from then ObjectKey(to, k.key) else k;
                HoldsCopy(db, d, k, n, db.objects[k].lastModified)
      {
        RenamedIsACopy(db, d, from, to, k);
      }
    }
  }

  lemma RenamedIsACopy(db: Db, d: Db, from: ByteString, to: ByteString, k: ObjectKey)
    requires k in View(db) && KeyOfObject(db.objects[k]) == k
    requires var n := RenameKey(k, from, to); n in View(d) && View(d)[n] == RenamedEntry(View(db)[k], n.bucket)
    ensures var n := if k.bucket == from then ObjectKey(to, k.key) else k;
            HoldsCopy(db, d, k, n, db.objects[k].lastModified)
  {
    hide ListChunks;
  }

  lemma RenameOutcome(db: Db, from: ByteString, to: ByteString)
    requires WellFormed(db) && RenameTx(db, from, to).Ok?
    ensures var d := RenameTx(db, from, to).value;
            && WellFormed(d)
            && (forall k :: k in View(db) ==>
                 var n := RenameKey(k, from, to);
                 n in View(d) && View(d)[n] == RenamedEntry(View(db)[k], n.bucket))
            && (forall n :: n in View(d) ==> exists k :: k in View(db) && n == RenameKey(k, from, to))
  {
    hide ListChunks, UpdateObjects, UpdateChunks, Contiguous, Total, ObjectConflict, ChunkConflict;
    var d := RenameTx(db, from, to).value;
    UpdatedObjects(db.objects, from, to);
    UpdatedChunks(db.chunks, from, to);
    assert Keyed(d);
    forall k | k in db.objects
      ensures var n := RenameKey(k, from, to);
              && n in d.objects && Entry(d.objects[n], ListChunks(d, n)) == RenamedEntry(View(db)[k], n.bucket)
              && GoodEntry(n, Entry(d.objects[n], ListChunks(d, n)))
    {
      var n := RenameKey(k, from, to);
      Namesakes(db, from, to, k);
      RenamedListing(db, d, from, to, k);
      RekeyedIsGood(k, View(db)[k], n.bucket, k.key, View(db)[k].info.lastModified);
    }
    forall n | n !in d.objects ensures ListChunks(d, n) == [] {
      StrayListing(db, d, from, to, n);
    }
  }

  lemma Namesakes(db: Db, from: ByteString, to: ByteString, k: ObjectKey)
    requires WellFormed(db) && !ObjectConflict(db.objects, from, to) && k in db.objects
    ensures k.bucket == to ==> ListChunks(db, ObjectKey(from, k.key)) == []
    ensures k.bucket == from ==> ListChunks(db, ObjectKey(to, k.key)) == []
  {
    hide ListChunks;
    var f := ObjectKey(from, k.key);
    assert ObjectKey(to, f.key) == ObjectKey(to, k.key);
  }

  lemma StrayListing(db: Db, d: Db, from: ByteString, to: ByteString, n: ObjectKey)
    requires WellFormed(db) && Keyed(d) && RenameTx(db, from, to) == Ok(d)
    requires n !in d.objects
    ensures ListChunks(d, n) == []
  {
    hide ListChunks, UpdateObjects, UpdateChunks, Contiguous, Total, ObjectConflict, ChunkConflict;
    UpdatedObjects(db.objects, from, to);
    UpdatedChunks(db.chunks, from, to);
    ListChunksIsListing(d, n);
    NoOrphanRows(db);
    forall c | c in d.chunks ensures c.owner in d.objects {
      assert c == RenameChunkKey(OldChunkKey(db.chunks, c, from, to), from, to);
    }
    ListingIsUnique(d, n, ListChunks(d, n), []);
  }
}
