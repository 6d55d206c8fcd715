/** The objects and object_chunks tables, and the statements the metadata store runs on them. */
module Tables {
  import opened ByteStrings
  import opened Metadata
  import opened SortedInts

  /** Primary keys. */
  datatype ObjectKey = ObjectKey(bucket: ByteString, key: ByteString)

  datatype ChunkKey = ChunkKey(owner: ObjectKey, part: int)

  datatype Db = Db(buckets: map<ByteString, ByteString>, objects: map<ObjectKey, Object>, chunks: map<ChunkKey, Chunk>)

  function KeyOfObject(o: Object): ObjectKey {
    ObjectKey(o.bucket, o.key)
  }

  function OwnerOfChunk(c: Chunk): ObjectKey {
    ObjectKey(c.bucket, c.key)
  }

  function KeyOfChunk(c: Chunk): ChunkKey {
    ChunkKey(OwnerOfChunk(c), c.partNumber)
  }

  /** Rows sit under their own primary keys. */
  ghost predicate Keyed(db: Db) {
    && (forall k :: k in db.objects ==> KeyOfObject(db.objects[k]) == k)
    && (forall k :: k in db.chunks ==> KeyOfChunk(db.chunks[k]) == k)
  }

  // ----- Statements -----

  /** DELETE FROM object_chunks WHERE bucket = ? AND key = ? */
  function DeleteChunks(db: Db, k: ObjectKey): Db {
    db.(chunks := map c | c in db.chunks && c.owner != k :: db.chunks[c])
  }

  /** INSERT INTO objects ... ON CONFLICT(bucket, key) DO UPDATE */
  function UpsertObject(db: Db, o: Object): Db {
    db.(objects := db.objects[KeyOfObject(o) := o])
  }

  /** INSERT INTO object_chunks, row by row; None is a primary-key conflict. */
  function InsertChunks(db: Db, rows: seq<Chunk>): Option<Db> {
    if rows == [] then Some(db)
    else
      match InsertChunks(db, rows[..|rows| - 1])
      case None => None
      case Some(d) =>
        var c := rows[|rows| - 1];
        if KeyOfChunk(c) in d.chunks then None else Some(d.(chunks := d.chunks[KeyOfChunk(c) := c]))
  }

  function PutInTx(db: Db, o: Object, rows: seq<Chunk>): Option<Db> {
    InsertChunks(UpsertObject(DeleteChunks(db, KeyOfObject(o)), o), rows)
  }

  /** DELETE of an object's chunk rows, then of its row. */
  function DeleteInTx(db: Db, k: ObjectKey): Db {
    var d := DeleteChunks(db, k);
    d.(objects := d.objects - {k})
  }

  // ----- SELECT ... FROM object_chunks WHERE bucket = ? AND key = ? ORDER BY part_number -----

  function Parts(db: Db, k: ObjectKey): set<int> {
    set c | c in db.chunks && c.owner == k :: c.part
  }

  lemma PartsAreRows(db: Db, k: ObjectKey)
    ensures forall i :: 0 <= i < |Sorted(Parts(db, k))| ==> ChunkKey(k, Sorted(Parts(db, k))[i]) in db.chunks
  {
    var parts := Sorted(Parts(db, k));
    SortedMeaning(Parts(db, k));
    forall i | 0 <= i < |parts| ensures ChunkKey(k, parts[i]) in db.chunks {
      assert parts[i] in parts;
      var c :| c in db.chunks && c.owner == k && c.part == parts[i];
      assert c == ChunkKey(k, parts[i]);
    }
  }

  function ListChunks(db: Db, k: ObjectKey): seq<Chunk> {
    var parts := Sorted(Parts(db, k));
    PartsAreRows(db, k);
    seq(|parts|, i requires 0 <= i < |parts| => db.chunks[ChunkKey(k, parts[i])])
  }

  /** Rows of one object in strictly ascending part order. */
  ghost predicate RowsFor(k: ObjectKey, rows: seq<Chunk>) {
    && (forall i :: 0 <= i < |rows| ==> OwnerOfChunk(rows[i]) == k)
    && (forall i, j :: 0 <= i < j < |rows| ==> rows[i].partNumber < rows[j].partNumber)
  }

  ghost predicate HasPart(rows: seq<Chunk>, p: int) {
    exists i :: 0 <= i < |rows| && rows[i].partNumber == p
  }

  /** `rows` are exactly the chunk rows of `k`, in part order. */
  ghost predicate IsListing(db: Db, k: ObjectKey, rows: seq<Chunk>) {
    && RowsFor(k, rows)
    && (forall i :: 0 <= i < |rows| ==>
         ChunkKey(k, rows[i].partNumber) in db.chunks && db.chunks[ChunkKey(k, rows[i].partNumber)] == rows[i])
    && (forall c :: c in db.chunks && c.owner == k ==> HasPart(rows, c.part))
  }

  lemma ListChunksIsListing(db: Db, k: ObjectKey)
    requires Keyed(db)
    ensures IsListing(db, k, ListChunks(db, k))
  {
    var parts := Sorted(Parts(db, k));
    SortedMeaning(Parts(db, k));
    PartsAreRows(db, k);
    var rows := ListChunks(db, k);
    forall i | 0 <= i < |rows| ensures KeyOfChunk(rows[i]) == ChunkKey(k, parts[i]) {
    }
    forall c | c in db.chunks && c.owner == k ensures HasPart(rows, c.part) {
      assert c.part in Parts(db, k) && c.part in parts;
      var i :| 0 <= i < |parts| && parts[i] == c.part;
      assert rows[i].partNumber == c.part;
    }
  }

  function PartNumbers(rows: seq<Chunk>): (ns: seq<int>)
    ensures |ns| == |rows|
  {
    seq(|rows|, i requires 0 <= i < |rows| => rows[i].partNumber)
  }

  lemma ListingIsUnique(db: Db, k: ObjectKey, rows: seq<Chunk>, rows': seq<Chunk>)
    requires IsListing(db, k, rows) && IsListing(db, k, rows')
    ensures rows == rows'
  {
    var a, b := PartNumbers(rows), PartNumbers(rows');
    forall x ensures x in a <==> x in b {
      PartNumbersCover(db, k, rows, rows', x);
      PartNumbersCover(db, k, rows', rows, x);
    }
    AscendingIsUnique(a, b);
    forall i | 0 <= i < |rows| ensures rows[i] == rows'[i] {
      assert a[i] == b[i];
    }
  }

  lemma PartNumbersCover(db: Db, k: ObjectKey, rows: seq<Chunk>, rows': seq<Chunk>, x: int)
    requires IsListing(db, k, rows) && IsListing(db, k, rows')
    ensures x in PartNumbers(rows) ==> x in PartNumbers(rows')
  {
    var a := PartNumbers(rows);
    if x in a {
      var i :| 0 <= i < |a| && a[i] == x;
      assert rows[i].partNumber == x;
      assert HasPart(rows', ChunkKey(k, x).part);
      var j :| 0 <= j < |rows'| && rows'[j].partNumber == x;
      assert PartNumbers(rows')[j] == x;
    }
  }

  // ----- What a put and a delete do to every chunk listing -----

  /** Rows of other objects are as they were. */
  ghost predicate OthersKept(db: Db, db': Db, k: ObjectKey) {
    && (forall c: ChunkKey :: c.owner != k ==> (c in db'.chunks <==> c in db.chunks))
    && (forall c: ChunkKey :: c.owner != k && c in db.chunks ==> db'.chunks[c] == db.chunks[c])
  }

  lemma InsertOneEffect(d: Db, k: ObjectKey, rows: seq<Chunk>, last: Chunk)
    requires Keyed(d) && IsListing(d, k, rows) && RowsFor(k, rows + [last])
    ensures var r := d.(chunks := d.chunks[KeyOfChunk(last) := last]);
            && KeyOfChunk(last) == ChunkKey(k, last.partNumber)
            && KeyOfChunk(last) !in d.chunks
            && IsListing(r, k, rows + [last]) && Keyed(r)
  {
    var all := rows + [last];
    assert all[|rows|] == last && forall i :: 0 <= i < |rows| ==> all[i] == rows[i];
    assert !HasPart(rows, last.partNumber);
    var r := d.(chunks := d.chunks[KeyOfChunk(last) := last]);
    forall c | c in r.chunks && c.owner == k ensures HasPart(all, c.part) {
      if c in d.chunks {
        var i :| 0 <= i < |rows| && rows[i].partNumber == c.part;
        assert all[i].partNumber == c.part;
      }
    }
  }

  lemma {:induction false} InsertChunksEffect(db: Db, k: ObjectKey, rows: seq<Chunk>)
    requires Keyed(db) && RowsFor(k, rows)
    requires forall c :: c in db.chunks ==> c.owner != k
    ensures var r := InsertChunks(db, rows);
            && r.Some? && Keyed(r.value)
            && r.value.objects == db.objects && r.value.buckets == db.buckets
            && IsListing(r.value, k, rows)
            && OthersKept(db, r.value, k)
  {
    if rows != [] {
      hide IsListing, Keyed;
      var init, last := rows[..|rows| - 1], rows[|rows| - 1];
      assert rows == init + [last];
      InsertChunksEffect(db, k, init);
      InsertOneEffect(InsertChunks(db, init).value, k, init, last);
    }
  }

  lemma SameListing(db: Db, db': Db, k: ObjectKey)
    requires Keyed(db) && Keyed(db')
    requires forall c: ChunkKey :: c.owner == k ==> (c in db'.chunks <==> c in db.chunks)
    requires forall c: ChunkKey :: c.owner == k && c in db.chunks ==> db'.chunks[c] == db.chunks[c]
    ensures ListChunks(db', k) == ListChunks(db, k)
  {
    ListChunksIsListing(db, k);
    ListChunksIsListing(db', k);
    ListingIsUnique(db', k, ListChunks(db', k), ListChunks(db, k));
  }

  /** A put of rows in ascending part order succeeds, and changes one object and its chunk listing. */
  lemma PutEffect(db: Db, o: Object, rows: seq<Chunk>)
    requires Keyed(db) && RowsFor(KeyOfObject(o), rows)
    ensures var k := KeyOfObject(o);
            var r := PutInTx(db, o, rows);
            && r.Some? && Keyed(r.value)
            && r.value.buckets == db.buckets
            && r.value.objects == db.objects[k := o]
            && ListChunks(r.value, k) == rows
            && (forall j :: j != k ==> ListChunks(r.value, j) == ListChunks(db, j))
  {
    var k := KeyOfObject(o);
    var cleared := UpsertObject(DeleteChunks(db, k), o);
    InsertChunksEffect(cleared, k, rows);
    var r := PutInTx(db, o, rows).value;
    ListChunksIsListing(r, k);
    ListingIsUnique(r, k, ListChunks(r, k), rows);
    forall j | j != k ensures ListChunks(r, j) == ListChunks(db, j) {
      SameListing(db, r, j);
    }
  }

  /** Putting rows of which two share a part number is refused. */
  lemma DuplicatePartsAreRefused(db: Db, o: Object, rows: seq<Chunk>, i: nat, j: nat)
    requires i < j < |rows| && KeyOfChunk(rows[i]) == KeyOfChunk(rows[j])
    ensures PutInTx(db, o, rows).None?
  {
    var cleared := UpsertObject(DeleteChunks(db, KeyOfObject(o)), o);
    InsertKeepsKeys(cleared, rows, i, j);
  }

  lemma {:induction false} InsertKeepsKeys(db: Db, rows: seq<Chunk>, i: nat, j: nat)
    requires i < j <= |rows| && (j < |rows| ==> KeyOfChunk(rows[i]) == KeyOfChunk(rows[j]))
    ensures InsertChunks(db, rows).Some? ==> j == |rows| && KeyOfChunk(rows[i]) in InsertChunks(db, rows).value.chunks
    decreases |rows|
  {
    var init := rows[..|rows| - 1];
    if i < |init| {
      InsertKeepsKeys(db, init, i, if j <= |init| then j else |init|);
    }
  }

  lemma DeleteEffect(db: Db, k: ObjectKey)
    requires Keyed(db)
    ensures var d := DeleteInTx(db, k);
            && Keyed(d) && d.buckets == db.buckets && d.objects == db.objects - {k}
            && ListChunks(d, k) == []
            && (forall j :: j != k ==> ListChunks(d, j) == ListChunks(db, j))
  {
    var d := DeleteInTx(db, k);
    ListChunksIsListing(d, k);
    ListingIsUnique(d, k, ListChunks(d, k), []);
    forall j | j != k ensures ListChunks(d, j) == ListChunks(db, j) {
      SameListing(db, d, j);
    }
  }
}
