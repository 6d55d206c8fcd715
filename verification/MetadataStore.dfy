/** metadata/sqlite.go's store object: each method runs its statements on a transaction's copy of the tables and commits
    it only when all of them went through. */
module MetadataStore {
  import opened ByteStrings
  import opened Metadata
  import opened Tables
  import opened SQLite
  import opened PrefixCopy
  import opened Rename

  class SQLiteStore {
    var db: Db

    constructor ()
      ensures db == Db(map[], map[], map[])
    {
      db := Db(map[], map[], map[]);
    }

    method PutObject(o: Object, rows: seq<Chunk>) returns (r: Result<(), MetaError>)
      modifies this
      ensures var put := PutInTx(old(db), o, rows);
              if put.Some? then r.Ok? && db == put.value else r == Err(ConstraintFailed) && db == old(db)
    {
      var tx := DeleteChunks(db, KeyOfObject(o));
      tx := UpsertObject(tx, o);
      ghost var begun := tx;
      for i := 0 to |rows|
        invariant InsertChunks(begun, rows[..i]) == Some(tx)
      {
        assert rows[..i + 1][..i] == rows[..i];
        if KeyOfChunk(rows[i]) in tx.chunks {
          InsertFails(begun, rows, i + 1);
          return Err(ConstraintFailed);
        }
        tx := tx.(chunks := tx.chunks[KeyOfChunk(rows[i]) := rows[i]]);
      }
      assert rows[..|rows|] == rows;
      db := tx;
      r := Ok(());
    }

    method GetObject(bucket: ByteString, key: ByteString) returns (r: Result<Entry, MetaError>)
      ensures r == if ObjectKey(bucket, key) in View(db) then Ok(View(db)[ObjectKey(bucket, key)]) else Err(NotFound)
    {
      var k := ObjectKey(bucket, key);
      if k !in db.objects {
        return Err(NotFound);
      }
      r := Ok(Entry(db.objects[k], ListChunks(db, k)));
    }

    method DeleteObject(bucket: ByteString, key: ByteString)
      modifies this
      ensures db == DeleteInTx(old(db), ObjectKey(bucket, key))
    {
      var tx := DeleteChunks(db, ObjectKey(bucket, key));
      tx := tx.(objects := tx.objects - {ObjectKey(bucket, key)});
      db := tx;
    }

    method CopyObject(bucket: ByteString, src: ByteString, dst: ByteString, overwrite: bool, now: int)
      returns (r: Result<bool, MetaError>)
      modifies this
      ensures match CopyTx(old(db), bucket, src, dst, overwrite, now)
              case Err(e) => r == Err(e) && db == old(db)
              case Ok(t) => r == Ok(t.1) && db == t.0
    {
      var s, d := ObjectKey(bucket, src), ObjectKey(bucket, dst);
      if s !in db.objects {
        return Err(NotFound);
      }
      var chunks := ListChunks(db, s);
      var dstExists := d in db.objects;
      if dstExists && !overwrite {
        return Err(DestinationExists);
      }
      var o := db.objects[s].(bucket := bucket, key := dst, lastModified := now);
      var tx := PutInTx(db, o, CopyChunksForKey(chunks, bucket, dst));
      if tx.None? {
        return Err(ConstraintFailed);
      }
      db := tx.value;
      r := Ok(!dstExists);
    }

    method MoveObject(bucket: ByteString, src: ByteString, dst: ByteString, overwrite: bool, now: int)
      returns (r: Result<bool, MetaError>)
      modifies this
      ensures match MoveTx(old(db), bucket, src, dst, overwrite, now)
              case Err(e) => r == Err(e) && db == old(db)
              case Ok(t) => r == Ok(t.1) && db == t.0
    {
      if src == dst {
        return Err(SamePath);
      }
      var s, d := ObjectKey(bucket, src), ObjectKey(bucket, dst);
      if s !in db.objects {
        return Err(NotFound);
      }
      var chunks := ListChunks(db, s);
      var dstExists := d in db.objects;
      if dstExists && !overwrite {
        return Err(DestinationExists);
      }
      var o := db.objects[s].(bucket := bucket, key := dst, lastModified := now);
      var tx := PutInTx(db, o, CopyChunksForKey(chunks, bucket, dst));
      if tx.None? {
        return Err(ConstraintFailed);
      }
      db := DeleteInTx(tx.value, s);
      r := Ok(!dstExists);
    }

    method CopyPrefix(bucket: ByteString, src: ByteString, dst: ByteString, overwrite: bool, now: int)
      returns (r: Result<bool, MetaError>)
      modifies this
      ensures match CopyPrefixTx(old(db), bucket, src, dst, overwrite, now)
              case Err(e) => r == Err(e) && db == old(db)
              case Ok(t) => r == Ok(t.1) && db == t.0
    {
      var copied := CopyPrefixInTx(db, bucket, src, dst, overwrite, now);
      if copied.Err? {
        return Err(copied.error);
      }
      db := copied.value.0;
      r := Ok(copied.value.1);
    }

    method MovePrefix(bucket: ByteString, src: ByteString, dst: ByteString, overwrite: bool, now: int)
      returns (r: Result<bool, MetaError>)
      modifies this
      ensures match MovePrefixTx(old(db), bucket, src, dst, overwrite, now)
              case Err(e) => r == Err(e) && db == old(db)
              case Ok(t) => r == Ok(t.1) && db == t.0
    {
      if src == dst {
        return Err(SamePath);
      }
      var copied := CopyPrefixInTx(db, bucket, src, dst, overwrite, now);
      if copied.Err? {
        return Err(copied.error);
      }
      db := DeletePrefixTx(copied.value.0, bucket, src);
      r := Ok(copied.value.1);
    }

    method RenameBucket(from: ByteString, to: ByteString) returns (r: Result<(), MetaError>)
      modifies this
      ensures match RenameTx(old(db), from, to)
              case Err(e) => r == Err(e) && db == old(db)
              case Ok(t) => r.Ok? && db == t
    {
      if from == to {
        return Err(SamePath);
      }
      if from !in db.buckets {
        return Err(NotFound);
      }
      if to in db.buckets {
        return Err(DestinationExists);
      }
      var tx := db.(buckets := (db.buckets - {from})[to := db.buckets[from]]);
      if ObjectConflict(tx.objects, from, to) {
        return Err(ConstraintFailed);
      }
      tx := tx.(objects := UpdateObjects(tx.objects, from, to));
      if ChunkConflict(tx.chunks, from, to) {
        return Err(ConstraintFailed);
      }
      tx := tx.(chunks := UpdateChunks(tx.chunks, from, to));
      db := tx;
      r := Ok(());
    }
  }

  lemma {:induction false} InsertFails(db: Db, rows: seq<Chunk>, i: nat)
    requires i <= |rows| && InsertChunks(db, rows[..i]).None?
    ensures InsertChunks(db, rows).None?
    decreases |rows|
  {
    if i == |rows| {
      assert rows[..i] == rows;
    } else {
      var init := rows[..|rows| - 1];
      assert init[..i] == rows[..i];
      InsertFails(db, init, i);
    }
  }
}
