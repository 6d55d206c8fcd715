/** copyPrefixInTx, deletePrefixInTx and the transactions over them. The object rows are read once, up front; each
    chunk list is read when its turn comes, after earlier turns have written. */
module PrefixCopy {
  import opened ByteStrings
  import opened Like
  import opened Metadata
  import opened Chunks
  import opened SortedKeys
  import opened Tables
  import opened SQLite

  /** SELECT ... WHERE bucket = ? AND key LIKE escape(prefix)||'%' */
  function MatchingKeys(db: Db, bucket: ByteString, prefix: ByteString): set<ByteString> {
    set k | k in db.objects && k.bucket == bucket && SqlPrefix(prefix, k.key) :: k.key
  }

  lemma KeysHaveRows(db: Db, bucket: ByteString, prefix: ByteString)
    ensures var ks := SortKeys(MatchingKeys(db, bucket, prefix));
            && KeysAscend(ks)
            && (forall i :: 0 <= i < |ks| ==> ObjectKey(bucket, ks[i]) in db.objects)
            && (forall k :: k in ks <==> ObjectKey(bucket, k) in db.objects && SqlPrefix(prefix, k))
  {
    hide SqlPrefix, Lt, KeysAscend;
    var s := MatchingKeys(db, bucket, prefix);
    SortKeysMeaning(s);
    forall k ensures k in s <==> ObjectKey(bucket, k) in db.objects && SqlPrefix(prefix, k) {
      if k in s {
        var o :| o in db.objects && o.bucket == bucket && SqlPrefix(prefix, o.key) && o.key == k;
        assert o == ObjectKey(bucket, k);
      }
    }
    var ks := SortKeys(s);
    forall i | 0 <= i < |ks| ensures ObjectKey(bucket, ks[i]) in db.objects {
      assert ks[i] in ks;
    }
  }

  /** The snapshot of object rows a prefix copy starts from, in key order. */
  function Snapshot(db: Db, bucket: ByteString, prefix: ByteString): (rows: seq<Object>) {
    var ks := SortKeys(MatchingKeys(db, bucket, prefix));
    KeysHaveRows(db, bucket, prefix);
    seq(|ks|, i requires 0 <= i < |ks| => db.objects[ObjectKey(bucket, ks[i])])
  }

  /** dstPrefix + strings.TrimPrefix(src.Key, srcPrefix) */
  function Target(key: ByteString, src: ByteString, dst: ByteString): ByteString {
    dst + TrimPrefix(key, src)
  }

  /** One turn of the loop: check the target, read the source's chunks as they are now, put. */
  function CopyRow(db: Db, bucket: ByteString, src: ByteString, dst: ByteString, overwrite: bool, now: int,
                   row: Object):
    Result<(Db, bool), MetaError>
  {
    var target := Target(row.key, src, dst);
    var targetExisted := ObjectKey(bucket, target) in db.objects;
    if targetExisted && !overwrite then Err(DestinationExists)
    else
      var e := Rekeyed(Entry(row, ListChunks(db, ObjectKey(bucket, row.key))), bucket, target, now);
      match PutInTx(db, e.info, e.chunks)
      case None => Err(ConstraintFailed)
      case Some(tx) => Ok((tx, targetExisted))
  }

  /** The transaction after the first `n` turns, and whether no target existed yet. */
  function CopyRows(db: Db, bucket: ByteString, src: ByteString, dst: ByteString, overwrite: bool, now: int,
                    rows: seq<Object>, n: nat): Result<(Db, bool), MetaError>
    requires n <= |rows|
  {
    if n == 0 then Ok((db, true))
    else
      match CopyRows(db, bucket, src, dst, overwrite, now, rows, n - 1)
      case Err(e) => Err(e)
      case Ok(r) =>
        match CopyRow(r.0, bucket, src, dst, overwrite, now, rows[n - 1])
        case Err(e) => Err(e)
        case Ok(t) => Ok((t.0, r.1 && !t.1))
  }

  function CopyPrefixTx(db: Db, bucket: ByteString, src: ByteString, dst: ByteString, overwrite: bool, now: int):
    Result<(Db, bool), MetaError>
  {
    var rows := Snapshot(db, bucket, src);
    CopyRows(db, bucket, src, dst, overwrite, now, rows, |rows|)
  }

  /** DELETE FROM object_chunks / objects WHERE bucket = ? AND key LIKE escape(prefix)||'%' */
  function DeletePrefixTx(db: Db, bucket: ByteString, prefix: ByteString): Db {
    db.(chunks := map c | c in db.chunks && !(c.owner.bucket == bucket && SqlPrefix(prefix, c.owner.key))
                    :: db.chunks[c],
        objects := map k | k in db.objects && !(k.bucket == bucket && SqlPrefix(prefix, k.key)) :: db.objects[k])
  }

  function MovePrefixTx(db: Db, bucket: ByteString, src: ByteString, dst: ByteString, overwrite: bool, now: int):
    Result<(Db, bool), MetaError>
  {
    if src == dst then Err(SamePath)
    else
      match CopyPrefixTx(db, bucket, src, dst, overwrite, now)
      case Err(e) => Err(e)
      case Ok(r) => Ok((DeletePrefixTx(r.0, bucket, src), r.1))
  }

  /** copyPrefixInTx: the loop, over a transaction's tables. */
  method CopyPrefixInTx(db: Db, bucket: ByteString, src: ByteString, dst: ByteString, overwrite: bool, now: int)
    returns (r: Result<(Db, bool), MetaError>)
    ensures r == CopyPrefixTx(db, bucket, src, dst, overwrite, now)
  {
    hide SortKeys, MatchingKeys, CopyRow, Snapshot;
    var rows := Snapshot(db, bucket, src);
    var tx := db;
    var created := true;
    var n := 0;
    while n < |rows|
      invariant n <= |rows|
      invariant CopyRows(db, bucket, src, dst, overwrite, now, rows, n) == Ok((tx, created))
    {
      var turn := CopyRow(tx, bucket, src, dst, overwrite, now, rows[n]);
      if turn.Err? {
        PrefixFailure(db, bucket, src, dst, overwrite, now, rows, n + 1, |rows|);
        return Err(turn.error);
      }
      if turn.value.1 {
        created := false;
      }
      tx := turn.value.0;
      n := n + 1;
    }
    r := Ok((tx, created));
  }

  lemma {:induction false} PrefixFailure(db: Db, bucket: ByteString, src: ByteString, dst: ByteString, overwrite: bool,
                                         now: int, rows: seq<Object>, i: nat, n: nat)
    requires i <= n <= |rows| && CopyRows(db, bucket, src, dst, overwrite, now, rows, i).Err?
    ensures CopyRows(db, bucket, src, dst, overwrite, now, rows, n)
         == CopyRows(db, bucket, src, dst, overwrite, now, rows, i)
    decreases n
  {
    hide CopyRow;
    if i < n {
      PrefixFailure(db, bucket, src, dst, overwrite, now, rows, i, n - 1);
    }
  }

  // ----- What a prefix copy does -----

  /** No row of the bucket passes the prefix test only by ignoring case. */
  ghost predicate ExactBucket(db: Db, bucket: ByteString, prefix: ByteString) {
    forall k :: k in db.objects && k.bucket == bucket ==> !CaseVariant(prefix, k.key)
  }

  /** The snapshot of a bucket whose prefix test is exact. */
  ghost predicate IsSnapshot(db: Db, bucket: ByteString, src: ByteString, rows: seq<Object>) {
    && (forall i, j :: 0 <= i < j < |rows| ==> Lt(rows[i].key, rows[j].key))
    && (forall i :: 0 <= i < |rows| ==>
         && src <= rows[i].key
         && ObjectKey(bucket, rows[i].key) in db.objects
         && rows[i] == db.objects[ObjectKey(bucket, rows[i].key)])
    && (forall k :: ObjectKey(bucket, k) in db.objects && src <= k ==> exists i :: 0 <= i < |rows| && rows[i].key == k)
  }

  lemma SnapshotIsExact(db: Db, bucket: ByteString, src: ByteString)
    requires Keyed(db) && ExactBucket(db, bucket, src)
    ensures IsSnapshot(db, bucket, src, Snapshot(db, bucket, src))
  {
    hide SortKeys, MatchingKeys, SqlPrefix, Lt;
    var ks := SortKeys(MatchingKeys(db, bucket, src));
    KeysHaveRows(db, bucket, src);
    var rows := Snapshot(db, bucket, src);
    forall i | 0 <= i < |rows| ensures rows[i].key == ks[i] && src <= ks[i] {
      assert ks[i] in ks;
      SqlPrefixMeaning(src, ks[i]);
    }
    forall k | ObjectKey(bucket, k) in db.objects && src <= k ensures exists i :: 0 <= i < |rows| && rows[i].key == k {
      SqlPrefixMeaning(src, k);
      assert k in ks;
      var i :| 0 <= i < |ks| && ks[i] == k;
      assert rows[i].key == k;
    }
  }

  /** The turn among the first `n` that writes `key`, or -1. */
  function Writer(rows: seq<Object>, src: ByteString, dst: ByteString, n: nat, key: ByteString): (m: int)
    requires n <= |rows|
    ensures -1 <= m < n
    ensures m >= 0 ==> Target(rows[m].key, src, dst) == key
  {
    if n == 0 then -1
    else if Target(rows[n - 1].key, src, dst) == key then n - 1
    else Writer(rows, src, dst, n - 1, key)
  }

  /** The source whose chunks turn `m` reads: its own, unless an earlier turn wrote its key. */
  function Origin(rows: seq<Object>, src: ByteString, dst: ByteString, m: nat): (o: nat)
    requires m < |rows|
    ensures o <= m
    decreases m
  {
    var w := Writer(rows, src, dst, m, rows[m].key);
    if w < 0 then m else Origin(rows, src, dst, w)
  }

  lemma TargetIsInjective(a: ByteString, b: ByteString, src: ByteString, dst: ByteString)
    requires src <= a && src <= b && Target(a, src, dst) == Target(b, src, dst)
    ensures a == b
  {
    assert a[|src|..] == Target(a, src, dst)[|dst|..];
    assert b[|src|..] == Target(b, src, dst)[|dst|..];
    assert a == src + a[|src|..] && b == src + b[|src|..];
  }

  /** Distinct sources under the prefix have distinct targets, so a target's writer is its own turn. */
  lemma {:induction false} WriterOfTarget(rows: seq<Object>, src: ByteString, dst: ByteString, n: nat, m: nat)
    requires n <= |rows| && m < |rows|
    requires forall a, b :: 0 <= a < b < |rows| ==> Lt(rows[a].key, rows[b].key)
    requires forall a :: 0 <= a < |rows| ==> src <= rows[a].key
    ensures Writer(rows, src, dst, n, Target(rows[m].key, src, dst)) == if m < n then m else -1
  {
    hide Lt, Target;
    if n > 0 {
      WriterOfTarget(rows, src, dst, n - 1, m);
      if Target(rows[n - 1].key, src, dst) == Target(rows[m].key, src, dst) {
        TargetIsInjective(rows[n - 1].key, rows[m].key, src, dst);
        LtIrreflexive(rows[m].key);
      }
    }
  }

  /** The tables after `n` turns: every target written so far holds its source's row with the chunks of the source's
      origin, every other key is untouched. */
  ghost predicate CopiedUpTo(db: Db, tx: Db, bucket: ByteString, src: ByteString, dst: ByteString, now: int,
                             rows: seq<Object>, n: nat)
    requires n <= |rows|
  {
    && Keyed(tx) && tx.buckets == db.buckets
    && (forall k: ObjectKey :: k.bucket != bucket || Writer(rows, src, dst, n, k.key) < 0 ==> SameEntry(db, tx, k))
    && (forall m :: 0 <= m < n ==> Written(db, tx, bucket, src, dst, now, rows, m))
  }

  ghost predicate SameEntry(db: Db, tx: Db, k: ObjectKey) {
    && ListChunks(tx, k) == ListChunks(db, k)
    && (k in tx.objects <==> k in db.objects)
    && (k in db.objects ==> tx.objects[k] == db.objects[k])
  }

  ghost predicate Written(db: Db, tx: Db, bucket: ByteString, src: ByteString, dst: ByteString, now: int,
                          rows: seq<Object>, m: nat)
    requires m < |rows|
  {
    var t := Target(rows[m].key, src, dst);
    var o := ObjectKey(bucket, rows[Origin(rows, src, dst, m)].key);
    var k := ObjectKey(bucket, t);
    && k in tx.objects
    && Entry(tx.objects[k], ListChunks(tx, k)) == Rekeyed(Entry(rows[m], ListChunks(db, o)), bucket, t, now)
  }

  /** Some target of the first `n` turns existed before the copy. */
  ghost predicate SomeTargetExisted(db: Db, bucket: ByteString, src: ByteString, dst: ByteString, rows: seq<Object>,
                                    n: nat)
    requires n <= |rows|
  {
    exists m :: 0 <= m < n && ObjectKey(bucket, Target(rows[m].key, src, dst)) in db.objects
  }

  lemma CopiedNothing(db: Db, bucket: ByteString, src: ByteString, dst: ByteString, now: int, rows: seq<Object>)
    requires Keyed(db)
    ensures CopiedUpTo(db, db, bucket, src, dst, now, rows, 0)
  {
  }

  /** The chunk list a turn reads is its origin's. */
  lemma ChunksRead(db: Db, tx: Db, bucket: ByteString, src: ByteString, dst: ByteString, now: int, rows: seq<Object>,
                   n: nat)
    requires n < |rows| && CopiedUpTo(db, tx, bucket, src, dst, now, rows, n)
    ensures var target := Target(rows[n].key, src, dst);
            var origin := rows[Origin(rows, src, dst, n)].key;
            CopyChunksForKey(ListChunks(tx, ObjectKey(bucket, rows[n].key)), bucket, target)
              == CopyChunksForKey(ListChunks(db, ObjectKey(bucket, origin)), bucket, target)
  {
    hide ListChunks, Target;
    var w := Writer(rows, src, dst, n, rows[n].key);
    var target := Target(rows[n].key, src, dst);
    assert w < 0 ==> SameEntry(db, tx, ObjectKey(bucket, rows[n].key));
    if w >= 0 {
      var o := rows[Origin(rows, src, dst, w)].key;
      assert Written(db, tx, bucket, src, dst, now, rows, w);
      CopyTwice(ListChunks(db, ObjectKey(bucket, o)), bucket, rows[n].key, target);
    }
  }

  lemma CopyTwice(chunks: seq<Chunk>, bucket: ByteString, k: ByteString, k': ByteString)
    ensures CopyChunksForKey(CopyChunksForKey(chunks, bucket, k), bucket, k') == CopyChunksForKey(chunks, bucket, k')
  {
  }

  lemma CopiedRows(chunks: seq<Chunk>, k: ObjectKey, bucket: ByteString, key: ByteString)
    requires RowsFor(k, chunks)
    ensures RowsFor(ObjectKey(bucket, key), CopyChunksForKey(chunks, bucket, key))
  {
  }

  /** A turn writes its target and nothing else. */
  lemma CopyRowEffect(tx: Db, bucket: ByteString, src: ByteString, dst: ByteString, overwrite: bool, now: int,
                      row: Object)
    requires Keyed(tx)
    ensures var target := Target(row.key, src, dst);
            var t := ObjectKey(bucket, target);
            var e := Rekeyed(Entry(row, ListChunks(tx, ObjectKey(bucket, row.key))), bucket, target, now);
            var r := CopyRow(tx, bucket, src, dst, overwrite, now, row);
            && (r.Ok? <==> overwrite || t !in tx.objects)
            && (r.Err? ==> r.error == DestinationExists)
            && (r.Ok? ==>
                 && (r.value.1 <==> t in tx.objects)
                 && Keyed(r.value.0) && r.value.0.buckets == tx.buckets
                 && t in r.value.0.objects && Entry(r.value.0.objects[t], ListChunks(r.value.0, t)) == e
                 && (forall k :: k != t ==> SameEntry(tx, r.value.0, k)))
  {
    hide ListChunks, Target, Lt, PutInTx, Keyed;
    var target := Target(row.key, src, dst);
    var s := ObjectKey(bucket, row.key);
    ListChunksIsListing(tx, s);
    CopiedRows(ListChunks(tx, s), s, bucket, target);
    var e := Rekeyed(Entry(row, ListChunks(tx, s)), bucket, target, now);
    PutEffect(tx, e.info, e.chunks);
  }

  lemma WriterOneMore(rows: seq<Object>, src: ByteString, dst: ByteString, n: nat, key: ByteString)
    requires n < |rows|
    ensures Writer(rows, src, dst, n + 1, key)
         == if Target(rows[n].key, src, dst) == key then n else Writer(rows, src, dst, n, key)
  {
    hide Target;
  }

  /** One turn extends the copy by one target. */
  lemma CopyOneMore(db: Db, tx: Db, bucket: ByteString, src: ByteString, dst: ByteString, overwrite: bool, now: int,
                    rows: seq<Object>, n: nat)
    requires Keyed(db) && IsSnapshot(db, bucket, src, rows)
    requires n < |rows| && CopiedUpTo(db, tx, bucket, src, dst, now, rows, n)
    ensures var t := ObjectKey(bucket, Target(rows[n].key, src, dst));
            var r := CopyRow(tx, bucket, src, dst, overwrite, now, rows[n]);
            && (r.Ok? <==> overwrite || t !in db.objects)
            && (r.Err? ==> r.error == DestinationExists)
            && (r.Ok? ==> (r.value.1 <==> t in db.objects)
                          && CopiedUpTo(db, r.value.0, bucket, src, dst, now, rows, n + 1))
  {
    hide ListChunks, Target, Lt, CopyRow, Origin, Keyed, Written, Writer;
    var t := ObjectKey(bucket, Target(rows[n].key, src, dst));
    WriterOfTarget(rows, src, dst, n, n);
    assert SameEntry(db, tx, t);
    CopyRowEffect(tx, bucket, src, dst, overwrite, now, rows[n]);
    var r := CopyRow(tx, bucket, src, dst, overwrite, now, rows[n]);
    if r.Ok? {
      forall k: ObjectKey | k.bucket != bucket || Writer(rows, src, dst, n + 1, k.key) < 0
        ensures SameEntry(db, r.value.0, k)
      {
        WriterOneMore(rows, src, dst, n, k.key);
        assert k != t && SameEntry(db, tx, k) && SameEntry(tx, r.value.0, k);
      }
      forall m | 0 <= m < n + 1 ensures Written(db, r.value.0, bucket, src, dst, now, rows, m) {
        if m == n {
          NewlyWritten(db, tx, r.value.0, bucket, src, dst, now, rows, n);
        } else {
          WriterOfTarget(rows, src, dst, n, m);
          StillWritten(db, tx, r.value.0, bucket, src, dst, now, rows, m);
        }
      }
    }
  }

  lemma NewlyWritten(db: Db, tx: Db, later: Db, bucket: ByteString, src: ByteString, dst: ByteString, now: int,
                     rows: seq<Object>, n: nat)
    requires n < |rows| && CopiedUpTo(db, tx, bucket, src, dst, now, rows, n)
    requires var target := Target(rows[n].key, src, dst);
             var t := ObjectKey(bucket, target);
             && t in later.objects
             && Entry(later.objects[t], ListChunks(later, t))
                == Rekeyed(Entry(rows[n], ListChunks(tx, ObjectKey(bucket, rows[n].key))), bucket, target, now)
    ensures Written(db, later, bucket, src, dst, now, rows, n)
  {
    hide ListChunks, Target, Origin, CopiedUpTo, Writer;
    ChunksRead(db, tx, bucket, src, dst, now, rows, n);
  }

  lemma StillWritten(db: Db, tx: Db, later: Db, bucket: ByteString, src: ByteString, dst: ByteString, now: int,
                     rows: seq<Object>, m: nat)
    requires m < |rows| && Written(db, tx, bucket, src, dst, now, rows, m)
    requires SameEntry(tx, later, ObjectKey(bucket, Target(rows[m].key, src, dst)))
    ensures Written(db, later, bucket, src, dst, now, rows, m)
  {
    hide ListChunks, Target, Origin;
  }

  /** The whole loop. It fails iff a target existed and may not be overwritten; otherwise every target gets its source's
      row and its origin's chunks, and Created says whether no target existed. */
  lemma {:induction false} CopyRowsEffect(db: Db, bucket: ByteString, src: ByteString, dst: ByteString, overwrite: bool,
                                          now: int, rows: seq<Object>, n: nat)
    requires Keyed(db) && IsSnapshot(db, bucket, src, rows) && n <= |rows|
    ensures var r := CopyRows(db, bucket, src, dst, overwrite, now, rows, n);
            && (r.Ok? <==> overwrite || !SomeTargetExisted(db, bucket, src, dst, rows, n))
            && (r.Err? ==> r.error == DestinationExists)
            && (r.Ok? ==> (r.value.1 <==> !SomeTargetExisted(db, bucket, src, dst, rows, n))
                          && CopiedUpTo(db, r.value.0, bucket, src, dst, now, rows, n))
  {
    hide CopiedUpTo, IsSnapshot, CopyRow, Target, Keyed, Writer, Origin;
    if n == 0 {
      CopiedNothing(db, bucket, src, dst, now, rows);
    } else {
      CopyRowsEffect(db, bucket, src, dst, overwrite, now, rows, n - 1);
      var r := CopyRows(db, bucket, src, dst, overwrite, now, rows, n - 1);
      assert SomeTargetExisted(db, bucket, src, dst, rows, n) <==>
        SomeTargetExisted(db, bucket, src, dst, rows, n - 1)
        || ObjectKey(bucket, Target(rows[n - 1].key, src, dst)) in db.objects;
      if r.Ok? {
        CopyOneMore(db, r.value.0, bucket, src, dst, overwrite, now, rows, n - 1);
      }
    }
  }

  // ----- When a prefix copy is faithful -----

  /** What a copy from one prefix to another should leave: every source's entry at its target, everything else as it
      was. */
  ghost predicate FaithfulCopy(db: Db, tx: Db, bucket: ByteString, src: ByteString, dst: ByteString, now: int) {
    && (forall s: ByteString :: IsSource(db, bucket, src, s) ==> CopiedTo(db, tx, bucket, s, Target(s, src, dst), now))
    && (forall k: ObjectKey :: !IsTarget(db, bucket, src, dst, k) ==> SameEntry(db, tx, k))
  }

  ghost predicate IsSource(db: Db, bucket: ByteString, src: ByteString, s: ByteString) {
    src <= s && ObjectKey(bucket, s) in db.objects
  }

  ghost predicate IsTarget(db: Db, bucket: ByteString, src: ByteString, dst: ByteString, k: ObjectKey) {
    k.bucket == bucket && exists s :: IsSource(db, bucket, src, s) && k.key == Target(s, src, dst)
  }

  ghost predicate CopiedTo(db: Db, tx: Db, bucket: ByteString, s: ByteString, t: ByteString, now: int) {
    var from, to := ObjectKey(bucket, s), ObjectKey(bucket, t);
    && from in db.objects && to in tx.objects
    && Entry(tx.objects[to], ListChunks(tx, to))
       == Rekeyed(Entry(db.objects[from], ListChunks(db, from)), bucket, t, now)
  }

  /** The chunks a turn will read are its own source's, field for field apart from the key. */
  ghost predicate ReadsOwnChunks(db: Db, bucket: ByteString, src: ByteString, dst: ByteString, rows: seq<Object>,
                                 m: nat)
    requires m < |rows|
  {
    var own, origin := rows[m].key, rows[Origin(rows, src, dst, m)].key;
    CopyChunksForKey(ListChunks(db, ObjectKey(bucket, origin)), bucket, [])
      == CopyChunksForKey(ListChunks(db, ObjectKey(bucket, own)), bucket, [])
  }

  lemma WrittenOrNot(rows: seq<Object>, db: Db, bucket: ByteString, src: ByteString, dst: ByteString, k: ObjectKey)
    requires IsSnapshot(db, bucket, src, rows)
    ensures IsTarget(db, bucket, src, dst, k) <==> k.bucket == bucket && Writer(rows, src, dst, |rows|, k.key) >= 0
  {
    hide Lt, Target;
    var m := Writer(rows, src, dst, |rows|, k.key);
    if m >= 0 {
      assert IsSource(db, bucket, src, rows[m].key);
    }
    if IsTarget(db, bucket, src, dst, k) {
      var s :| IsSource(db, bucket, src, s) && k.key == Target(s, src, dst);
      var i :| 0 <= i < |rows| && rows[i].key == s;
      WriterOfTarget(rows, src, dst, |rows|, i);
    }
  }

  lemma CopyKeyAgrees(a: seq<Chunk>, b: seq<Chunk>, bucket: ByteString, k: ByteString, k': ByteString)
    requires CopyChunksForKey(a, bucket, k) == CopyChunksForKey(b, bucket, k)
    ensures CopyChunksForKey(a, bucket, k') == CopyChunksForKey(b, bucket, k')
  {
    CopyTwice(a, bucket, k, k');
    CopyTwice(b, bucket, k, k');
  }

  lemma TurnIsFaithfulIff(db: Db, tx: Db, bucket: ByteString, src: ByteString, dst: ByteString, now: int,
                          rows: seq<Object>, m: nat)
    requires IsSnapshot(db, bucket, src, rows) && m < |rows|
    requires Written(db, tx, bucket, src, dst, now, rows, m)
    ensures CopiedTo(db, tx, bucket, rows[m].key, Target(rows[m].key, src, dst), now)
       <==> ReadsOwnChunks(db, bucket, src, dst, rows, m)
  {
    hide ListChunks, Target, Lt, Origin;
    var own := ListChunks(db, ObjectKey(bucket, rows[m].key));
    var origin := ListChunks(db, ObjectKey(bucket, rows[Origin(rows, src, dst, m)].key));
    var target := Target(rows[m].key, src, dst);
    if ReadsOwnChunks(db, bucket, src, dst, rows, m) {
      CopyKeyAgrees(origin, own, bucket, [], target);
    }
    if CopyChunksForKey(origin, bucket, target) == CopyChunksForKey(own, bucket, target) {
      CopyKeyAgrees(origin, own, bucket, target, []);
    }
  }

  /** A prefix copy of a bucket without case variants succeeds iff it may write its targets; it is then faithful iff
      every turn reads its own chunks, and Created says whether no target existed before. */
  lemma CopyPrefixMeaning(db: Db, bucket: ByteString, src: ByteString, dst: ByteString, overwrite: bool, now: int)
    requires Keyed(db) && ExactBucket(db, bucket, src)
    ensures var r := CopyPrefixTx(db, bucket, src, dst, overwrite, now);
            var rows := Snapshot(db, bucket, src);
            var existed := exists k :: IsTarget(db, bucket, src, dst, k) && k in db.objects;
            && (r.Ok? <==> overwrite || !existed)
            && (r.Ok? ==>
                 && (r.value.1 <==> !existed)
                 && Keyed(r.value.0)
                 && (FaithfulCopy(db, r.value.0, bucket, src, dst, now) <==>
                      forall m :: 0 <= m < |rows| ==> ReadsOwnChunks(db, bucket, src, dst, rows, m)))
  {
    hide Snapshot, CopyRows, Target, Lt, Written, Writer, Keyed, ReadsOwnChunks, CopiedTo, SameEntry;
    var rows := Snapshot(db, bucket, src);
    SnapshotIsExact(db, bucket, src);
    CopyRowsEffect(db, bucket, src, dst, overwrite, now, rows, |rows|);
    ExistedMeaning(db, bucket, src, dst, rows);
    var r := CopyPrefixTx(db, bucket, src, dst, overwrite, now);
    if r.Ok? {
      FaithfulIff(db, r.value.0, bucket, src, dst, now, rows);
    }
  }

  lemma ExistedMeaning(db: Db, bucket: ByteString, src: ByteString, dst: ByteString, rows: seq<Object>)
    requires IsSnapshot(db, bucket, src, rows)
    ensures SomeTargetExisted(db, bucket, src, dst, rows, |rows|)
       <==> exists k :: IsTarget(db, bucket, src, dst, k) && k in db.objects
  {
    hide Lt, Target;
    if SomeTargetExisted(db, bucket, src, dst, rows, |rows|) {
      var m :| 0 <= m < |rows| && ObjectKey(bucket, Target(rows[m].key, src, dst)) in db.objects;
      assert IsSource(db, bucket, src, rows[m].key);
      assert IsTarget(db, bucket, src, dst, ObjectKey(bucket, Target(rows[m].key, src, dst)));
    }
    if k :| IsTarget(db, bucket, src, dst, k) && k in db.objects {
      var s :| IsSource(db, bucket, src, s) && k.key == Target(s, src, dst);
      var i :| 0 <= i < |rows| && rows[i].key == s;
      assert k == ObjectKey(bucket, Target(rows[i].key, src, dst));
    }
  }

  lemma FaithfulIff(db: Db, tx: Db, bucket: ByteString, src: ByteString, dst: ByteString, now: int, rows: seq<Object>)
    requires IsSnapshot(db, bucket, src, rows)
    requires CopiedUpTo(db, tx, bucket, src, dst, now, rows, |rows|)
    ensures FaithfulCopy(db, tx, bucket, src, dst, now)
       <==> forall m :: 0 <= m < |rows| ==> ReadsOwnChunks(db, bucket, src, dst, rows, m)
  {
    hide Target, Lt, Written, Writer, Keyed, ReadsOwnChunks, CopiedTo, SameEntry;
    forall k: ObjectKey | !IsTarget(db, bucket, src, dst, k) ensures SameEntry(db, tx, k) {
      WrittenOrNot(rows, db, bucket, src, dst, k);
    }
    forall m | 0 <= m < |rows|
      ensures CopiedTo(db, tx, bucket, rows[m].key, Target(rows[m].key, src, dst), now)
         <==> ReadsOwnChunks(db, bucket, src, dst, rows, m)
      ensures IsSource(db, bucket, src, rows[m].key)
    {
      TurnIsFaithfulIff(db, tx, bucket, src, dst, now, rows, m);
    }
    assert forall s :: IsSource(db, bucket, src, s) ==> exists i :: 0 <= i < |rows| && rows[i].key == s;
  }

  // ----- Case variants under a prefix copy -----

  /** The query of a prefix copy or delete selects this key, exactly or as a case variant. */
  ghost predicate IsSelected(db: Db, bucket: ByteString, src: ByteString, key: ByteString) {
    ObjectKey(bucket, key) in db.objects && SqlPrefix(src, key)
  }

  /** No selected key has this key as its target, and no other one has its target. */
  ghost predicate Undisturbed(db: Db, bucket: ByteString, src: ByteString, dst: ByteString, key: ByteString) {
    forall other :: IsSelected(db, bucket, src, other) ==>
      && Target(other, src, dst) != key
      && (Target(other, src, dst) == Target(key, src, dst) ==> other == key)
  }

  /** A prefix copy copies case variants too, and as only an exact prefix is stripped, to the target prefix followed by
      their whole key. Every selected key's target exists afterwards, and is its copy when no other turn disturbs it. */
  lemma CopyTakesCaseVariants(db: Db, bucket: ByteString, src: ByteString, dst: ByteString, overwrite: bool, now: int,
                              key: ByteString)
    requires Keyed(db) && IsSelected(db, bucket, src, key)
    requires CopyPrefixTx(db, bucket, src, dst, overwrite, now).Ok?
    ensures src <= key || CaseVariant(src, key)
    ensures Target(key, src, dst) == if src <= key then dst + key[|src|..] else dst + key
    ensures var tx := CopyPrefixTx(db, bucket, src, dst, overwrite, now).value.0;
            && ObjectKey(bucket, Target(key, src, dst)) in tx.objects
            && (Undisturbed(db, bucket, src, dst, key) ==>
                 CopiedTo(db, tx, bucket, key, Target(key, src, dst), now))
  {
    hide CopyRows, Target, SqlPrefix, Lt, Keyed, CopiedTo, MatchingKeys, SortKeys;
    TargetOfSelected(src, dst, key);
    var rows := Snapshot(db, bucket, src);
    SnapshotIsSelection(db, bucket, src);
    var i :| 0 <= i < |rows| && rows[i].key == key;
    CopyRowsKeepTarget(db, bucket, src, dst, overwrite, now, rows, |rows|, i);
    if Undisturbed(db, bucket, src, dst, key) {
      CopyRowsReach(db, bucket, src, dst, overwrite, now, rows, |rows|, i);
    }
  }

  lemma TargetOfSelected(src: ByteString, dst: ByteString, key: ByteString)
    requires SqlPrefix(src, key)
    ensures src <= key || CaseVariant(src, key)
    ensures Target(key, src, dst) == if src <= key then dst + key[|src|..] else dst + key
  {
    hide SqlPrefix;
    SqlPrefixMeaning(src, key);
  }

  /** Every selected key once, with its row. */
  lemma SnapshotIsSelection(db: Db, bucket: ByteString, src: ByteString)
    requires Keyed(db)
    ensures var rows := Snapshot(db, bucket, src);
            && (forall i, j :: 0 <= i < j < |rows| ==> rows[i].key != rows[j].key)
            && (forall i :: 0 <= i < |rows| ==>
                 IsSelected(db, bucket, src, rows[i].key) && rows[i] == db.objects[ObjectKey(bucket, rows[i].key)])
            && (forall key :: IsSelected(db, bucket, src, key) ==> exists i :: 0 <= i < |rows| && rows[i].key == key)
  {
    hide SortKeys, MatchingKeys, SqlPrefix;
    var ks := SortKeys(MatchingKeys(db, bucket, src));
    KeysHaveRows(db, bucket, src);
    var rows := Snapshot(db, bucket, src);
    assert forall i :: 0 <= i < |ks| ==> rows[i].key == ks[i] && ks[i] in ks;
    forall i, j | 0 <= i < j < |rows| ensures rows[i].key != rows[j].key {
      LtIrreflexive(ks[i]);
    }
  }

  lemma {:induction false} CopyRowsKeepTarget(db: Db, bucket: ByteString, src: ByteString, dst: ByteString,
                                              overwrite: bool, now: int, rows: seq<Object>, n: nat, i: nat)
    requires Keyed(db) && i < n <= |rows| && CopyRows(db, bucket, src, dst, overwrite, now, rows, n).Ok?
    ensures var tx := CopyRows(db, bucket, src, dst, overwrite, now, rows, n).value.0;
            Keyed(tx) && ObjectKey(bucket, Target(rows[i].key, src, dst)) in tx.objects
  {
    hide Target, Keyed, CopyRow;
    KeyedRows(db, bucket, src, dst, overwrite, now, rows, n - 1);
    CopyRowEffect(CopyRows(db, bucket, src, dst, overwrite, now, rows, n - 1).value.0, bucket, src, dst, overwrite, now,
                  rows[n - 1]);
    if i < n - 1 {
      CopyRowsKeepTarget(db, bucket, src, dst, overwrite, now, rows, n - 1, i);
      var tx, tx' := CopyRows(db, bucket, src, dst, overwrite, now, rows, n - 1).value.0,
                     CopyRows(db, bucket, src, dst, overwrite, now, rows, n).value.0;
      var t := ObjectKey(bucket, Target(rows[i].key, src, dst));
      assert SameEntry(tx, tx', t) || t == ObjectKey(bucket, Target(rows[n - 1].key, src, dst));
    }
  }

  lemma {:induction false} KeyedRows(db: Db, bucket: ByteString, src: ByteString, dst: ByteString, overwrite: bool,
                                     now: int, rows: seq<Object>, n: nat)
    requires Keyed(db) && n <= |rows| && CopyRows(db, bucket, src, dst, overwrite, now, rows, n).Ok?
    ensures Keyed(CopyRows(db, bucket, src, dst, overwrite, now, rows, n).value.0)
  {
    hide Target, Keyed, CopyRow, SameEntry;
    if n > 0 {
      KeyedRows(db, bucket, src, dst, overwrite, now, rows, n - 1);
      CopyRowEffect(CopyRows(db, bucket, src, dst, overwrite, now, rows, n - 1).value.0, bucket, src, dst, overwrite,
                    now, rows[n - 1]);
    }
  }

  /** A row whose key nobody writes and whose target nobody else writes is copied when its turn comes. */
  lemma {:induction false} CopyRowsReach(db: Db, bucket: ByteString, src: ByteString, dst: ByteString, overwrite: bool,
                                         now: int, rows: seq<Object>, n: nat, i: nat)
    requires Keyed(db) && i < |rows| && n <= |rows| && CopyRows(db, bucket, src, dst, overwrite, now, rows, n).Ok?
    requires ObjectKey(bucket, rows[i].key) in db.objects && rows[i] == db.objects[ObjectKey(bucket, rows[i].key)]
    requires forall j :: 0 <= j < |rows| ==> Target(rows[j].key, src, dst) != rows[i].key
    requires forall j :: 0 <= j < |rows| && j != i ==> Target(rows[j].key, src, dst) != Target(rows[i].key, src, dst)
    ensures var tx := CopyRows(db, bucket, src, dst, overwrite, now, rows, n).value.0;
            && Keyed(tx) && SameEntry(db, tx, ObjectKey(bucket, rows[i].key))
            && (i < n ==> CopiedTo(db, tx, bucket, rows[i].key, Target(rows[i].key, src, dst), now))
  {
    hide Target, Keyed, CopyRow, ListChunks;
    if n > 0 {
      CopyRowsReach(db, bucket, src, dst, overwrite, now, rows, n - 1, i);
      var tx, tx' := CopyRows(db, bucket, src, dst, overwrite, now, rows, n - 1).value.0,
                     CopyRows(db, bucket, src, dst, overwrite, now, rows, n).value.0;
      CopyRowEffect(tx, bucket, src, dst, overwrite, now, rows[n - 1]);
      assert SameEntry(tx, tx', ObjectKey(bucket, rows[i].key));
      assert i < n - 1 ==> SameEntry(tx, tx', ObjectKey(bucket, Target(rows[i].key, src, dst)));
    }
  }

  /** After a faithful copy or move, every source's target holds the source's own row and chunk rows under its key. */
  lemma FaithfulKeepsFields(db: Db, tx: Db, bucket: ByteString, src: ByteString, dst: ByteString, now: int,
                            key: ByteString)
    requires FaithfulCopy(db, tx, bucket, src, dst, now) || FaithfulMove(db, tx, bucket, src, dst, now)
    requires src <= key && ObjectKey(bucket, key) in db.objects
    ensures HoldsCopy(db, tx, ObjectKey(bucket, key), ObjectKey(bucket, dst + key[|src|..]), now)
  {
    hide HoldsCopy, ListChunks, Rekeyed;
    var t := dst + key[|src|..];
    assert IsSource(db, bucket, src, key) && Target(key, src, dst) == t;
    RekeyedIsACopy(db, tx, ObjectKey(bucket, key), ObjectKey(bucket, t), now);
  }

  /** A faithful copy leaves the tables well formed. */
  lemma FaithfulCopyIsWellFormed(db: Db, tx: Db, bucket: ByteString, src: ByteString, dst: ByteString, now: int)
    requires WellFormed(db) && Keyed(tx) && FaithfulCopy(db, tx, bucket, src, dst, now)
    ensures WellFormed(tx)
  {
    hide ListChunks, Target, GoodEntry;
    forall k: ObjectKey
      ensures if k in tx.objects then GoodEntry(k, Entry(tx.objects[k], ListChunks(tx, k))) else ListChunks(tx, k) == []
    {
      if IsTarget(db, bucket, src, dst, k) {
        var s :| IsSource(db, bucket, src, s) && k.key == Target(s, src, dst);
        var from := ObjectKey(bucket, s);
        RekeyedIsGood(from, Entry(db.objects[from], ListChunks(db, from)), bucket, k.key, now);
        assert CopiedTo(db, tx, bucket, s, Target(s, src, dst), now);
      } else {
        assert SameEntry(db, tx, k);
      }
    }
  }

  /** The chunk list turn `m` writes fits the object row it goes with. */
  ghost predicate FitsItsRow(db: Db, bucket: ByteString, src: ByteString, dst: ByteString, rows: seq<Object>, m: nat)
    requires m < |rows|
  {
    var chunks := ListChunks(db, ObjectKey(bucket, rows[Origin(rows, src, dst, m)].key));
    |chunks| == rows[m].chunkCount && Total(chunks) == rows[m].size
  }

  lemma TurnIsGoodIff(db: Db, tx: Db, bucket: ByteString, src: ByteString, dst: ByteString, now: int,
                      rows: seq<Object>, m: nat)
    requires WellFormed(db) && IsSnapshot(db, bucket, src, rows) && m < |rows|
    requires Written(db, tx, bucket, src, dst, now, rows, m)
    ensures var k := ObjectKey(bucket, Target(rows[m].key, src, dst));
            GoodEntry(k, Entry(tx.objects[k], ListChunks(tx, k))) <==> FitsItsRow(db, bucket, src, dst, rows, m)
  {
    hide ListChunks, Target, Lt, Contiguous, Total;
    var t := Target(rows[m].key, src, dst);
    var o := ObjectKey(bucket, rows[Origin(rows, src, dst, m)].key);
    var chunks := ListChunks(db, o);
    RekeyedIsGood(o, Entry(db.objects[o], chunks), bucket, t, now);
    RekeyedTotal(chunks, bucket, t);
  }

  /** A copy that succeeds leaves the tables well formed iff the chunk list every turn writes has as many chunks as its
      row counts, of the size its row records. */
  lemma CopyPrefixWellFormedIff(db: Db, bucket: ByteString, src: ByteString, dst: ByteString, overwrite: bool, now: int)
    requires WellFormed(db) && ExactBucket(db, bucket, src)
    ensures var r := CopyPrefixTx(db, bucket, src, dst, overwrite, now);
            var rows := Snapshot(db, bucket, src);
            r.Ok? ==>
              (WellFormed(r.value.0) <==> forall m :: 0 <= m < |rows| ==> FitsItsRow(db, bucket, src, dst, rows, m))
  {
    hide Snapshot, CopyRows, Target, Lt, Written, Writer, FitsItsRow, SameEntry, ListChunks, GoodEntry, ExactBucket;
    var r := CopyPrefixTx(db, bucket, src, dst, overwrite, now);
    var rows := Snapshot(db, bucket, src);
    SnapshotIsExact(db, bucket, src);
    CopyRowsEffect(db, bucket, src, dst, overwrite, now, rows, |rows|);
    if r.Ok? {
      var tx := r.value.0;
      forall m | 0 <= m < |rows|
        ensures ObjectKey(bucket, Target(rows[m].key, src, dst)) in tx.objects
        ensures var k := ObjectKey(bucket, Target(rows[m].key, src, dst));
                GoodEntry(k, Entry(tx.objects[k], ListChunks(tx, k))) <==> FitsItsRow(db, bucket, src, dst, rows, m)
      {
        TurnIsThere(db, tx, bucket, src, dst, now, rows, m);
        TurnIsGoodIff(db, tx, bucket, src, dst, now, rows, m);
      }
      forall k: ObjectKey | k.bucket != bucket || Writer(rows, src, dst, |rows|, k.key) < 0
        ensures k in tx.objects ==> GoodEntry(k, Entry(tx.objects[k], ListChunks(tx, k)))
        ensures k !in tx.objects ==> ListChunks(tx, k) == []
      {
        UntouchedStaysGood(db, tx, k);
      }
    }
  }

  lemma TurnIsThere(db: Db, tx: Db, bucket: ByteString, src: ByteString, dst: ByteString, now: int, rows: seq<Object>,
                    m: nat)
    requires m < |rows| && Written(db, tx, bucket, src, dst, now, rows, m)
    ensures ObjectKey(bucket, Target(rows[m].key, src, dst)) in tx.objects
  {
  }

  lemma UntouchedStaysGood(db: Db, tx: Db, k: ObjectKey)
    requires WellFormed(db) && SameEntry(db, tx, k)
    ensures k in tx.objects ==> GoodEntry(k, Entry(tx.objects[k], ListChunks(tx, k)))
    ensures k !in tx.objects ==> ListChunks(tx, k) == []
  {
  }

  /** In particular a copy is faithful when no target starts with the source prefix again. */
  lemma CopyOutsideItself(db: Db, bucket: ByteString, src: ByteString, dst: ByteString, overwrite: bool, now: int)
    requires Keyed(db) && ExactBucket(db, bucket, src)
    requires forall k :: IsTarget(db, bucket, src, dst, k) ==> !(src <= k.key)
    ensures var r := CopyPrefixTx(db, bucket, src, dst, overwrite, now);
            r.Ok? ==> FaithfulCopy(db, r.value.0, bucket, src, dst, now)
  {
    hide Snapshot, CopyPrefixTx, Target, Lt, Keyed, FaithfulCopy;
    CopyPrefixMeaning(db, bucket, src, dst, overwrite, now);
    var rows := Snapshot(db, bucket, src);
    SnapshotIsExact(db, bucket, src);
    forall m | 0 <= m < |rows| ensures ReadsOwnChunks(db, bucket, src, dst, rows, m) {
      WriterWritesTarget(db, bucket, src, dst, rows, m, rows[m].key);
    }
  }

  /** Copying "a" to "aa" when both "a" and "aa" exist writes the chunks of "a" under the target of "aa", so the copy is
      not faithful unless the two objects have the same chunks. */
  lemma CopyOntoALaterSource(db: Db, bucket: ByteString, now: int)
    requires Keyed(db) && ExactBucket(db, bucket, Ascii("a"))
    requires ObjectKey(bucket, Ascii("a")) in db.objects && ObjectKey(bucket, Ascii("aa")) in db.objects
    requires CopyChunksForKey(ListChunks(db, ObjectKey(bucket, Ascii("a"))), bucket, [])
          != CopyChunksForKey(ListChunks(db, ObjectKey(bucket, Ascii("aa"))), bucket, [])
    ensures var r := CopyPrefixTx(db, bucket, Ascii("a"), Ascii("aa"), true, now);
            r.Ok? && !FaithfulCopy(db, r.value.0, bucket, Ascii("a"), Ascii("aa"), now)
  {
    hide Snapshot, CopyPrefixTx, Lt, Keyed, FaithfulCopy, ListChunks, CopyChunksForKey, ExactBucket, Target,
         ReadsOwnChunks;
    var a, aa := Ascii("a"), Ascii("aa");
    CopyPrefixMeaning(db, bucket, a, aa, true, now);
    var rows := Snapshot(db, bucket, a);
    SnapshotIsExact(db, bucket, a);
    var i :| 0 <= i < |rows| && rows[i].key == a;
    var j :| 0 <= j < |rows| && rows[j].key == aa;
    FirstKey(rows, a, i);
    ReadsTheFirstChunks(db, bucket, rows, j);
  }

  /** The first turn wrote "aa", so the turn of "aa" reads what the first turn copied. */
  lemma ReadsTheFirstChunks(db: Db, bucket: ByteString, rows: seq<Object>, j: int)
    requires 0 < j < |rows| && rows[0].key == Ascii("a") && rows[j].key == Ascii("aa")
    requires forall a, b :: 0 <= a < b < |rows| ==> Lt(rows[a].key, rows[b].key)
    requires forall i :: 0 <= i < |rows| ==> Ascii("a") <= rows[i].key
    requires CopyChunksForKey(ListChunks(db, ObjectKey(bucket, Ascii("a"))), bucket, [])
          != CopyChunksForKey(ListChunks(db, ObjectKey(bucket, Ascii("aa"))), bucket, [])
    ensures !ReadsOwnChunks(db, bucket, Ascii("a"), Ascii("aa"), rows, j)
  {
    hide Lt, ListChunks, CopyChunksForKey;
    var a, aa := Ascii("a"), Ascii("aa");
    assert Target(a, a, aa) == aa by {
      assert aa + a[1..] == aa;
    }
    WriterOfTarget(rows, a, aa, j, 0);
  }

  /** The prefix itself comes before every key that extends it. */
  lemma FirstKey(rows: seq<Object>, p: ByteString, i: int)
    requires forall a, b :: 0 <= a < b < |rows| ==> Lt(rows[a].key, rows[b].key)
    requires forall a :: 0 <= a < |rows| ==> p <= rows[a].key
    requires 0 <= i < |rows| && rows[i].key == p
    ensures i == 0
  {
    hide Lt;
    if i > 0 {
      NotBeforeItsPrefix(p, rows[0].key);
    }
  }

  lemma {:induction false} NotBeforeItsPrefix(p: ByteString, k: ByteString)
    requires p <= k
    ensures !Lt(k, p)
  {
    if p != [] {
      NotBeforeItsPrefix(p[1..], k[1..]);
    }
  }

  lemma WriterWritesTarget(db: Db, bucket: ByteString, src: ByteString, dst: ByteString, rows: seq<Object>, n: nat,
                           key: ByteString)
    requires IsSnapshot(db, bucket, src, rows) && n <= |rows|
    ensures Writer(rows, src, dst, n, key) >= 0 ==> IsTarget(db, bucket, src, dst, ObjectKey(bucket, key))
  {
    hide Target, Lt;
    var w := Writer(rows, src, dst, n, key);
    assert w >= 0 ==> IsSource(db, bucket, src, rows[w].key);
  }

  // ----- Deleting and moving a prefix -----

  lemma DeletePrefixEffect(db: Db, bucket: ByteString, prefix: ByteString)
    requires Keyed(db)
    ensures var d := DeletePrefixTx(db, bucket, prefix);
            && Keyed(d) && d.buckets == db.buckets
            && (forall k: ObjectKey :: if k.bucket == bucket && SqlPrefix(prefix, k.key)
                                       then k !in d.objects && ListChunks(d, k) == []
                                       else SameEntry(db, d, k))
  {
    hide SqlPrefix, ListChunks;
    var d := DeletePrefixTx(db, bucket, prefix);
    forall k: ObjectKey
      ensures if k.bucket == bucket && SqlPrefix(prefix, k.key)
              then k !in d.objects && ListChunks(d, k) == []
              else SameEntry(db, d, k)
    {
      ListChunksIsListing(d, k);
      if k.bucket == bucket && SqlPrefix(prefix, k.key) {
        ListingIsUnique(d, k, ListChunks(d, k), []);
      } else {
        SameListing(db, d, k);
      }
    }
  }

  /** What a move from one prefix to another should leave: every source's entry at its target, no source that is not
      also a target, everything else as it was. */
  ghost predicate FaithfulMove(db: Db, tx: Db, bucket: ByteString, src: ByteString, dst: ByteString, now: int) {
    && (forall s: ByteString :: IsSource(db, bucket, src, s) ==> CopiedTo(db, tx, bucket, s, Target(s, src, dst), now))
    && (forall k: ObjectKey :: !IsTarget(db, bucket, src, dst, k) ==>
         if k.bucket == bucket && IsSource(db, bucket, src, k.key)
         then k !in tx.objects && ListChunks(tx, k) == []
         else SameEntry(db, tx, k))
  }

  /** No target passes the prefix test of the source, which the delete will run. */
  ghost predicate TargetsEscape(db: Db, bucket: ByteString, src: ByteString, dst: ByteString) {
    forall k :: IsTarget(db, bucket, src, dst, k) ==> !SqlPrefix(src, k.key)
  }

  lemma DeletedAfterMove(db: Db, bucket: ByteString, src: ByteString, dst: ByteString, overwrite: bool, now: int,
                         k: ObjectKey)
    requires MovePrefixTx(db, bucket, src, dst, overwrite, now).Ok?
    requires k.bucket == bucket && SqlPrefix(src, k.key)
    ensures k !in MovePrefixTx(db, bucket, src, dst, overwrite, now).value.0.objects
  {
    hide CopyPrefixTx, SqlPrefix;
  }

  /** A move cannot be faithful when a key outside the source, or a target, passes the delete's prefix test. */
  lemma MoveNeedsEscape(db: Db, bucket: ByteString, src: ByteString, dst: ByteString, overwrite: bool, now: int)
    requires MovePrefixTx(db, bucket, src, dst, overwrite, now).Ok?
    requires FaithfulMove(db, MovePrefixTx(db, bucket, src, dst, overwrite, now).value.0, bucket, src, dst, now)
    ensures ExactBucket(db, bucket, src) && TargetsEscape(db, bucket, src, dst)
  {
    hide MovePrefixTx, SqlPrefix, Target, ListChunks, CaseVariant;
    var tx := MovePrefixTx(db, bucket, src, dst, overwrite, now).value.0;
    forall k | IsTarget(db, bucket, src, dst, k) ensures !SqlPrefix(src, k.key) {
      var s :| IsSource(db, bucket, src, s) && k.key == Target(s, src, dst);
      assert CopiedTo(db, tx, bucket, s, Target(s, src, dst), now);
      if SqlPrefix(src, k.key) {
        DeletedAfterMove(db, bucket, src, dst, overwrite, now, k);
      }
    }
    forall k | k in db.objects && k.bucket == bucket ensures !CaseVariant(src, k.key) {
      SqlPrefixMeaning(src, k.key);
      if CaseVariant(src, k.key) {
        DeletedAfterMove(db, bucket, src, dst, overwrite, now, k);
        NotAPrefix(src, k.key);
      }
    }
  }

  lemma NotAPrefix(src: ByteString, key: ByteString)
    requires CaseVariant(src, key)
    ensures !(src <= key)
  {
  }

  lemma MoveSuffices(db: Db, bucket: ByteString, src: ByteString, dst: ByteString, overwrite: bool, now: int)
    requires WellFormed(db) && src != dst
    requires ExactBucket(db, bucket, src) && TargetsEscape(db, bucket, src, dst)
    ensures var r := MovePrefixTx(db, bucket, src, dst, overwrite, now);
            var existed := exists k :: IsTarget(db, bucket, src, dst, k) && k in db.objects;
            && (r.Ok? <==> overwrite || !existed)
            && (r.Ok? ==> (r.value.1 <==> !existed) && FaithfulMove(db, r.value.0, bucket, src, dst, now)
                          && Keyed(r.value.0))
  {
    hide CopyPrefixTx, DeletePrefixTx, SqlPrefix, Target, ListChunks, CaseVariant, CopiedTo, Keyed, GoodEntry;
    forall k: ObjectKey ensures SqlPrefix(src, k.key) <==> src <= k.key || CaseVariant(src, k.key) {
      SqlPrefixMeaning(src, k.key);
    }
    CopyPrefixMeaning(db, bucket, src, dst, overwrite, now);
    CopyOutsideItself(db, bucket, src, dst, overwrite, now);
    var c := CopyPrefixTx(db, bucket, src, dst, overwrite, now);
    if c.Ok? {
      var tx := DeletePrefixTx(c.value.0, bucket, src);
      DeletePrefixEffect(c.value.0, bucket, src);
      forall s: ByteString | IsSource(db, bucket, src, s)
        ensures CopiedTo(db, tx, bucket, s, Target(s, src, dst), now)
      {
        assert IsTarget(db, bucket, src, dst, ObjectKey(bucket, Target(s, src, dst)));
        StillCopied(db, c.value.0, tx, bucket, s, Target(s, src, dst), now);
      }
    }
  }

  lemma StillCopied(db: Db, tx: Db, later: Db, bucket: ByteString, s: ByteString, t: ByteString, now: int)
    requires CopiedTo(db, tx, bucket, s, t, now) && SameEntry(tx, later, ObjectKey(bucket, t))
    ensures CopiedTo(db, later, bucket, s, t, now)
  {
    hide ListChunks;
  }

  /** MovePrefix does what a move should iff no row of the bucket passes the source's prefix test only by ignoring case
      and no target passes that test at all. Under that condition it succeeds iff it may write its targets, Created says
      whether none of them existed, and the tables stay well formed. */
  lemma MovePrefixMeaning(db: Db, bucket: ByteString, src: ByteString, dst: ByteString, overwrite: bool, now: int)
    requires WellFormed(db)
    ensures var r := MovePrefixTx(db, bucket, src, dst, overwrite, now);
            var existed := exists k :: IsTarget(db, bucket, src, dst, k) && k in db.objects;
            var safe := ExactBucket(db, bucket, src) && TargetsEscape(db, bucket, src, dst);
            && (r.Ok? ==> (FaithfulMove(db, r.value.0, bucket, src, dst, now) <==> safe))
            && (safe ==> (r.Ok? <==> src != dst && (overwrite || !existed)))
            && (safe && r.Ok? ==> (r.value.1 <==> !existed) && WellFormed(r.value.0))
  {
    hide CopyPrefixTx, DeletePrefixTx, ExactBucket, TargetsEscape, FaithfulMove, WellFormed, IsTarget, MovePrefixTx;
    var r := MovePrefixTx(db, bucket, src, dst, overwrite, now);
    SamePathFails(db, bucket, src, dst, overwrite, now);
    if src != dst && ExactBucket(db, bucket, src) && TargetsEscape(db, bucket, src, dst) {
      MoveSuffices(db, bucket, src, dst, overwrite, now);
      if r.Ok? {
        FaithfulMoveIsWellFormed(db, r.value.0, bucket, src, dst, now);
      }
    }
    if r.Ok? && FaithfulMove(db, r.value.0, bucket, src, dst, now) {
      MoveNeedsEscape(db, bucket, src, dst, overwrite, now);
    }
  }

  lemma SamePathFails(db: Db, bucket: ByteString, src: ByteString, dst: ByteString, overwrite: bool, now: int)
    ensures src == dst ==> MovePrefixTx(db, bucket, src, dst, overwrite, now) == Err(SamePath)
  {
  }

  lemma FaithfulMoveIsWellFormed(db: Db, tx: Db, bucket: ByteString, src: ByteString, dst: ByteString, now: int)
    requires WellFormed(db) && Keyed(tx) && FaithfulMove(db, tx, bucket, src, dst, now)
    ensures WellFormed(tx)
  {
    hide ListChunks, Target, GoodEntry;
    forall k | IsTarget(db, bucket, src, dst, k) ensures k in tx.objects {
      var s :| IsSource(db, bucket, src, s) && k.key == Target(s, src, dst);
      assert CopiedTo(db, tx, bucket, s, Target(s, src, dst), now);
    }
    forall k | k in tx.objects ensures GoodEntry(k, Entry(tx.objects[k], ListChunks(tx, k))) {
      if IsTarget(db, bucket, src, dst, k) {
        var s :| IsSource(db, bucket, src, s) && k.key == Target(s, src, dst);
        var from := ObjectKey(bucket, s);
        RekeyedIsGood(from, Entry(db.objects[from], ListChunks(db, from)), bucket, k.key, now);
        assert CopiedTo(db, tx, bucket, s, Target(s, src, dst), now);
      }
    }
  }

  /** With overwrite, neither a copy nor a move between two prefixes is ever refused. */
  lemma OverwritingNeverFails(db: Db, bucket: ByteString, src: ByteString, dst: ByteString, now: int)
    requires Keyed(db)
    ensures CopyPrefixTx(db, bucket, src, dst, true, now).Ok?
    ensures src != dst ==> MovePrefixTx(db, bucket, src, dst, true, now).Ok?
  {
    hide Snapshot;
    var rows := Snapshot(db, bucket, src);
    OverwritingTurnsNeverFail(db, bucket, src, dst, now, rows, |rows|);
  }

  lemma {:induction false} OverwritingTurnsNeverFail(db: Db, bucket: ByteString, src: ByteString, dst: ByteString,
                                                     now: int,
                                                     rows: seq<Object>, n: nat)
    requires Keyed(db) && n <= |rows|
    ensures var r := CopyRows(db, bucket, src, dst, true, now, rows, n); r.Ok? && Keyed(r.value.0)
  {
    hide Keyed, CopyRow;
    if n > 0 {
      OverwritingTurnsNeverFail(db, bucket, src, dst, now, rows, n - 1);
      CopyRowEffect(CopyRows(db, bucket, src, dst, true, now, rows, n - 1).value.0, bucket, src, dst, true, now,
                    rows[n - 1]);
    }
  }

  /** Moving "a/" to "A/", which the caller's subtree check lets through, loses "a/x": its copy "A/x" passes the
      delete's case-blind prefix test. With overwrite the move always succeeds, and so does the loss. */
  lemma CaseOnlyMoveLosesObjects(db: Db, bucket: ByteString, overwrite: bool, now: int)
    requires Keyed(db) && ObjectKey(bucket, Ascii("a/x")) in db.objects
    ensures var r := MovePrefixTx(db, bucket, Ascii("a/"), Ascii("A/"), overwrite, now);
            && (overwrite ==> r.Ok?)
            && (r.Ok? ==>
                 && ObjectKey(bucket, Ascii("a/x")) !in r.value.0.objects
                 && ObjectKey(bucket, Ascii("A/x")) !in r.value.0.objects)
  {
    hide MovePrefixTx, CopyPrefixTx, SqlPrefix, Keyed;
    SqlPrefixMeaning(Ascii("a/"), Ascii("a/x"));
    SqlPrefixMeaning(Ascii("a/"), Ascii("A/x"));
    assert Ascii("a/")[0] != Ascii("A/")[0];
    OverwritingNeverFails(db, bucket, Ascii("a/"), Ascii("A/"), now);
    if MovePrefixTx(db, bucket, Ascii("a/"), Ascii("A/"), overwrite, now).Ok? {
      DeletedAfterMove(db, bucket, Ascii("a/"), Ascii("A/"), overwrite, now, ObjectKey(bucket, Ascii("a/x")));
      DeletedAfterMove(db, bucket, Ascii("a/"), Ascii("A/"), overwrite, now, ObjectKey(bucket, Ascii("A/x")));
    }
  }
}
