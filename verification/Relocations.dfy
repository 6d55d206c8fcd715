/** Prefix moves and bucket renames as relocations: bodies change keys and nothing else. */
module Relocations {
  import opened ByteStrings
  import opened Metadata
  import opened Tables
  import opened SQLite
  import opened PrefixCopy
  import opened Rename
  import opened Ownership
  import opened Gateway
  import opened GatewaySteps

  lemma SameClaims(a: seq<Chunk>, bucket: ByteString, key: ByteString)
    ensures forall i :: 0 <= i < |a| ==> RowClaim(CopyChunksForKey(a, bucket, key)[i]) == RowClaim(a[i])
  {
  }

  // ----- Rename -----

  function RenameOrigin(keys: set<ObjectKey>, from: ByteString, to: ByteString): ObjectKey -> ObjectKey {
    (k: ObjectKey) => if k.bucket == to && ObjectKey(from, k.key) in keys then ObjectKey(from, k.key) else k
  }

  lemma RenameRelocates(db: Db, from: ByteString, to: ByteString)
    requires WellFormed(db) && RenameTx(db, from, to).Ok?
    ensures var view, view' := View(db), View(RenameTx(db, from, to).value);
            var origin := RenameOrigin(view.Keys, from, to);
            && Relocates(view, view', origin)
            && (forall k :: k in view ==> RenameKey(k, from, to) in view' && origin(RenameKey(k, from, to)) == k)
            && (forall n :: n in view' ==> n == RenameKey(origin(n), from, to))
  {
    hide View, WellFormed, RenameTx;
    RenameRefines(db, from, to);
    NoNamesakes(db, from, to);
    var view, view' := View(db), View(RenameTx(db, from, to).value);
    var origin := RenameOrigin(view.Keys, from, to);
    forall k | k in view ensures origin(RenameKey(k, from, to)) == k {
    }
    forall n | n in view'
      ensures origin(n) in view && n == RenameKey(origin(n), from, to)
      ensures view'[n] == RenamedEntry(view[origin(n)], n.bucket)
    {
      var k :| k in view && n == RenameKey(k, from, to);
    }
    forall n | n in view'
      ensures |view'[n].chunks| == |view[origin(n)].chunks|
      ensures forall i :: 0 <= i < |view'[n].chunks| ==>
                RowClaim(view'[n].chunks[i]) == RowClaim(view[origin(n)].chunks[i])
    {
      SameClaims(view[origin(n)].chunks, n.bucket, view[origin(n)].info.key);
    }
  }

  lemma NoNamesakes(db: Db, from: ByteString, to: ByteString)
    requires RenameTx(db, from, to).Ok?
    ensures from != to
    ensures forall k :: k in View(db) && k.bucket == from ==> ObjectKey(to, k.key) !in View(db)
  {
  }

  lemma RenameStep(s: System, from: ByteString, to: ByteString, s': System)
    requires Inv(s) && Step(s, Request.Rename(from, to), s')
    ensures Inv(s') && Means(MeaningOf(s), Request.Rename(from, to), MeaningOf(s'))
  {
    hide Inv, View, WellFormed, RenameTx, Bodies, Drafts, Relocates;
    InvOwned(s);
    RenameRefines(s.db, from, to);
    RenameRelocates(s.db, from, to);
    RelocationStep(s, s', RenameOrigin(View(s.db).Keys, from, to));
    BodyKeys(s);
    BodyKeys(s');
  }

  lemma BodyKeys(s: System)
    ensures MeaningOf(s).bodies.Keys == View(s.db).Keys
  {
  }

  // ----- MovePrefix -----

  function MovePrefixOrigin(keys: set<ObjectKey>, bucket: ByteString, src: ByteString, dst: ByteString):
    ObjectKey -> ObjectKey
  {
    (k: ObjectKey) => MovedFrom(keys, bucket, src, dst, k)
  }

  /** A target names its source. */
  lemma TargetNamesSource(db: Db, bucket: ByteString, src: ByteString, dst: ByteString, k: ObjectKey)
    ensures IsTarget(db, bucket, src, dst, k) <==> IsMoved(db.objects.Keys, bucket, src, dst, k)
    ensures IsTarget(db, bucket, src, dst, k) ==>
              var s := src + k.key[|dst|..]; IsSource(db, bucket, src, s) && k.key == Target(s, src, dst)
  {
    if IsTarget(db, bucket, src, dst, k) {
      var s :| IsSource(db, bucket, src, s) && k.key == Target(s, src, dst);
      assert s == src + s[|src|..];
      assert k.key[|dst|..] == s[|src|..];
    }
    if IsMoved(db.objects.Keys, bucket, src, dst, k) {
      var s := src + k.key[|dst|..];
      assert s[|src|..] == k.key[|dst|..];
      assert k.key == dst + k.key[|dst|..];
      assert IsSource(db, bucket, src, s) && k.key == Target(s, src, dst);
    }
  }

  /** Where an entry of a faithfully moved bucket comes from. */
  lemma FaithfulMoveOrigin(db: Db, tx: Db, bucket: ByteString, src: ByteString, dst: ByteString, now: int, k: ObjectKey)
    requires FaithfulMove(db, tx, bucket, src, dst, now)
    ensures var f := MovePrefixOrigin(View(db).Keys, bucket, src, dst)(k);
            if IsTarget(db, bucket, src, dst, k) then
              && f in View(db) && k in View(tx)
              && View(tx)[k].chunks == CopyChunksForKey(View(db)[f].chunks, bucket, k.key)
            else
              f == k && (k in View(tx) <==> k in View(db) && !(k.bucket == bucket && src <= k.key))
              && (k in View(tx) ==> View(tx)[k] == View(db)[k])
  {
    hide Target, ListChunks;
    TargetNamesSource(db, bucket, src, dst, k);
    if IsTarget(db, bucket, src, dst, k) {
      var s := src + k.key[|dst|..];
      assert CopiedTo(db, tx, bucket, s, Target(s, src, dst), now);
    }
  }

  /** An entry of a faithfully moved bucket is its origin's entry, and its origin is the one MovePrefix means. */
  lemma MovedEntry(db: Db, tx: Db, bucket: ByteString, src: ByteString, dst: ByteString, now: int, k: ObjectKey)
    requires FaithfulMove(db, tx, bucket, src, dst, now)
    ensures var view, view' := View(db), View(tx);
            var f := MovePrefixOrigin(view.Keys, bucket, src, dst)(k);
            && (k in view' ==> f in view && PrefixOrigin(view.Keys, bucket, src, dst, k, f)
                               && SameChunks(view'[k].chunks, view[f].chunks))
            && (forall g :: g in view && PrefixOrigin(view.Keys, bucket, src, dst, k, g) ==> k in view' && g == f)
  {
    hide IsTarget, CopyChunksForKey, FaithfulMove;
    FaithfulMoveOrigin(db, tx, bucket, src, dst, now, k);
    TargetNamesSource(db, bucket, src, dst, k);
    var f := MovePrefixOrigin(View(db).Keys, bucket, src, dst)(k);
    if f in View(db) {
      SameClaims(View(db)[f].chunks, bucket, k.key);
    }
  }

  ghost predicate SameChunks(a: seq<Chunk>, b: seq<Chunk>) {
    |a| == |b| && forall i :: 0 <= i < |a| ==> RowClaim(a[i]) == RowClaim(b[i])
  }

  lemma OriginsAreDistinct(keys: set<ObjectKey>, bucket: ByteString, src: ByteString, dst: ByteString, k: ObjectKey,
                           j: ObjectKey, f: ObjectKey)
    requires PrefixOrigin(keys, bucket, src, dst, k, f) && PrefixOrigin(keys, bucket, src, dst, j, f)
    ensures k == j
  {
    if k != f && j != f {
      var a, b := k.key[|dst|..], j.key[|dst|..];
      assert a == (src + a)[|src|..] && b == (src + b)[|src|..];
      assert k.key == dst + a && j.key == dst + b;
    } else {
      assert src <= src + k.key[if dst <= k.key then |dst| else 0..];
      assert src <= src + j.key[if dst <= j.key then |dst| else 0..];
    }
  }

  lemma MovePrefixRelocates(db: Db, tx: Db, bucket: ByteString, src: ByteString, dst: ByteString, now: int)
    requires FaithfulMove(db, tx, bucket, src, dst, now)
    ensures Relocates(View(db), View(tx), MovePrefixOrigin(View(db).Keys, bucket, src, dst))
  {
    hide View, FaithfulMove, PrefixOrigin, MovePrefixOrigin, RowClaim;
    var view, view' := View(db), View(tx);
    var origin := MovePrefixOrigin(view.Keys, bucket, src, dst);
    forall k | k in view'
      ensures origin(k) in view && PrefixOrigin(view.Keys, bucket, src, dst, k, origin(k))
      ensures SameChunks(view'[k].chunks, view[origin(k)].chunks)
    {
      MovedEntry(db, tx, bucket, src, dst, now, k);
    }
    forall k, j | k in view' && j in view' && origin(k) == origin(j) ensures k == j {
      OriginsAreDistinct(view.Keys, bucket, src, dst, k, j, origin(k));
    }
  }

  lemma MovePrefixStep(s: System, bucket: ByteString, src: ByteString, dst: ByteString, s': System, overwrite: bool,
                       now: int)
    requires Inv(s) && MovePrefixWith(s, bucket, src, dst, s', overwrite, now)
    requires ExactBucket(s.db, bucket, src) && TargetsEscape(s.db, bucket, src, dst)
    ensures Inv(s') && Means(MeaningOf(s), Request.MovePrefix(bucket, src, dst), MeaningOf(s'))
  {
    hide Inv, View, WellFormed, MovePrefixTx, MeaningOf, Relocates, FaithfulMove, ExactBucket, TargetsEscape, IsTarget,
         PrefixOrigin,
         MovePrefixOrigin;
    InvOwned(s);
    MovePrefixMeaning(s.db, bucket, src, dst, overwrite, now);
    MovePrefixRelocates(s.db, s'.db, bucket, src, dst, now);
    var origin := MovePrefixOrigin(View(s.db).Keys, bucket, src, dst);
    RelocationStep(s, s', origin);
    BodyKeys(s);
    BodyKeys(s');
    var m, m' := MeaningOf(s), MeaningOf(s');
    forall k
      ensures k in m'.bodies ==> origin(k) in m.bodies && PrefixOrigin(m.bodies.Keys, bucket, src, dst, k, origin(k))
      ensures forall f :: f in m.bodies && PrefixOrigin(m.bodies.Keys, bucket, src, dst, k, f) ==>
                k in m'.bodies && f == origin(k)
    {
      MovedEntry(s.db, s'.db, bucket, src, dst, now, k);
    }
  }
}
