/** Whole runs of requests, one after the other, from an empty store. */
module GatewayRuns {
  import opened ByteStrings
  import opened Metadata
  import opened Telegram
  import opened Chunks
  import opened Ranges
  import opened RangeHeader
  import opened Uploads
  import opened Multipart
  import opened Tables
  import opened SQLite
  import opened PrefixCopy
  import opened Rename
  import opened Ownership
  import opened Gateway
  import opened GatewaySteps
  import CompletionStep
  import Relocations

  lemma CreateStep(s: System, id: ByteString, k: ObjectKey, s': System, contentType: ByteString, createdAt: int)
    requires Inv(s) && CreateWith(s, id, k, s', contentType, createdAt)
    ensures Inv(s') && Means(MeaningOf(s), Create(id, k), MeaningOf(s'))
  {
    hide View, WellFormed, Body, PartBody;
    var from: Lineage := o => Some(o);
    forall o ensures ClaimOf(View(s'.db), s'.sessions, o) == ClaimOf(View(s.db), s.sessions, o) {
    }
    HandingOnKeepsOwned(View(s.db), s.sessions, s.cloud, View(s'.db), s'.sessions, s'.cloud, from);
    assert MeaningOf(s').drafts == MeaningOf(s).drafts[id := Draft(k, map[])];
  }

  lemma DropStep(s: System, id: ByteString, s': System)
    requires Inv(s) && Step(s, Drop(id), s')
    ensures Inv(s') && Means(MeaningOf(s), Drop(id), MeaningOf(s'))
  {
    hide View, WellFormed, Body, PartBody;
    var from: Lineage := o => Some(o);
    HandingOnKeepsOwned(View(s.db), s.sessions, s.cloud, View(s'.db), s'.sessions, s'.cloud, from);
    assert MeaningOf(s').drafts == MeaningOf(s).drafts - {id};
  }

  lemma FailStep(s: System, s': System)
    requires Inv(s) && Step(s, Fail, s')
    ensures Inv(s') && Means(MeaningOf(s), Fail, MeaningOf(s'))
  {
    hide Inv, View, WellFormed, Owned, HandedOn, DraftOf, Body, PartsAddUp;
    InvOwned(s);
    var from: Lineage := o => Some(o);
    SentOnlyHandsOn(View(s.db), s.sessions, s.cloud, s'.cloud, from);
    InvHandedOn(s, s', from);
    DraftsHandedOn(View(s.db), s.sessions, s.cloud, View(s'.db), s.sessions, s'.cloud, from);
    OthersKeepTheirBodies(View(s.db), s.sessions, s.cloud, View(s'.db), s.sessions, s'.cloud, from, {});
    assert forall id :: KeepsUpload(from, id);
    assert MeaningOf(s').bodies == MeaningOf(s).bodies;
  }

  lemma SentOnlyHandsOn(view: Entries, sessions: Sessions, cloud: Cloud, cloud': Cloud, from: Lineage)
    requires Owned(view, sessions, cloud) && cloud.GrowsTo(cloud')
    requires forall o :: from(o) == Some(o)
    ensures HandedOn(view, sessions, cloud, view, sessions, cloud', from)
  {
  }

  /** Every request keeps the invariant and does what it means: no two owners share a Telegram message, no live row or
      staged part names a deleted one, the tables stay well formed, and the bodies change as the client was told. */
  lemma StepRefines(s: System, r: Request, s': System)
    requires Inv(s) && Step(s, r, s')
    ensures Inv(s') && Means(MeaningOf(s), r, MeaningOf(s'))
  {
    hide Inv, Means, MeaningOf, PutWith, CreateWith, StorePartWith, CompleteWith, MoveWith, MovePrefixWith, ExactBucket,
         TargetsEscape, RenameTx, Purged;
    match r
    case Put(k, body) =>
      var e, sent :| PutWith(s, k, body, s', e, sent);
      PutStep(s, k, body, s', e, sent);
    case Create(id, k) =>
      var contentType, createdAt :| CreateWith(s, id, k, s', contentType, createdAt);
      CreateStep(s, id, k, s', contentType, createdAt);
    case StorePart(id, n, body) =>
      var chunkSize, part :| StorePartWith(s, id, n, body, s', chunkSize, part);
      StorePartStep(s, id, n, body, s', chunkSize, part);
    case Complete(id, requested) =>
      var chosen, o :| CompleteWith(s, id, requested, s', chosen, o);
      CompletionStep.CompleteStep(s, id, requested, s', chosen, o);
    case Drop(id) => DropStep(s, id, s');
    case Delete(k) => DeleteStep(s, k, s');
    case Move(bucket, src, dst) =>
      var overwrite, now :| MoveWith(s, bucket, src, dst, s', overwrite, now);
      MoveStep(s, bucket, src, dst, s', overwrite, now);
    case MovePrefix(bucket, src, dst) =>
      var overwrite, now :| MovePrefixWith(s, bucket, src, dst, s', overwrite, now);
      Relocations.MovePrefixStep(s, bucket, src, dst, s', overwrite, now);
    case Rename(from, to) => Relocations.RenameStep(s, from, to, s');
    case Fail => FailStep(s, s');
  }

  // ----- Runs -----

  /** A process start over sound tables: uploads in progress live in memory only. */
  ghost predicate Initial(s: System) {
    Inv(s) && s.sessions == map[]
  }

  ghost predicate IsRun(states: seq<System>, requests: seq<Request>) {
    && |states| == |requests| + 1
    && Initial(states[0])
    && forall i :: 0 <= i < |requests| ==> Step(states[i], requests[i], states[i + 1])
  }

  lemma NoRowsNoChunks(db: Db)
    requires db.objects == map[] && db.chunks == map[]
    ensures forall k :: ListChunks(db, k) == []
  {
    forall k ensures ListChunks(db, k) == [] {
      ListChunksIsListing(db, k);
      ListingIsUnique(db, k, ListChunks(db, k), []);
    }
  }

  lemma EmptyStore(s: System)
    requires s.db.objects == map[] && s.db.chunks == map[] && s.sessions == map[] && s.cloud.documents == map[]
    ensures Inv(s)
  {
    hide View, ListChunks, GoodEntry;
    NoRowsNoChunks(s.db);
    ViewMeaning(s.db);
    assert forall o :: ClaimOf(View(s.db), s.sessions, o) == None;
    hide ClaimOf, PartsAddUp;
    NoParts(s.sessions);
  }

  lemma NoParts(sessions: Sessions)
    requires sessions == map[]
    ensures PartsAddUp(sessions)
  {
  }

  lemma {:induction false} RunKeepsInv(states: seq<System>, requests: seq<Request>, n: nat)
    requires IsRun(states, requests) && n < |states|
    ensures Inv(states[n])
    decreases n
  {
    hide Inv, Step, Means, MeaningOf;
    if n > 0 {
      RunKeepsInv(states, requests, n - 1);
      StepRefines(states[n - 1], requests[n - 1], states[n]);
    }
  }

  lemma StartsWithoutDrafts(s: System)
    requires Initial(s)
    ensures MeaningOf(s).drafts == map[]
  {
  }

  /** Every run: bodies and drafts go through exactly what the requests mean, one by one, and no state of the run has
      two owners of one message or a live row whose message is gone. */
  lemma RunRefines(states: seq<System>, requests: seq<Request>)
    requires IsRun(states, requests)
    ensures MeaningOf(states[0]).drafts == map[]
    ensures forall i :: 0 <= i < |requests| ==> Means(MeaningOf(states[i]), requests[i], MeaningOf(states[i + 1]))
    ensures forall i :: 0 <= i < |states| ==> Inv(states[i])
  {
    hide Inv, Step, Means;
    StartsWithoutDrafts(states[0]);
    hide MeaningOf;
    forall i | 0 <= i < |states| ensures Inv(states[i]) {
      RunKeepsInv(states, requests, i);
    }
    forall i | 0 <= i < |requests| ensures Means(MeaningOf(states[i]), requests[i], MeaningOf(states[i + 1])) {
      StepRefines(states[i], requests[i], states[i + 1]);
    }
  }

  // ----- Reading back -----

  /** What GetObject streams from a state. */
  ghost predicate Streams(s: System, k: ObjectKey, range: Option<ByteRange>, bytes: ByteString) {
    && k in s.db.objects
    && var selected := Selection(ListChunks(s.db, k), range);
    && Downloadable(s.cloud.documents, selected)
    && bytes == Stream(s.cloud.documents, selected)
  }

  ghost predicate InBounds(body: ByteString, range: Option<ByteRange>) {
    range.Some? ==> 0 <= range.value.start <= range.value.end < |body|
  }

  /** A GET streams exactly the requested bytes of the body the store means. */
  lemma ReadsMeaning(s: System, k: ObjectKey, range: Option<ByteRange>)
    requires Inv(s) && k in MeaningOf(s).bodies && InBounds(MeaningOf(s).bodies[k], range)
    ensures Streams(s, k, range, Requested(MeaningOf(s).bodies[k], range))
  {
    hide Owned, Contiguous, Content, Total, Selection, Stream, Downloadable;
    var view := View(s.db);
    assert GoodEntry(k, view[k]);
    OwnedEntryIsReadable(view, s.sessions, s.cloud, k);
    ReadIsExact(s.cloud.documents, view[k].chunks, MeaningOf(s).bodies[k], range);
  }

  /** An object row records the size of the body the store means by its key. */
  lemma RowHasItsSize(s: System, k: ObjectKey)
    requires Inv(s) && k in s.db.objects
    ensures k in MeaningOf(s).bodies && s.db.objects[k].size == |MeaningOf(s).bodies[k]|
  {
    hide Owned, Contiguous, Total, Content;
    var view := View(s.db);
    assert GoodEntry(k, view[k]);
    OwnedEntryIsReadable(view, s.sessions, s.cloud, k);
    ContentLength(s.cloud.documents, view[k].chunks);
  }

  /** A ranged GET over HTTP: whatever Range header is accepted for the object's recorded size, the bytes streamed are
      that slice of the body, and as many as the Content-Length sent ahead of them. */
  lemma RangedGetSendsItsLength(s: System, k: ObjectKey, header: ByteString)
    requires Inv(s) && k in s.db.objects && ParseRange(header, s.db.objects[k].size).Some?
    ensures k in MeaningOf(s).bodies
    ensures var range, body := ParseRange(header, s.db.objects[k].size), MeaningOf(s).bodies[k];
            && InBounds(body, range)
            && Streams(s, k, range, Requested(body, range))
            && |Requested(body, range)| == range.value.Length()
  {
    hide Inv, MeaningOf, Streams, ParseRange;
    RowHasItsSize(s, k);
    AcceptedRangesAreInBounds(header, s.db.objects[k].size);
    ReadsMeaning(s, k, ParseRange(header, s.db.objects[k].size));
  }

  /** A request that neither writes, deletes nor moves `k`. */
  ghost predicate LeavesAlone(m: Meaning, r: Request, k: ObjectKey) {
    match r
    case Put(j, _) => j != k
    case Delete(j) => j != k
    case Complete(id, _) => id in m.drafts ==> m.drafts[id].k != k
    case Move(bucket, src, dst) => ObjectKey(bucket, src) != k && ObjectKey(bucket, dst) != k
    case MovePrefix(bucket, src, dst) => k.bucket == bucket ==> !(src <= k.key) && !(dst <= k.key)
    case Rename(from, _) => k.bucket != from
    case _ => true
  }

  lemma LeftAlone(m: Meaning, r: Request, m': Meaning, k: ObjectKey)
    requires Means(m, r, m') && LeavesAlone(m, r, k) && k in m.bodies
    ensures k in m'.bodies && m'.bodies[k] == m.bodies[k]
  {
    match r
    case MovePrefix(bucket, src, dst) =>
      assert PrefixOrigin(m.bodies.Keys, bucket, src, dst, k, k);
    case Rename(from, to) =>
      assert RenameKey(k, from, to) == k;
    case _ =>
  }

  lemma {:induction false} BodyStays(states: seq<System>, requests: seq<Request>, i: nat, n: nat, k: ObjectKey)
    requires IsRun(states, requests) && i <= n < |states|
    requires k in MeaningOf(states[i]).bodies
    requires forall j :: i <= j < n ==> LeavesAlone(MeaningOf(states[j]), requests[j], k)
    ensures k in MeaningOf(states[n]).bodies && MeaningOf(states[n]).bodies[k] == MeaningOf(states[i]).bodies[k]
    decreases n
  {
    hide MeaningOf, Step, Inv, Means, LeavesAlone;
    if i < n {
      BodyStays(states, requests, i, n - 1, k);
      RunKeepsInv(states, requests, n - 1);
      StepRefines(states[n - 1], requests[n - 1], states[n]);
      LeftAlone(MeaningOf(states[n - 1]), requests[n - 1], MeaningOf(states[n]), k);
    }
  }

  /** In every run, a GET streams the requested slice of what the last PUT of that key sent. */
  lemma LastPutIsRead(states: seq<System>, requests: seq<Request>, i: nat, n: nat, k: ObjectKey, body: ByteString,
                      range: Option<ByteRange>)
    requires IsRun(states, requests) && i < n < |states|
    requires requests[i] == Put(k, body)
    requires forall j :: i < j < n ==> LeavesAlone(MeaningOf(states[j]), requests[j], k)
    requires InBounds(body, range)
    ensures Streams(states[n], k, range, Requested(body, range))
  {
    hide MeaningOf, Step, Inv, LeavesAlone, Streams;
    RunRefines(states, requests);
    BodyStays(states, requests, i + 1, n, k);
    ReadsMeaning(states[n], k, range);
  }

  // ----- Parts: the last body stored for each number -----

  /** The body stored last for part `n` of upload `id` among the first `i` requests. */
  function LastStored(requests: seq<Request>, id: ByteString, n: int, i: nat): Option<ByteString>
    requires i <= |requests|
  {
    if i == 0 then None
    else
      match requests[i - 1]
      case StorePart(id', n', body) => if id' == id && n' == n then Some(body) else LastStored(requests, id, n, i - 1)
      case Create(id', _) => if id' == id then None else LastStored(requests, id, n, i - 1)
      case _ => LastStored(requests, id, n, i - 1)
  }

  /** An upload's draft holds, for each part number, the body stored last for it, in whatever order parts came. */
  lemma {:induction false} DraftsHoldLastStored(states: seq<System>, requests: seq<Request>, id: ByteString, n: int,
                                                i: nat)
    requires IsRun(states, requests) && i < |states| && id in MeaningOf(states[i]).drafts
    ensures var parts := MeaningOf(states[i]).drafts[id].parts;
            LastStored(requests, id, n, i) == if n in parts then Some(parts[n]) else None
    decreases i
  {
    hide MeaningOf, Step, Inv;
    RunRefines(states, requests);
    if i > 0 {
      var m, m' := MeaningOf(states[i - 1]), MeaningOf(states[i]);
      assert Means(m, requests[i - 1], m');
      if id in m.drafts {
        DraftsHoldLastStored(states, requests, id, n, i - 1);
        DraftMoves(m, requests[i - 1], m', id);
      } else {
        DraftMoves(m, requests[i - 1], m', id);
      }
    }
  }

  lemma DraftMoves(m: Meaning, r: Request, m': Meaning, id: ByteString)
    requires Means(m, r, m') && id in m'.drafts
    ensures id !in m.drafts ==> r.Create? && r.id == id
    ensures r.Create? && r.id == id ==> m'.drafts[id].parts == map[]
    ensures id in m.drafts && !(r.Create? && r.id == id) ==>
              && m'.drafts[id].k == m.drafts[id].k
              && m'.drafts[id].parts
                 == (if r.StorePart? && r.id == id then m.drafts[id].parts[r.n := r.body] else m.drafts[id].parts)
  {
  }

  /** In every run, a GET after a completion streams the requested slice of the listed parts' last bodies, joined in
      the order listed, which is ascending part number. */
  lemma LastCompletionIsRead(states: seq<System>, requests: seq<Request>, i: nat, n: nat, range: Option<ByteRange>,
                             bodies: seq<ByteString>)
    requires IsRun(states, requests) && i < n < |states|
    requires requests[i].Complete? && |bodies| == |requests[i].requested|
    requires forall x :: 0 <= x < |bodies| ==>
               LastStored(requests, requests[i].id, requests[i].requested[x].partNumber, i) == Some(bodies[x])
    requires requests[i].id in MeaningOf(states[i]).drafts
    requires var k := MeaningOf(states[i]).drafts[requests[i].id].k;
             forall j :: i < j < n ==> LeavesAlone(MeaningOf(states[j]), requests[j], k)
    requires InBounds(Concat(bodies), range)
    ensures Streams(states[n], MeaningOf(states[i]).drafts[requests[i].id].k, range, Requested(Concat(bodies), range))
  {
    hide MeaningOf, Step, Inv, LeavesAlone, Streams, LastStored, Concat;
    var id, requested := requests[i].id, requests[i].requested;
    var m := MeaningOf(states[i]);
    RunRefines(states, requests);
    assert MeansComplete(m, id, requested, MeaningOf(states[i + 1]));
    var listed := ListedBodies(m.drafts[id].parts, requested);
    forall x | 0 <= x < |bodies| ensures listed[x] == bodies[x] {
      DraftsHoldLastStored(states, requests, id, requested[x].partNumber, i);
    }
    assert listed == bodies;
    BodyStays(states, requests, i + 1, n, m.drafts[id].k);
    ReadsMeaning(states[n], m.drafts[id].k, range);
  }

  // ----- Where ownership fails -----

  /** CopyObject within one bot and chat: new rows, same messages, and no cleanup of what they replace. */
  ghost predicate CopyWith(s: System, from: ObjectKey, to: ObjectKey, s': System, now: int) {
    && from in View(s.db)
    && var e := Rekeyed(View(s.db)[from], to.bucket, to.key, now);
    && PutInTx(s.db, e.info, e.chunks) == Some(s'.db)
    && s' == s.(db := s'.db)
  }

  /** A metadata-only copy keeps the tables well formed, but keeps messages in one hand only when there is nothing to
      share: a copy onto itself, or of an object without chunks. */
  lemma CopySharesMessages(s: System, from: ObjectKey, to: ObjectKey, s': System, now: int)
    requires Inv(s) && CopyWith(s, from, to, s', now)
    ensures WellFormed(s'.db) && View(s'.db) == View(s.db)[to := Rekeyed(View(s.db)[from], to.bucket, to.key, now)]
    ensures Inv(s') <==> from == to || View(s.db)[from].chunks == []
  {
    hide View, WellFormed, PutInTx, GoodEntry;
    var view := View(s.db);
    var e := Rekeyed(view[from], to.bucket, to.key, now);
    CopiedEntryIsGood(s.db, from, to, now);
    PutRefines(s.db, to, e);
    Relocations.SameClaims(view[from].chunks, to.bucket, to.key);
    if from == to {
      CopyOntoItself(s, to, s', e);
    } else if view[from].chunks == [] {
      CopyOfNothing(s, to, s', e);
    } else {
      var o, p := Row(from, 0), Row(to, 0);
      assert ClaimOf(View(s'.db), s.sessions, o) == Some(RowClaim(view[from].chunks[0]));
      assert ClaimOf(View(s'.db), s.sessions, p) == Some(RowClaim(e.chunks[0]));
      assert SameMessage(View(s'.db), s.sessions, o, p) && o != p;
    }
  }

  lemma CopiedEntryIsGood(db: Db, from: ObjectKey, to: ObjectKey, now: int)
    requires WellFormed(db) && from in View(db)
    ensures GoodEntry(to, Rekeyed(View(db)[from], to.bucket, to.key, now))
  {
    hide GoodEntry;
    assert GoodEntry(from, View(db)[from]);
    RekeyedIsGood(from, View(db)[from], to.bucket, to.key, now);
  }

  lemma CopyOntoItself(s: System, k: ObjectKey, s': System, e: Entry)
    requires Inv(s) && k in View(s.db) && |e.chunks| == |View(s.db)[k].chunks|
    requires forall i :: 0 <= i < |e.chunks| ==> RowClaim(e.chunks[i]) == RowClaim(View(s.db)[k].chunks[i])
    requires WellFormed(s'.db) && View(s'.db) == View(s.db)[k := e] && s' == s.(db := s'.db)
    ensures Inv(s')
  {
    hide View, WellFormed, Owned, Inv;
    RelocationStep(s, s', j => j);
  }

  lemma CopyOfNothing(s: System, k: ObjectKey, s': System, e: Entry)
    requires Inv(s) && e.chunks == []
    requires WellFormed(s'.db) && View(s'.db) == View(s.db)[k := e] && s' == s.(db := s'.db)
    ensures Inv(s')
  {
    hide View, WellFormed, Inv, Owned, HandedOn;
    InvOwned(s);
    EmptyEntryHandsOn(View(s.db), s.sessions, s.cloud, k, e);
    InvHandedOn(s, s', Newcomers(k));
  }

  lemma EmptyEntryHandsOn(view: Entries, sessions: Sessions, cloud: Cloud, k: ObjectKey, e: Entry)
    requires e.chunks == []
    ensures HandedOn(view, sessions, cloud, view[k := e], sessions, cloud, Newcomers(k))
  {
  }

  /** WebDAV's copy of one object is such a copy: when it succeeds, which it does iff there is a source and it may write
      the target, the tables stay well formed, and the store stays sound iff there is nothing to share. */
  lemma DavCopySharesMessages(s: System, bucket: ByteString, src: ByteString, dst: ByteString, overwrite: bool,
                              now: int)
    requires Inv(s)
    ensures var from, to := ObjectKey(bucket, src), ObjectKey(bucket, dst);
            var r := CopyTx(s.db, bucket, src, dst, overwrite, now);
            && (r.Ok? <==> from in s.db.objects && (overwrite || to !in s.db.objects))
            && (r.Ok? ==> WellFormed(r.value.0))
            && (r.Ok? ==> (Inv(s.(db := r.value.0)) <==> src == dst || ListChunks(s.db, from) == []))
  {
    hide WellFormed, PutInTx, ListChunks, CopyTx, CopyWith, Owned;
    var from, to := ObjectKey(bucket, src), ObjectKey(bucket, dst);
    CopyRefines(s.db, bucket, src, dst, overwrite, now);
    var r := CopyTx(s.db, bucket, src, dst, overwrite, now);
    if r.Ok? {
      DavCopyIsACopy(s, bucket, src, dst, overwrite, now);
      CopySharesMessages(s, from, to, s.(db := r.value.0), now);
    }
  }

  lemma DavCopyIsACopy(s: System, bucket: ByteString, src: ByteString, dst: ByteString, overwrite: bool, now: int)
    requires CopyTx(s.db, bucket, src, dst, overwrite, now).Ok?
    ensures CopyWith(s, ObjectKey(bucket, src), ObjectKey(bucket, dst),
                     s.(db := CopyTx(s.db, bucket, src, dst, overwrite, now).value.0), now)
  {
    hide PutInTx, ListChunks;
  }

  /** WebDAV's copy of a collection, when no target starts with the source prefix: the tables stay well formed, and the
      store stays sound iff no source has a chunk to share. */
  lemma CopyPrefixSharesMessages(s: System, bucket: ByteString, src: ByteString, dst: ByteString, tx: Db, now: int)
    requires Inv(s) && Keyed(tx) && FaithfulCopy(s.db, tx, bucket, src, dst, now)
    requires forall k :: IsTarget(s.db, bucket, src, dst, k) ==> !(src <= k.key)
    ensures WellFormed(tx)
    ensures Inv(s.(db := tx)) <==>
              forall key :: IsSource(s.db, bucket, src, key) ==> ListChunks(s.db, ObjectKey(bucket, key)) == []
  {
    hide WellFormed, Owned, PartsAddUp, ListChunks, FaithfulCopy, Target, HandedOn, Inv;
    InvOwned(s);
    FaithfulCopyIsWellFormed(s.db, tx, bucket, src, dst, now);
    if key :| IsSource(s.db, bucket, src, key) && ListChunks(s.db, ObjectKey(bucket, key)) != [] {
      SharedWithTarget(s, bucket, src, dst, tx, now, key);
    } else {
      NothingToShare(s, bucket, src, dst, tx, now);
      InvHandedOn(s, s.(db := tx), o => Some(o));
    }
  }

  lemma SharedWithTarget(s: System, bucket: ByteString, src: ByteString, dst: ByteString, tx: Db, now: int,
                         key: ByteString)
    requires FaithfulCopy(s.db, tx, bucket, src, dst, now) && IsSource(s.db, bucket, src, key)
    requires forall k :: IsTarget(s.db, bucket, src, dst, k) ==> !(src <= k.key)
    requires ListChunks(s.db, ObjectKey(bucket, key)) != []
    ensures !Inv(s.(db := tx))
  {
    hide WellFormed, PartsAddUp, ListChunks, Target;
    var k, t := ObjectKey(bucket, key), ObjectKey(bucket, Target(key, src, dst));
    var chunks := ListChunks(s.db, k);
    assert IsTarget(s.db, bucket, src, dst, t) && !IsTarget(s.db, bucket, src, dst, k);
    assert CopiedTo(s.db, tx, bucket, key, Target(key, src, dst), now);
    assert SameEntry(s.db, tx, k);
    Relocations.SameClaims(chunks, bucket, t.key);
    assert ClaimOf(View(tx), s.sessions, Row(k, 0)) == Some(RowClaim(chunks[0]));
    assert ClaimOf(View(tx), s.sessions, Row(t, 0)) == Some(RowClaim(chunks[0]));
    assert SameMessage(View(tx), s.sessions, Row(k, 0), Row(t, 0));
  }

  lemma NothingToShare(s: System, bucket: ByteString, src: ByteString, dst: ByteString, tx: Db, now: int)
    requires FaithfulCopy(s.db, tx, bucket, src, dst, now)
    requires forall key :: IsSource(s.db, bucket, src, key) ==> ListChunks(s.db, ObjectKey(bucket, key)) == []
    ensures HandedOn(View(s.db), s.sessions, s.cloud, View(tx), s.sessions, s.cloud, o => Some(o))
  {
    hide ListChunks, Target;
    var view, view' := View(s.db), View(tx);
    forall k | IsTarget(s.db, bucket, src, dst, k) ensures k in view' && view'[k].chunks == [] {
      var key :| IsSource(s.db, bucket, src, key) && k.key == Target(key, src, dst);
      assert CopiedTo(s.db, tx, bucket, key, Target(key, src, dst), now);
    }
    forall k | !IsTarget(s.db, bucket, src, dst, k) && k in view' ensures k in view && view'[k] == view[k] {
      assert SameEntry(s.db, tx, k);
    }
    hide View, FaithfulCopy, IsTarget;
    assert forall o :: ClaimOf(view', s.sessions, o).Some? ==>
             ClaimOf(view', s.sessions, o) == ClaimOf(view, s.sessions, o);
  }

  /** Deleting the source of such a copy takes the copy's bytes away. */
  lemma CopyLosesItsBytes(s: System, from: ObjectKey, to: ObjectKey, s': System, s'': System, now: int)
    requires Inv(s) && CopyWith(s, from, to, s', now) && from != to && View(s.db)[from].chunks != []
    requires Step(s', Delete(from), s'')
    requires forall id :: id in Messages(View(s.db)[from].chunks) ==> id !in s''.cloud.documents
    ensures to in View(s''.db) && !Readable(s''.cloud.documents, View(s''.db)[to].chunks)
  {
    hide WellFormed, PutInTx, DeleteInTx, View, Owned, Purged;
    CopySharesMessages(s, from, to, s', now);
    DeleteRefines(s'.db, from);
    var e := View(s''.db)[to];
    Relocations.SameClaims(View(s.db)[from].chunks, to.bucket, to.key);
    OwnedEntryIsReadable(View(s.db), s.sessions, s.cloud, from);
    assert e.chunks[0].telegramFileID in Messages(View(s.db)[from].chunks);
  }

  /** DeleteObject refused at its `n`-th chunk leaves the rows as they are. The store is still sound iff every deletion
      before the refusal was answered "too old": one that took effect leaves a row whose message is gone. */
  lemma HalfDeletedIff(s: System, k: ObjectKey, answers: nat -> Deletion, start: nat, n: nat)
    requires Inv(s) && k in s.db.objects && n < |ListChunks(s.db, k)|
    requires forall i :: start <= i < start + n ==> answers(i) != Refused
    requires answers(start + n) == Refused
    ensures Inv(s.(cloud := AfterDeletions(s.cloud, ListChunks(s.db, k), answers, start, n + 1)))
       <==> forall i :: start <= i < start + n ==> answers(i) == TooOld
  {
    hide WellFormed, ListChunks, PartsAddUp;
    var chunks := ListChunks(s.db, k);
    var after := AfterDeletions(s.cloud, chunks, answers, start, n + 1);
    if i :| start <= i < start + n && answers(i) != TooOld {
      DeletedIsGone(s.cloud, chunks, answers, start, n + 1, i - start);
      assert ClaimOf(View(s.db), s.sessions, Row(k, i - start)) == Some(RowClaim(chunks[i - start]));
      assert !Backed(after.documents, RowClaim(chunks[i - start]));
    } else {
      NothingDeleted(s.cloud, chunks, answers, start, n + 1);
    }
  }

  /** An object row over chunk rows that hold a body of its size is a good entry. */
  lemma UploadedEntryIsGood(k: ObjectKey, o: Object, rows: seq<Chunk>, documents: Documents, body: ByteString)
    requires KeyOfObject(o) == k && o.size == |body| && o.chunkCount == |rows|
    requires Holds(documents, rows, body) && forall i :: 0 <= i < |rows| ==> OwnerOfChunk(rows[i]) == k
    ensures GoodEntry(k, Entry(o, rows))
  {
    ContentLength(documents, rows);
  }

  lemma TwoRowsHold(documents: Documents, first: Chunk, second: Chunk, data: ByteString)
    requires first.partNumber == 1 && first.offset == 0 && first.size == |data| > 0
    requires second.partNumber == 2 && second.offset == |data| && second.size == |data|
    requires first.telegramFileID in documents && documents[first.telegramFileID] == data
    requires second.telegramFileID in documents && documents[second.telegramFileID] == data
    ensures Holds(documents, [first, second], data + data)
  {
    assert Holds(documents, [], []);
    HoldsSnoc(documents, documents, [], [], first, data);
    assert [] + [first] == [first] && [] + data == data;
    HoldsSnoc(documents, documents, [first], data, second, data);
    assert [first] + [second] == [first, second];
  }

  /** A sound store that holds an object of two chunks. */
  lemma TwoChunkStore() returns (s: System, k: ObjectKey)
    ensures Inv(s) && k in s.db.objects && |ListChunks(s.db, k)| == 2
  {
    hide View, ListChunks, PutInTx, WellFormed, Owned, PartsAddUp, MeaningOf, Means, GoodEntry, Holds, Inv;
    var empty := System(Db(map[], map[], map[]), Cloud(map[], 0), map[]);
    EmptyStore(empty);
    var b: ByteString := [0];
    k := ObjectKey(b, b);
    var first, second := Chunk(b, b, 1, 0, 1, b, 0, 0, b, b), Chunk(b, b, 2, 1, 1, b, 1, 1, b, b);
    var e := Entry(Object(b, b, 2, b, b, b, 0, 2, b, b), [first, second]);
    var cloud := Cloud(map[0 := b, 1 := b], 2);
    TwoRowsHold(cloud.documents, first, second, b);
    UploadedEntryIsGood(k, e.info, e.chunks, cloud.documents, b + b);
    InvOwned(empty);
    PutRefines(empty.db, k, e);
    s := System(PutInTx(empty.db, e.info, e.chunks).value, cloud, map[]);
    assert PutWith(empty, k, b + b, s, e, cloud);
    PutStep(empty, k, b + b, s, e, cloud);
    ViewMeaning(s.db);
  }

  /** Two chunks, the first deletion answered "deleted", the second refused: the object is still listed, and its first
      message is gone. */
  lemma DeletedThenRefusedDangles(answers: nat -> Deletion, start: nat) returns (s: System, k: ObjectKey)
    requires answers(start) == Deleted && answers(start + 1) == Refused
    ensures Inv(s) && k in s.db.objects && |ListChunks(s.db, k)| == 2
    ensures !Inv(s.(cloud := AfterDeletions(s.cloud, ListChunks(s.db, k), answers, start, 2)))
  {
    hide Inv, AfterDeletions;
    s, k := TwoChunkStore();
    HalfDeletedIff(s, k, answers, start, 1);
  }
}
