/** Completing an upload hands the listed parts' messages on to the new object's rows, one to one: that is what the
    strictly ascending part order of completeParts is for. */
module CompletionStep {
  import opened ByteStrings
  import opened Metadata
  import opened Telegram
  import opened Chunks
  import opened Multipart
  import opened Tables
  import opened SQLite
  import opened Ownership
  import opened Gateway
  import opened GatewaySteps

  /** The part, and the chunk within it, that the i-th chunk of a flattened list is. */
  function Locate(parts: seq<MultipartPart>, i: nat): (at: (nat, nat))
    requires i < |Flatten(parts)|
    ensures at.0 < |parts| && at.1 < |parts[at.0].chunks| && parts[at.0].chunks[at.1] == Flatten(parts)[i]
  {
    var n := |parts| - 1;
    var init := Flatten(parts[..n]);
    if i < |init| then Locate(parts[..n], i) else (n, i - |init|)
  }

  lemma {:induction false} LocateIsInjective(parts: seq<MultipartPart>, i: nat, j: nat)
    requires i < |Flatten(parts)| && j < |Flatten(parts)| && Locate(parts, i) == Locate(parts, j)
    ensures i == j
  {
    var n := |parts| - 1;
    var init := Flatten(parts[..n]);
    if i < |init| && j < |init| {
      LocateIsInjective(parts[..n], i, j);
    }
  }

  lemma {:induction false} RowIsItsChunk(bucket: ByteString, key: ByteString, chunks: seq<MultipartChunk>, i: nat)
    requires i < |chunks|
    ensures RowClaim(Rows(bucket, key, chunks)[i]) == PieceClaim(chunks[i])
    ensures OwnerOfChunk(Rows(bucket, key, chunks)[i]) == ObjectKey(bucket, key)
  {
    if i < |chunks| - 1 {
      RowIsItsChunk(bucket, key, chunks[..|chunks| - 1], i);
    }
  }

  function FromParts(k: ObjectKey, id: ByteString, requested: seq<CompletedPart>, chosen: seq<MultipartPart>): Lineage
    requires |chosen| == |requested|
  {
    (o: Owner) =>
      if o.Row? && o.k == k then
        if 0 <= o.i < |Flatten(chosen)| then
          var at := Locate(chosen, o.i);
          Some(Piece(id, requested[at.0].partNumber, at.1))
        else None
      else Some(o)
  }

  lemma ChosenAreListed(parts: Parts, requested: seq<CompletedPart>, chosen: seq<MultipartPart>)
    requires Completes(parts, requested, Ok(chosen))
    ensures |chosen| == |requested|
    ensures forall i :: 0 <= i < |requested| ==>
              requested[i].partNumber in parts && chosen[i] == parts[requested[i].partNumber]
    ensures forall i, j :: 0 <= i < j < |requested| ==> requested[i].partNumber != requested[j].partNumber
  {
    hide EtagMatches, InOrder;
    forall i | 0 <= i < |requested|
      ensures requested[i].partNumber in parts && chosen[i] == parts[requested[i].partNumber]
    {
      assert PartMatches(parts, requested, i);
    }
    forall i, j | 0 <= i < j < |requested| ensures requested[i].partNumber != requested[j].partNumber {
      ListedPartsAscend(parts, requested, i, j);
    }
  }

  /** The state just before and after a completion. */
  ghost predicate Completing(s: System, id: ByteString, requested: seq<CompletedPart>, s': System,
                             chosen: seq<MultipartPart>, e: Entry)
  {
    && id in s.sessions && |chosen| == |requested|
    && Completes(s.sessions[id].parts, requested, Ok(chosen))
    && var k := s.sessions[id].Key();
    && e.chunks == Rows(k.bucket, k.key, Flatten(chosen))
    && Purged(s.cloud, s'.cloud, Messages(ChunksAt(View(s.db), k)))
    && s'.sessions == s.sessions - {id}
  }

  lemma NewRowComesFromItsPart(s: System, id: ByteString, requested: seq<CompletedPart>, s': System,
                               chosen: seq<MultipartPart>, e: Entry, i: int)
    requires Owned(View(s.db), s.sessions, s.cloud) && Completing(s, id, requested, s', chosen, e)
    requires 0 <= i < |e.chunks|
    ensures var k := s.sessions[id].Key();
            ComesFrom(View(s.db), s.sessions, s.cloud, s'.cloud, RowClaim(e.chunks[i]),
                      FromParts(k, id, requested, chosen)(Row(k, i)))
  {
    hide Owned, View, Completes, Purged, Messages, Rows, Flatten, Locate;
    var k := s.sessions[id].Key();
    ChosenAreListed(s.sessions[id].parts, requested, chosen);
    RowIsItsChunk(k.bucket, k.key, Flatten(chosen), i);
    var at := Locate(chosen, i);
    var piece := Piece(id, requested[at.0].partNumber, at.1);
    assert ClaimOf(View(s.db), s.sessions, piece) == Some(RowClaim(e.chunks[i]));
    Unmoved(s.cloud);
    DocumentSurvives(View(s.db), s.sessions, s.cloud, s.cloud, s'.cloud, k, piece);
  }

  lemma Unmoved(cloud: Cloud)
    ensures cloud.GrowsTo(cloud)
  {
  }

  lemma RestComesFromItself(s: System, id: ByteString, requested: seq<CompletedPart>, s': System,
                            chosen: seq<MultipartPart>, e: Entry, o: Owner)
    requires Owned(View(s.db), s.sessions, s.cloud) && Completing(s, id, requested, s', chosen, e)
    requires var k := s.sessions[id].Key();
             !(o.Row? && o.k == k) && ClaimOf(View(s.db)[k := e], s'.sessions, o).Some?
    ensures ComesFrom(View(s.db), s.sessions, s.cloud, s'.cloud,
                      ClaimOf(View(s.db)[s.sessions[id].Key() := e], s'.sessions, o).value, Some(o))
    ensures !(o.Piece? && o.id == id)
  {
    hide Owned, View, Completes, Purged, Messages;
    var k := s.sessions[id].Key();
    assert ClaimOf(View(s.db)[k := e], s'.sessions, o) == ClaimOf(View(s.db), s.sessions, o);
    Unmoved(s.cloud);
    DocumentSurvives(View(s.db), s.sessions, s.cloud, s.cloud, s'.cloud, k, o);
  }

  lemma CompletionHandsOn(s: System, id: ByteString, requested: seq<CompletedPart>, s': System,
                          chosen: seq<MultipartPart>, e: Entry)
    requires Owned(View(s.db), s.sessions, s.cloud) && Completing(s, id, requested, s', chosen, e)
    ensures var k := s.sessions[id].Key();
            HandedOn(View(s.db), s.sessions, s.cloud, View(s.db)[k := e], s'.sessions, s'.cloud,
                     FromParts(k, id, requested, chosen))
  {
    hide Owned, View, Completes, Purged, Messages, Flatten, Rows, ComesFrom, Locate;
    var k := s.sessions[id].Key();
    var view' := View(s.db)[k := e];
    var from := FromParts(k, id, requested, chosen);
    forall o | ClaimOf(view', s'.sessions, o).Some?
      ensures ComesFrom(View(s.db), s.sessions, s.cloud, s'.cloud, ClaimOf(view', s'.sessions, o).value, from(o))
    {
      if o.Row? && o.k == k {
        NewRowComesFromItsPart(s, id, requested, s', chosen, e, o.i);
      } else {
        RestComesFromItself(s, id, requested, s', chosen, e, o);
      }
    }
    forall o, p | SameOrigin(view', s'.sessions, from, o, p) ensures o == p {
      OriginsDiffer(s, id, requested, s', chosen, e, o, p);
    }
  }

  lemma OriginsDiffer(s: System, id: ByteString, requested: seq<CompletedPart>, s': System,
                      chosen: seq<MultipartPart>, e: Entry, o: Owner, p: Owner)
    requires Owned(View(s.db), s.sessions, s.cloud) && Completing(s, id, requested, s', chosen, e)
    requires var k := s.sessions[id].Key();
             SameOrigin(View(s.db)[k := e], s'.sessions, FromParts(k, id, requested, chosen), o, p)
    ensures o == p
  {
    hide Owned, View, Completes, Purged, Messages, Flatten, Rows, ComesFrom, Locate;
    var k := s.sessions[id].Key();
    if o.Row? && o.k == k && p.Row? && p.k == k {
      ChosenAreListed(s.sessions[id].parts, requested, chosen);
      LocateIsInjective(chosen, o.i, p.i);
    }
  }

  /** Where a part's chunk ends up in the flattened list. */
  lemma {:induction false} Located(parts: seq<MultipartPart>, p: nat, q: nat)
    requires p < |parts| && q < |parts[p].chunks|
    ensures |Flatten(parts[..p])| + |parts[p].chunks| <= |Flatten(parts)|
    ensures Flatten(parts)[|Flatten(parts[..p])| + q] == parts[p].chunks[q]
    decreases |parts|
  {
    var n := |parts| - 1;
    if p < n {
      Located(parts[..n], p, q);
      assert parts[..n][..p] == parts[..p];
    }
  }

  lemma {:induction false} FlattenGrows(parts: seq<MultipartPart>, p: nat, q: nat)
    requires p <= q <= |parts|
    ensures |Flatten(parts[..p])| <= |Flatten(parts[..q])|
    decreases q
  {
    if p < q {
      FlattenOneMore(parts, q - 1);
      FlattenGrows(parts, p, q - 1);
    }
  }

  /** Were a stored part listed twice, its first message would be in two rows at once: without the ascending order, a
      completion could not hand messages on one to one. */
  lemma RepeatedPartSharesMessages(parts: seq<MultipartPart>, i: nat, j: nat)
    requires i < j < |parts| && parts[i] == parts[j] && parts[i].chunks != []
    ensures var a, b := |Flatten(parts[..i])|, |Flatten(parts[..j])|;
            a < b < |Flatten(parts)| && PieceClaim(Flatten(parts)[a]) == PieceClaim(Flatten(parts)[b])
  {
    hide Flatten;
    Located(parts, i, 0);
    Located(parts, j, 0);
    FlattenOneMore(parts, i);
    FlattenGrows(parts, i + 1, j);
  }

  // ----- The completed object -----

  /** The bodies of the listed parts. */
  ghost function ChosenBodies(s: System, chosen: seq<MultipartPart>): (bodies: seq<ByteString>)
    ensures |bodies| == |chosen|
  {
    seq(|chosen|, i requires 0 <= i < |chosen| => PartBody(s.cloud.documents, chosen[i].chunks))
  }

  lemma StagedPartHolds(s: System, id: ByteString, n: int)
    requires Owned(View(s.db), s.sessions, s.cloud) && PartsAddUp(s.sessions)
    requires id in s.sessions && n in s.sessions[id].parts
    ensures var part := s.sessions[id].parts[n];
            PartHolds(s.cloud.documents, part, PartBody(s.cloud.documents, part.chunks))
  {
    hide Owned, View;
    OwnedPartIsReadable(View(s.db), s.sessions, s.cloud, id, n);
    RowsHold(s.cloud.documents, [], [], s.sessions[id].parts[n].chunks);
  }

  lemma ChosenPartsHold(s: System, id: ByteString, requested: seq<CompletedPart>, chosen: seq<MultipartPart>)
    requires Inv(s) && id in s.sessions
    requires Completes(s.sessions[id].parts, requested, Ok(chosen))
    ensures forall i :: 0 <= i < |chosen| ==> PartHolds(s.cloud.documents, chosen[i], ChosenBodies(s, chosen)[i])
  {
    hide Owned, View, Completes, PartHolds, PartBody;
    ChosenAreListed(s.sessions[id].parts, requested, chosen);
    forall i | 0 <= i < |chosen| ensures PartHolds(s.cloud.documents, chosen[i], ChosenBodies(s, chosen)[i]) {
      StagedPartHolds(s, id, requested[i].partNumber);
    }
  }

  lemma BuiltEntryIsGood(s: System, id: ByteString, requested: seq<CompletedPart>, chosen: seq<MultipartPart>,
                         o: Object)
    requires Inv(s) && id in s.sessions
    requires Completes(s.sessions[id].parts, requested, Ok(chosen))
    requires var k := s.sessions[id].Key();
             && KeyOfObject(o) == k && o.size == PartSizeSum(chosen)
             && o.chunkCount == |Rows(k.bucket, k.key, Flatten(chosen))|
    ensures var k := s.sessions[id].Key();
            var rows := Rows(k.bucket, k.key, Flatten(chosen));
            && GoodEntry(k, Entry(o, rows))
            && Holds(s.cloud.documents, rows, Concat(ChosenBodies(s, chosen)))
  {
    hide Inv, Completes, PartHolds, ChosenBodies, Rows, Flatten, Concat, PartSizeSum;
    var k := s.sessions[id].Key();
    ChosenPartsHold(s, id, requested, chosen);
    CompletedObjectHolds(s.cloud.documents, k.bucket, k.key, chosen, ChosenBodies(s, chosen));
    var rows := Rows(k.bucket, k.key, Flatten(chosen));
    forall i | 0 <= i < |rows| ensures OwnerOfChunk(rows[i]) == k {
      RowIsItsChunk(k.bucket, k.key, Flatten(chosen), i);
    }
  }

  /** The new object's rows store what the listed parts stored. */
  lemma BuiltBody(s: System, id: ByteString, requested: seq<CompletedPart>, s': System, chosen: seq<MultipartPart>,
                  e: Entry, body: ByteString)
    requires Owned(View(s.db), s.sessions, s.cloud) && Completing(s, id, requested, s', chosen, e)
    requires Holds(s.cloud.documents, e.chunks, body)
    ensures Body(s'.cloud.documents, e.chunks) == body
  {
    hide Owned, View, Completing, FromParts, Content;
    forall i | 0 <= i < |e.chunks|
      ensures SameDocument(s.cloud.documents, s'.cloud.documents, e.chunks[i].telegramFileID)
    {
      NewRowKeepsItsDocument(s, id, requested, s', chosen, e, i);
    }
    SameBody(s.cloud.documents, s'.cloud.documents, e.chunks, e.chunks);
  }

  lemma NewRowKeepsItsDocument(s: System, id: ByteString, requested: seq<CompletedPart>, s': System,
                               chosen: seq<MultipartPart>, e: Entry, i: int)
    requires Owned(View(s.db), s.sessions, s.cloud) && Completing(s, id, requested, s', chosen, e)
    requires 0 <= i < |e.chunks|
    ensures SameDocument(s.cloud.documents, s'.cloud.documents, e.chunks[i].telegramFileID)
  {
    hide Owned, View, Completes, Purged, Messages, Rows, Flatten, Locate;
    NewRowComesFromItsPart(s, id, requested, s', chosen, e, i);
    assert |Flatten(chosen)| == |e.chunks|;
  }

  lemma CompleteStep(s: System, id: ByteString, requested: seq<CompletedPart>, s': System, chosen: seq<MultipartPart>,
                     o: Object)
    requires Inv(s) && CompleteWith(s, id, requested, s', chosen, o)
    ensures Inv(s') && Means(MeaningOf(s), Complete(id, requested), MeaningOf(s'))
  {
    hide Inv, View, WellFormed, Owned, GoodEntry, PutInTx, Messages, HandedOn, Purged, MeaningOf, Means, Completes,
         Rows, Flatten, FromParts, ChosenBodies, Concat, PartsAddUp, Holds;
    InvOwned(s);
    var k := s.sessions[id].Key();
    var e := Entry(o, Rows(k.bucket, k.key, Flatten(chosen)));
    ChosenAreListed(s.sessions[id].parts, requested, chosen);
    ChunksInView(s.db, k);
    BuiltEntryIsGood(s, id, requested, chosen, o);
    PutRefines(s.db, k, e);
    CompletionHandsOn(s, id, requested, s', chosen, e);
    PurgedIsValid(s.cloud, s'.cloud, Messages(ChunksOf(s.db, k)));
    FewerParts(s.sessions, id);
    InvHandedOn(s, s', FromParts(k, id, requested, chosen));
    BuiltBody(s, id, requested, s', chosen, e, Concat(ChosenBodies(s, chosen)));
    CompleteMeans(s, id, requested, s', chosen, e);
  }

  lemma FewerParts(sessions: Sessions, id: ByteString)
    requires PartsAddUp(sessions)
    ensures PartsAddUp(sessions - {id})
  {
  }

  lemma CompletedBodies(s: System, id: ByteString, requested: seq<CompletedPart>, s': System,
                        chosen: seq<MultipartPart>, e: Entry)
    requires Owned(View(s.db), s.sessions, s.cloud) && Completing(s, id, requested, s', chosen, e)
    requires var k := s.sessions[id].Key();
             HandedOn(View(s.db), s.sessions, s.cloud, View(s'.db), s'.sessions, s'.cloud,
                      FromParts(k, id, requested, chosen))
    requires View(s'.db) == View(s.db)[s.sessions[id].Key() := e]
    ensures MeaningOf(s').bodies == MeaningOf(s).bodies[s.sessions[id].Key() := Body(s'.cloud.documents, e.chunks)]
  {
    hide View, Owned, HandedOn, Body, PartBody, Rows, Flatten, Locate, Completes, Purged, Drafts;
    var k := s.sessions[id].Key();
    OthersKeepTheirBodies(View(s.db), s.sessions, s.cloud, View(s'.db), s'.sessions, s'.cloud,
                          FromParts(k, id, requested, chosen), {k});
  }

  lemma CompletedDrafts(s: System, id: ByteString, requested: seq<CompletedPart>, s': System,
                        chosen: seq<MultipartPart>, e: Entry)
    requires Owned(View(s.db), s.sessions, s.cloud) && Completing(s, id, requested, s', chosen, e)
    requires var k := s.sessions[id].Key();
             HandedOn(View(s.db), s.sessions, s.cloud, View(s'.db), s'.sessions, s'.cloud,
                      FromParts(k, id, requested, chosen))
    ensures id in MeaningOf(s).drafts && MeaningOf(s).drafts[id] == DraftOf(s.sessions[id], s.cloud.documents)
    ensures MeaningOf(s').drafts == MeaningOf(s).drafts - {id}
  {
    hide View, Owned, HandedOn, PartBody, Rows, Flatten, Locate, Completes, Purged, DraftOf, Bodies;
    var from := FromParts(s.sessions[id].Key(), id, requested, chosen);
    assert forall x :: KeepsUpload(from, x);
    DraftsHandedOn(View(s.db), s.sessions, s.cloud, View(s'.db), s'.sessions, s'.cloud, from);
  }

  lemma CompleteMeans(s: System, id: ByteString, requested: seq<CompletedPart>, s': System, chosen: seq<MultipartPart>,
                      e: Entry)
    requires Owned(View(s.db), s.sessions, s.cloud) && Completing(s, id, requested, s', chosen, e)
    requires var k := s.sessions[id].Key();
             HandedOn(View(s.db), s.sessions, s.cloud, View(s'.db), s'.sessions, s'.cloud,
                      FromParts(k, id, requested, chosen))
    requires View(s'.db) == View(s.db)[s.sessions[id].Key() := e]
    requires Body(s'.cloud.documents, e.chunks) == Concat(ChosenBodies(s, chosen))
    ensures Means(MeaningOf(s), Complete(id, requested), MeaningOf(s'))
  {
    hide View, Owned, HandedOn, Body, MeaningOf, Concat, Purged, DraftOf, FromParts, ChosenBodies, Completes, Rows;
    CompletedBodies(s, id, requested, s', chosen, e);
    CompletedDrafts(s, id, requested, s', chosen, e);
    ListedAreChosen(s, id, requested, chosen);
  }

  lemma ListedAreChosen(s: System, id: ByteString, requested: seq<CompletedPart>, chosen: seq<MultipartPart>)
    requires id in s.sessions && Completes(s.sessions[id].parts, requested, Ok(chosen))
    ensures var d := DraftOf(s.sessions[id], s.cloud.documents);
            && d.k == s.sessions[id].Key()
            && (forall i :: 0 <= i < |requested| ==> requested[i].partNumber in d.parts)
            && ListedBodies(d.parts, requested) == ChosenBodies(s, chosen)
  {
    hide Completes, PartBody;
    ChosenAreListed(s.sessions[id].parts, requested, chosen);
  }
}
