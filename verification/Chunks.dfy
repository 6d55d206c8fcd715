/** Chunk layout on the way in, chunk streaming on the way out. */
module Chunks {
  import opened ByteStrings
  import opened Metadata
  import opened Ranges

  type Documents = map<int, ByteString>

  // ----- What a chunk list stores -----

  function Total(chunks: seq<Chunk>): int {
    if chunks == [] then 0 else Total(chunks[..|chunks| - 1]) + chunks[|chunks| - 1].size
  }

  /** Rows numbered 1.., of positive size, each starting where the one before it ends. */
  ghost predicate Contiguous(chunks: seq<Chunk>) {
    forall i :: 0 <= i < |chunks| ==>
      && chunks[i].partNumber == i + 1
      && chunks[i].size > 0
      && chunks[i].offset == Total(chunks[..i])
  }

  /** Every row's document can be downloaded and has the row's size. */
  ghost predicate Readable(documents: Documents, chunks: seq<Chunk>) {
    forall i :: 0 <= i < |chunks| ==>
      chunks[i].telegramFileID in documents && |documents[chunks[i].telegramFileID]| == chunks[i].size
  }

  function Content(documents: Documents, chunks: seq<Chunk>): ByteString
    requires Readable(documents, chunks)
  {
    if chunks == [] then []
    else Content(documents, chunks[..|chunks| - 1]) + documents[chunks[|chunks| - 1].telegramFileID]
  }

  /** The chunk list stores `body`. */
  ghost predicate Holds(documents: Documents, chunks: seq<Chunk>, body: ByteString) {
    Contiguous(chunks) && Readable(documents, chunks) && Content(documents, chunks) == body
  }

  lemma {:induction false} ContentLength(documents: Documents, chunks: seq<Chunk>)
    requires Readable(documents, chunks)
    ensures |Content(documents, chunks)| == Total(chunks)
  {
    if chunks != [] {
      ContentLength(documents, chunks[..|chunks| - 1]);
    }
  }

  lemma ContiguousPrefix(chunks: seq<Chunk>, n: nat)
    requires Contiguous(chunks) && n <= |chunks|
    ensures Contiguous(chunks[..n])
  {
    forall i | 0 <= i < n ensures chunks[..n][..i] == chunks[..i] {
    }
  }

  // ----- GetObject: streaming the selected chunks -----

  function Refs(chunks: seq<Chunk>): (refs: seq<ChunkRef>)
    ensures |refs| == |chunks|
  {
    seq(|chunks|, i requires 0 <= i < |chunks| =>
      ChunkRef(chunks[i].partNumber, chunks[i].telegramFileID, chunks[i].offset, chunks[i].size))
  }

  /** The whole-object selection GetObject makes when there is no range. */
  function Whole(chunks: seq<Chunk>): (selected: seq<SelectedChunk>)
    ensures |selected| == |chunks|
  {
    seq(|chunks|, i requires 0 <= i < |chunks| => SelectedChunk(Refs(chunks)[i], 0, chunks[i].size))
  }

  function Selection(chunks: seq<Chunk>, range: Option<ByteRange>): seq<SelectedChunk> {
    match range
    case None => Whole(chunks)
    case Some(r) => Selected(Refs(chunks), r)
  }

  /** Discard `skip` bytes of a reader, then copy at most `take` (a negative `take` is no limit). */
  function Window(data: ByteString, skip: int, take: int): ByteString {
    var rest := if skip > 0 then data[Min(skip, |data|)..] else data;
    if take >= 0 then rest[..Min(take, |rest|)] else rest
  }

  ghost predicate Downloadable(documents: Documents, selected: seq<SelectedChunk>) {
    forall i :: 0 <= i < |selected| ==> selected[i].chunk.fileID in documents
  }

  function Stream(documents: Documents, selected: seq<SelectedChunk>): ByteString
    requires Downloadable(documents, selected)
  {
    if selected == [] then []
    else
      var s := selected[|selected| - 1];
      Stream(documents, selected[..|selected| - 1]) + Window(documents[s.chunk.fileID], s.skip, s.take)
  }

  function TakeSum(selected: seq<SelectedChunk>): int {
    if selected == [] then 0 else TakeSum(selected[..|selected| - 1]) + selected[|selected| - 1].take
  }

  lemma StreamSnoc(documents: Documents, selected: seq<SelectedChunk>, s: SelectedChunk)
    requires Downloadable(documents, selected) && s.chunk.fileID in documents
    ensures Downloadable(documents, selected + [s])
    ensures Stream(documents, selected + [s])
         == Stream(documents, selected) + Window(documents[s.chunk.fileID], s.skip, s.take)
    ensures TakeSum(selected + [s]) == TakeSum(selected) + s.take
  {
    assert (selected + [s])[..|selected|] == selected;
  }

  /** ObjectStore.GetObject from its chunk rows on: what reaches the pipe, and which documents were downloaded.
      A document that cannot be downloaded closes the pipe after the chunks before it. */
  method StreamObject(documents: Documents, chunks: seq<Chunk>, range: Option<ByteRange>)
    returns (sent: ByteString, downloaded: seq<int>, ok: bool)
    ensures var selected := Selection(chunks, range);
            && |downloaded| <= |selected|
            && (ok ==> |downloaded| == |selected|)
            && (!ok ==> |downloaded| < |selected| && selected[|downloaded|].chunk.fileID !in documents)
            && (forall i :: 0 <= i < |downloaded| ==> downloaded[i] == selected[i].chunk.fileID)
            && Downloadable(documents, selected[..|downloaded|])
            && sent == Stream(documents, selected[..|downloaded|])
  {
    var selected := Selection(chunks, range);
    if range.Some? {
      selected := SelectChunksForRange(Refs(chunks), range.value);
    }
    sent, downloaded, ok := [], [], true;
    assert selected[..0] == [] && Stream(documents, []) == [];
    hide Stream, Selection, Selected, Whole;
    for i := 0 to |selected|
      invariant |downloaded| == i
      invariant forall j :: 0 <= j < i ==> downloaded[j] == selected[j].chunk.fileID
      invariant Downloadable(documents, selected[..i])
      invariant sent == Stream(documents, selected[..i])
    {
      var c := selected[i];
      if c.chunk.fileID !in documents {
        ok := false;
        return;
      }
      var source := documents[c.chunk.fileID];
      if c.skip > 0 {
        source := source[Min(c.skip, |source|)..];
      }
      if c.take >= 0 {
        source := source[..Min(c.take, |source|)];
      }
      StreamSnoc(documents, selected[..i], c);
      assert selected[..i + 1] == selected[..i] + [c];
      sent := sent + source;
      downloaded := downloaded + [c.chunk.fileID];
    }
    assert selected[..|selected|] == selected;
  }

  /** One more chunk extends the streamed window to where that chunk ends. */
  lemma OneMoreChunk(before: ByteString, data: ByteString, c: ChunkRef, r: ByteRange)
    requires c.offset == |before| && c.size == |data| && c.size > 0
    requires 0 <= r.start <= r.end
    ensures var body := before + data;
            var selected := SelectOne(c, r);
            && (selected != [] ==> selected[0].take == |Window(data, selected[0].skip, selected[0].take)|)
            && body[Min(r.start, |body|)..Min(r.end + 1, |body|)]
               == before[Min(r.start, |before|)..Min(r.end + 1, |before|)]
                  + (if selected == [] then [] else Window(data, selected[0].skip, selected[0].take))
  {
  }

  /** Off the end of a chunk list comes a chunk that starts where the rest of the body ends. */
  lemma LastChunk(documents: Documents, chunks: seq<Chunk>, body: ByteString) returns (before: ByteString)
    requires Holds(documents, chunks, body) && chunks != []
    ensures var n := |chunks| - 1;
            var c := Refs(chunks)[n];
            && Holds(documents, chunks[..n], before)
            && c.fileID == chunks[n].telegramFileID && c.fileID in documents
            && body == before + documents[c.fileID]
            && c.offset == chunks[n].offset == |before| && c.size == chunks[n].size == |documents[c.fileID]| > 0
            && Refs(chunks)[..n] == Refs(chunks[..n])
  {
    var n := |chunks| - 1;
    before := Content(documents, chunks[..n]);
    ContiguousPrefix(chunks, n);
    ContentLength(documents, chunks[..n]);
  }

  /** Streaming a range from a contiguous chunk list sends exactly that slice of the body, and the Take values add up
      to its length. */
  lemma {:induction false} RangeStreamsSlice(documents: Documents, chunks: seq<Chunk>, body: ByteString, r: ByteRange)
    requires Holds(documents, chunks, body)
    requires 0 <= r.start <= r.end
    ensures var selected := Selected(Refs(chunks), r);
            && Downloadable(documents, selected)
            && Stream(documents, selected) == body[Min(r.start, |body|)..Min(r.end + 1, |body|)]
            && TakeSum(selected) == |Stream(documents, selected)|
    decreases |chunks|
  {
    if chunks != [] {
      var init, last := chunks[..|chunks| - 1], chunks[|chunks| - 1];
      var before := LastChunk(documents, chunks, body);
      hide Holds, Content, Refs;
      RangeStreamsSlice(documents, init, before, r);
      var c := Refs(chunks)[|chunks| - 1];
      OneMoreChunk(before, documents[last.telegramFileID], c, r);
      var selected := Selected(Refs(init), r);
      if SelectOne(c, r) == [] {
        assert selected + [] == selected;
      } else {
        StreamSnoc(documents, selected, SelectOne(c, r)[0]);
      }
    }
  }

  /** Each document of a layout is the stretch of the body its row describes. */
  lemma {:induction false} DocumentIsSlice(documents: Documents, chunks: seq<Chunk>, body: ByteString, i: nat)
    requires Holds(documents, chunks, body) && i < |chunks|
    ensures var c := chunks[i];
            && 0 <= c.offset && 0 < c.size && c.offset + c.size <= |body|
            && c.telegramFileID in documents && documents[c.telegramFileID] == body[c.offset..c.offset + c.size]
    decreases |chunks|
  {
    var n := |chunks| - 1;
    var before := LastChunk(documents, chunks, body);
    hide Holds, Refs;
    if i < n {
      DocumentIsSlice(documents, chunks[..n], before, i);
    }
  }

  lemma WholeSnoc(chunks: seq<Chunk>)
    requires chunks != []
    ensures var n := |chunks| - 1;
            var s := Whole(chunks)[n];
            && Whole(chunks) == Whole(chunks[..n]) + [s]
            && s.chunk.fileID == chunks[n].telegramFileID && s.skip == 0 && s.take == chunks[n].size
  {
  }

  lemma WindowIsAll(data: ByteString)
    ensures Window(data, 0, |data|) == data
  {
  }

  lemma {:induction false} WholeStreamsBody(documents: Documents, chunks: seq<Chunk>)
    requires Readable(documents, chunks)
    ensures Downloadable(documents, Whole(chunks))
    ensures Stream(documents, Whole(chunks)) == Content(documents, chunks)
  {
    if chunks != [] {
      var n := |chunks| - 1;
      WholeStreamsBody(documents, chunks[..n]);
      WholeSnoc(chunks);
      hide Whole, Window;
      WindowIsAll(documents[chunks[n].telegramFileID]);
      StreamSnoc(documents, Whole(chunks[..n]), Whole(chunks)[n]);
    }
  }

  /** The bytes a GET asks for. */
  function Requested(body: ByteString, range: Option<ByteRange>): ByteString
    requires range.Some? ==> 0 <= range.value.start <= range.value.end < |body|
  {
    if range.None? then body else body[range.value.start..range.value.end + 1]
  }

  /** What GetObject streams for an object that holds `body`: exactly the requested bytes, Content-Length of them,
      downloading only chunks that hold a requested byte. */
  lemma ReadIsExact(documents: Documents, chunks: seq<Chunk>, body: ByteString, range: Option<ByteRange>)
    requires Holds(documents, chunks, body)
    requires range.Some? ==> 0 <= range.value.start <= range.value.end < |body|
    ensures var selected := Selection(chunks, range);
            && Downloadable(documents, selected)
            && Stream(documents, selected) == Requested(body, range)
            && (range.Some? ==> TakeSum(selected) == range.value.Length())
            && (range.Some? ==> forall s :: s in selected ==> s.chunk in Refs(chunks) && s.chunk.Overlaps(range.value))
  {
    if range.None? {
      WholeStreamsBody(documents, chunks);
    } else {
      RangeStreamsSlice(documents, chunks, body, range.value);
      SelectedIffOverlapping(Refs(chunks), range.value);
    }
  }
}
