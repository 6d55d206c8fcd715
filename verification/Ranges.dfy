/** store/range.go: range headers and the chunks a range needs. */
module Ranges {

  datatype ByteRange = ByteRange(start: int, end: int)
  {
    function Length(): int {
      if start < 0 || end < start then 0 else end - start + 1
    }
  }

  datatype ChunkRef = ChunkRef(part: int, fileID: int, offset: int, size: int)
  {
    /** Whether the chunk holds a byte of the range. */
    ghost predicate Overlaps(r: ByteRange) {
      exists i :: offset <= i < offset + size && InRange(i, r)
    }
  }

  predicate InRange(i: int, r: ByteRange) {
    r.start <= i <= r.end
  }

  datatype SelectedChunk = SelectedChunk(chunk: ChunkRef, skip: int, take: int)

  function Min(a: int, b: int): int {
    if a < b then a else b
  }

  function Max(a: int, b: int): int {
    if a > b then a else b
  }

  function SelectOne(chunk: ChunkRef, r: ByteRange): seq<SelectedChunk> {
    var chunkEnd := chunk.offset + chunk.size - 1;
    if chunk.size <= 0 || chunkEnd < r.start || chunk.offset > r.end then []
    else
      var overlapStart := Max(chunk.offset, r.start);
      [SelectedChunk(chunk, overlapStart - chunk.offset, Min(chunkEnd, r.end) - overlapStart + 1)]
  }

  function Selected(chunks: seq<ChunkRef>, r: ByteRange): seq<SelectedChunk> {
    if chunks == [] then [] else Selected(chunks[..|chunks| - 1], r) + SelectOne(chunks[|chunks| - 1], r)
  }

  method SelectChunksForRange(chunks: seq<ChunkRef>, r: ByteRange) returns (selected: seq<SelectedChunk>)
    ensures selected == Selected(chunks, r)
  {
    selected := [];
    for i := 0 to |chunks|
      invariant selected == Selected(chunks[..i], r)
    {
      var chunk := chunks[i];
      var chunkStart := chunk.offset;
      var chunkEnd := chunk.offset + chunk.size - 1;
      assert chunks[..i + 1][..i] == chunks[..i];
      if chunk.size <= 0 || chunkEnd < r.start || chunkStart > r.end {
        continue;
      }
      var overlapStart := Max(chunkStart, r.start);
      var overlapEnd := Min(chunkEnd, r.end);
      selected := selected + [SelectedChunk(chunk, overlapStart - chunkStart, overlapEnd - overlapStart + 1)];
    }
    assert chunks[..|chunks|] == chunks;
  }

  /** A chunk is selected, and so downloaded, iff it holds a byte of the range. */
  lemma {:induction false} SelectedIffOverlapping(chunks: seq<ChunkRef>, r: ByteRange)
    requires r.start <= r.end
    ensures forall c :: (exists s :: s in Selected(chunks, r) && s.chunk == c) <==> c in chunks && c.Overlaps(r)
  {
    if chunks != [] {
      var init, last := chunks[..|chunks| - 1], chunks[|chunks| - 1];
      SelectedIffOverlapping(init, r);
      assert chunks == init + [last];
      assert (SelectOne(last, r) != []) <==> last.Overlaps(r) by {
        if SelectOne(last, r) != [] {
          assert InRange(Max(last.offset, r.start), r);
        }
      }
      forall c ensures (exists s :: s in Selected(chunks, r) && s.chunk == c) <==> c in chunks && c.Overlaps(r) {
        if c == last && c.Overlaps(r) {
          assert SelectOne(last, r)[0] in Selected(chunks, r);
        }
        if s :| s in Selected(init, r) && s.chunk == c {
          assert s in Selected(chunks, r);
        }
      }
    }
  }
}
