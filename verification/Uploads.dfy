/** The upload loops of ObjectStore: how bodies become Telegram documents and chunk rows. */
module Uploads {
  import opened ByteStrings
  import opened Metadata
  import opened Telegram
  import opened Strategy
  import opened Chunks
  import opened Ranges
  import PercentCoding

  /** MD5 and SHA-256, as functions nothing is known about. */
  datatype Hashes = Hashes(md5: ByteString -> ByteString, sha256: ByteString -> ByteString)

  /** hex.EncodeToString */
  function Hex(s: ByteString): ByteString {
    if s == [] then [] else [HexDigit(s[0] / 16), HexDigit(s[0] % 16)] + Hex(s[1..])
  }

  function HexDigit(n: int): byte
    requires 0 <= n < 16
  {
    if n < 10 then 0x30 + n else 0x61 + (n - 10)
  }

  /** Two lower-case hex digits a byte, the high half first. */
  lemma {:induction false} HexMeaning(s: ByteString)
    ensures |Hex(s)| == 2 * |s|
    ensures forall i :: 0 <= i < |s| ==>
              && PercentCoding.FromHex(Hex(s)[2 * i]) == Some(s[i] / 16)
              && PercentCoding.FromHex(Hex(s)[2 * i + 1]) == Some(s[i] % 16)
    ensures forall i :: 0 <= i < |Hex(s)| ==>
              '0' as int <= Hex(s)[i] <= '9' as int || 'a' as int <= Hex(s)[i] <= 'f' as int
  {
    if s != [] {
      HexMeaning(s[1..]);
      var h, rest := Hex(s), Hex(s[1..]);
      HexDigitMeaning(s[0] / 16);
      HexDigitMeaning(s[0] % 16);
      assert h == [HexDigit(s[0] / 16), HexDigit(s[0] % 16)] + rest;
      forall i | 1 <= i < |s| ensures h[2 * i] == rest[2 * (i - 1)] && h[2 * i + 1] == rest[2 * (i - 1) + 1] {
      }
      forall i | 2 <= i < |h| ensures h[i] == rest[i - 2] {
      }
    }
  }

  lemma HexDigitMeaning(n: int)
    requires 0 <= n < 16
    ensures PercentCoding.FromHex(HexDigit(n)) == Some(n)
    ensures '0' as int <= HexDigit(n) <= '9' as int || 'a' as int <= HexDigit(n) <= 'f' as int
  {
  }

  datatype UploadError = UnexpectedEOF | TooMuchData | SendFailed | EntityTooLarge

  const DOCUMENT: ByteString := Ascii("document")

  /** The rows' documents were all sent after `before`, each row by its own message. */
  ghost predicate SentAfter(before: Cloud, after: Cloud, chunks: seq<Chunk>) {
    && before.GrowsTo(after)
    && (forall i :: 0 <= i < |chunks| ==>
         && before.next <= chunks[i].telegramMessageID < after.next
         && chunks[i].telegramFileID == chunks[i].telegramMessageID)
    && (forall i, j :: 0 <= i < j < |chunks| ==> chunks[i].telegramMessageID < chunks[j].telegramMessageID)
  }

  function CeilDiv(size: nat, chunkSize: nat): nat
    requires chunkSize > 0
  {
    (size + chunkSize - 1) / chunkSize
  }

  lemma CeilDivStep(done: nat, chunkSize: nat, size: nat, i: nat)
    requires chunkSize > 0 && done == i * chunkSize && done < size
    ensures size - done <= chunkSize ==> CeilDiv(size, chunkSize) == i + 1
    ensures i < CeilDiv(size, chunkSize)
    ensures (i + 1) * chunkSize == done + chunkSize
  {
    if size - done <= chunkSize {
      var x := size + chunkSize - 1;
      assert (i + 1) * chunkSize <= x < (i + 1) * chunkSize + chunkSize;
      DivUnique(x, chunkSize, i + 1);
    } else {
      var r := CeilDiv(size, chunkSize);
      if r <= i {
        MulMonotone(r, i, chunkSize);
      }
    }
  }

  /** The least number of chunks that holds `size` bytes. */
  lemma CeilDivMeaning(size: nat, chunkSize: nat)
    requires chunkSize > 0
    ensures (CeilDiv(size, chunkSize) - 1) * chunkSize < size <= CeilDiv(size, chunkSize) * chunkSize
  {
    var x, n := size + chunkSize - 1, CeilDiv(size, chunkSize);
    assert n * chunkSize <= x < n * chunkSize + chunkSize;
  }

  lemma CeilDivZero(chunkSize: nat)
    requires chunkSize > 0
    ensures CeilDiv(0, chunkSize) == 0
  {
    DivUnique(chunkSize - 1, chunkSize, 0);
  }

  lemma DivUnique(x: nat, d: nat, q: nat)
    requires d > 0 && q * d <= x < q * d + d
    ensures x / d == q
  {
    var r := x / d;
    assert r * d <= x < r * d + d;
    if r < q {
      MulMonotone(r + 1, q, d);
    } else if r > q {
      MulMonotone(q + 1, r, d);
    }
  }

  lemma MulMonotone(a: nat, b: nat, d: nat)
    requires a <= b
    ensures a * d <= b * d
  {
  }

  /** After `n` chunks, `done` bytes of `size` have gone out. */
  ghost predicate Progress(size: nat, chunkSize: nat, done: nat, n: nat)
    requires chunkSize > 0
  {
    done <= size && if done == size then n == CeilDiv(size, chunkSize) else done == n * chunkSize
  }

  lemma ProgressStart(size: nat, chunkSize: nat)
    requires chunkSize > 0
    ensures Progress(size, chunkSize, 0, 0)
  {
    CeilDivZero(chunkSize);
  }

  lemma ProgressStep(size: nat, chunkSize: nat, done: nat, n: nat)
    requires chunkSize > 0 && Progress(size, chunkSize, done, n) && done < size
    ensures n < CeilDiv(size, chunkSize)
    ensures Progress(size, chunkSize, done + Min(chunkSize, size - done), n + 1)
  {
    hide CeilDiv;
    CeilDivStep(done, chunkSize, size, n);
  }

  lemma ProgressDone(size: nat, chunkSize: nat, n: nat)
    requires chunkSize > 0 && Progress(size, chunkSize, size, n)
    ensures n == CeilDiv(size, chunkSize)
  {
  }

  /** The rows sent since `before` store `body`, and describe their own documents. */
  ghost predicate Sent(before: Cloud, now: Cloud, hashes: Hashes, bucket: ByteString, key: ByteString, chunkSize: nat,
                       chunks: seq<Chunk>, body: ByteString)
  {
    && now.Valid()
    && SentAfter(before, now, chunks)
    && Holds(now.documents, chunks, body)
    && forall i :: 0 <= i < |chunks| ==>
         && chunks[i].bucket == bucket && chunks[i].key == key
         && chunks[i].size <= chunkSize
         && chunks[i].telegramType == DOCUMENT
         && chunks[i].sha256 == Hex(hashes.sha256(now.documents[chunks[i].telegramFileID]))
  }

  lemma NothingSent(cloud: Cloud, hashes: Hashes, bucket: ByteString, key: ByteString, chunkSize: nat)
    requires cloud.Valid()
    ensures Sent(cloud, cloud, hashes, bucket, key, chunkSize, [], [])
  {
  }

  lemma SendOneMore(before: Cloud, now: Cloud, later: Cloud, hashes: Hashes, bucket: ByteString, key: ByteString,
                    chunkSize: nat, chunks: seq<Chunk>, body: ByteString, c: Chunk, data: ByteString, id: int)
    requires Sent(before, now, hashes, bucket, key, chunkSize, chunks, body)
    requires later.Valid() && now.GrowsTo(later) && now.next <= id < later.next
    requires later.documents == now.documents[id := data]
    requires c.bucket == bucket && c.key == key && c.partNumber == |chunks| + 1 && c.offset == |body|
    requires c.telegramFileID == c.telegramMessageID == id
    requires 0 < c.size == |data| <= chunkSize && c.telegramType == DOCUMENT && c.sha256 == Hex(hashes.sha256(data))
    ensures Sent(before, later, hashes, bucket, key, chunkSize, chunks + [c], body + data)
  {
    hide Holds, Hex;
    HoldsSnoc(now.documents, later.documents, chunks, body, c, data);
    HoldsReadable(now.documents, chunks, body);
  }

  lemma HoldsReadable(documents: Documents, chunks: seq<Chunk>, body: ByteString)
    requires Holds(documents, chunks, body)
    ensures Readable(documents, chunks)
  {
  }

  lemma HoldsSnoc(documents: Documents, documents': Documents, chunks: seq<Chunk>, body: ByteString, c: Chunk,
                  data: ByteString)
    requires Holds(documents, chunks, body)
    requires forall id :: id in documents ==> id in documents' && documents'[id] == documents[id]
    requires c.telegramFileID in documents' && documents'[c.telegramFileID] == data
    requires c.partNumber == |chunks| + 1 && c.size == |data| > 0 && c.offset == |body|
    ensures Holds(documents', chunks + [c], body + data)
  {
    SameContent(documents, documents', chunks);
    ContentLength(documents, chunks);
    var all := chunks + [c];
    assert all[..|chunks|] == chunks;
    assert forall i :: 0 <= i < |chunks| ==> all[..i] == chunks[..i];
  }

  lemma {:induction false} SameContent(documents: Documents, documents': Documents, chunks: seq<Chunk>)
    requires Readable(documents, chunks)
    requires forall i :: 0 <= i < |chunks| ==>
               chunks[i].telegramFileID in documents'
               && documents'[chunks[i].telegramFileID] == documents[chunks[i].telegramFileID]
    ensures Readable(documents', chunks) && Content(documents', chunks) == Content(documents, chunks)
  {
    if chunks != [] {
      SameContent(documents, documents', chunks[..|chunks| - 1]);
    }
  }

  /** ObjectStore.putChunked up to the metadata write. `reader` is everything the request body will deliver. */
  method PutChunked(client: Client, hashes: Hashes, bucket: ByteString, key: ByteString,
                    reader: ByteString, size: nat, chunkSize: nat)
    returns (r: Result<(seq<Chunk>, ByteString), UploadError>)
    requires client.cloud.Valid()
    requires chunkSize > 0
    modifies client
    ensures client.cloud.Valid() && old(client.cloud).GrowsTo(client.cloud)
    ensures r.Ok? ==>
      && |reader| == size
      && Sent(old(client.cloud), client.cloud, hashes, bucket, key, chunkSize, r.value.0, reader)
      && |r.value.0| == CeilDiv(size, chunkSize)
      && (forall i :: 0 <= i < |r.value.0| - 1 ==> r.value.0[i].size == chunkSize)
      && r.value.1 == Hex(hashes.md5(reader))
    ensures r.Ok? <==> |reader| == size && client.AcceptsAll(old(client.calls), CeilDiv(size, chunkSize))
  {
    hide CeilDiv, Progress, Sent, Hex;
    var chunks: seq<Chunk> := [];
    var hashed: ByteString := [];
    var offset := 0;
    var remaining := size;
    var part := 1;
    NothingSent(client.cloud, hashes, bucket, key, chunkSize);
    ProgressStart(size, chunkSize);
    while remaining > 0
      invariant 0 <= remaining && offset == size - remaining <= |reader|
      invariant part == |chunks| + 1
      invariant hashed == reader[..offset]
      invariant client.cloud.Valid() && old(client.cloud).GrowsTo(client.cloud)
      invariant Sent(old(client.cloud), client.cloud, hashes, bucket, key, chunkSize, chunks, hashed)
      invariant forall i :: 0 <= i < |chunks| && (i < |chunks| - 1 || remaining > 0) ==> chunks[i].size == chunkSize
      invariant Progress(size, chunkSize, offset, |chunks|)
      invariant client.calls == old(client.calls) + |chunks|
      invariant forall i :: old(client.calls) <= i < client.calls ==> client.accepts(i)
    {
      var thisChunkSize := chunkSize;
      if remaining < thisChunkSize {
        thisChunkSize := remaining;
      }
      if |reader| - offset < thisChunkSize {
        return Err(UnexpectedEOF);
      }
      ProgressStep(size, chunkSize, offset, |chunks|);
      var data := reader[offset..offset + thisChunkSize];
      ghost var before := client.cloud;
      var uploaded, _ := client.Upload(Document, data);
      if uploaded.None? {
        return Err(SendFailed);
      }
      var c := Chunk(bucket, key, part, offset, |data|, DOCUMENT, uploaded.value, uploaded.value, [],
                     Hex(hashes.sha256(data)));
      SendOneMore(old(client.cloud), before, client.cloud, hashes, bucket, key, chunkSize, chunks, hashed, c, data,
                  uploaded.value);
      hashed := hashed + data;
      chunks := chunks + [c];
      offset := offset + |data|;
      remaining := remaining - |data|;
      part := part + 1;
    }
    ProgressDone(size, chunkSize, |chunks|);
    if |reader| > offset {
      return Err(TooMuchData);
    }
    assert reader[..offset] == reader;
    r := Ok((chunks, Hex(hashes.md5(hashed))));
  }
}
