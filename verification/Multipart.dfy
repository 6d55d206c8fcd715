/** Multipart uploads: parts in any order, re-chunked one by one, and the object completion builds from them. */
module Multipart {
  import opened ByteStrings
  import opened Metadata
  import opened Telegram
  import opened Strategy
  import opened Chunks
  import opened Uploads
  import RangeHeader
  import PercentCoding

  datatype MultipartChunk = MultipartChunk(
    size: int,
    telegramType: ByteString,
    telegramFileID: int,
    telegramMessageID: int,
    telegramFileUniqueID: ByteString,
    sha256: ByteString)

  datatype MultipartPart = MultipartPart(
    number: int, etag: ByteString, md5: ByteString, size: int, chunks: seq<MultipartChunk>)

  datatype CompletedPart = CompletedPart(partNumber: int, etag: ByteString)

  datatype PartError = InvalidPartOrder | InvalidPart

  // ----- What a part stores -----

  /** The rows a list of part chunks becomes: numbered from 1, at running offsets. */
  function Rows(bucket: ByteString, key: ByteString, chunks: seq<MultipartChunk>): (rows: seq<Chunk>)
    ensures |rows| == |chunks|
  {
    if chunks == [] then []
    else
      var init := Rows(bucket, key, chunks[..|chunks| - 1]);
      var c := chunks[|chunks| - 1];
      init + [Chunk(bucket, key, |chunks|, SizeSum(chunks[..|chunks| - 1]), c.size, c.telegramType, c.telegramFileID,
                    c.telegramMessageID, c.telegramFileUniqueID, c.sha256)]
  }

  function SizeSum(chunks: seq<MultipartChunk>): int {
    if chunks == [] then 0 else SizeSum(chunks[..|chunks| - 1]) + chunks[|chunks| - 1].size
  }

  ghost predicate PartReadable(documents: Documents, chunks: seq<MultipartChunk>) {
    forall i :: 0 <= i < |chunks| ==>
      && chunks[i].size > 0
      && chunks[i].telegramFileID in documents
      && |documents[chunks[i].telegramFileID]| == chunks[i].size
  }

  function PartContent(documents: Documents, chunks: seq<MultipartChunk>): ByteString
    requires PartReadable(documents, chunks)
  {
    if chunks == [] then []
    else PartContent(documents, chunks[..|chunks| - 1]) + documents[chunks[|chunks| - 1].telegramFileID]
  }

  /** The part stores `body`. */
  ghost predicate PartHolds(documents: Documents, part: MultipartPart, body: ByteString) {
    PartReadable(documents, part.chunks) && PartContent(documents, part.chunks) == body && part.size == |body|
  }

  /** The rows of a chunk list form a contiguous chunk layout holding the chunks' content. */
  lemma {:induction false} RowsHold(documents: Documents, bucket: ByteString, key: ByteString,
                                    chunks: seq<MultipartChunk>)
    requires PartReadable(documents, chunks)
    ensures Holds(documents, Rows(bucket, key, chunks), PartContent(documents, chunks))
    ensures Total(Rows(bucket, key, chunks)) == SizeSum(chunks) == |PartContent(documents, chunks)|
  {
    if chunks != [] {
      var init := chunks[..|chunks| - 1];
      RowsHold(documents, bucket, key, init);
      var rows := Rows(bucket, key, chunks);
      var last := rows[|rows| - 1];
      assert rows[..|rows| - 1] == Rows(bucket, key, init);
      HoldsSnoc(documents, documents, Rows(bucket, key, init), PartContent(documents, init), last,
                documents[last.telegramFileID]);
    }
  }

  // ----- Building the object -----

  /** All chunks of all parts, in order. */
  function Flatten(parts: seq<MultipartPart>): seq<MultipartChunk> {
    if parts == [] then [] else Flatten(parts[..|parts| - 1]) + parts[|parts| - 1].chunks
  }

  function Concat(bodies: seq<ByteString>): ByteString {
    if bodies == [] then [] else Concat(bodies[..|bodies| - 1]) + bodies[|bodies| - 1]
  }

  lemma {:induction false} PartContentAppend(documents: Documents, a: seq<MultipartChunk>, b: seq<MultipartChunk>)
    requires PartReadable(documents, a) && PartReadable(documents, b)
    ensures PartReadable(documents, a + b)
    ensures PartContent(documents, a + b) == PartContent(documents, a) + PartContent(documents, b)
  {
    if b == [] {
      assert a + b == a && PartContent(documents, b) == [];
    } else {
      hide PartContent, PartReadable;
      var init, last := b[..|b| - 1], b[|b| - 1];
      PartReadableInit(documents, b);
      PartContentAppend(documents, a, init);
      assert b == init + [last];
      Associative(a, init, [last]);
      PartContentOneMore(documents, a + init, last);
      PartContentOneMore(documents, init, last);
      Associative(PartContent(documents, a), PartContent(documents, init), documents[last.telegramFileID]);
    }
  }

  lemma PartReadableInit(documents: Documents, chunks: seq<MultipartChunk>)
    requires PartReadable(documents, chunks) && chunks != []
    ensures PartReadable(documents, chunks[..|chunks| - 1])
    ensures var c := chunks[|chunks| - 1];
            c.telegramFileID in documents && |documents[c.telegramFileID]| == c.size && c.size > 0
  {
  }

  lemma PartContentOneMore(documents: Documents, chunks: seq<MultipartChunk>, c: MultipartChunk)
    requires PartReadable(documents, chunks)
    requires c.telegramFileID in documents && |documents[c.telegramFileID]| == c.size && c.size > 0
    ensures PartReadable(documents, chunks + [c])
    ensures PartContent(documents, chunks + [c]) == PartContent(documents, chunks) + documents[c.telegramFileID]
  {
    assert (chunks + [c])[..|chunks|] == chunks;
  }

  lemma {:induction false} FlattenContent(documents: Documents, parts: seq<MultipartPart>, bodies: seq<ByteString>)
    requires |parts| == |bodies|
    requires forall i :: 0 <= i < |parts| ==> PartHolds(documents, parts[i], bodies[i])
    ensures PartReadable(documents, Flatten(parts))
    ensures PartContent(documents, Flatten(parts)) == Concat(bodies)
  {
    if parts != [] {
      var n := |parts| - 1;
      FlattenContent(documents, parts[..n], bodies[..n]);
      PartContentAppend(documents, Flatten(parts[..n]), parts[n].chunks);
    }
  }

  /** However the parts were chunked, whatever order they were uploaded in, empty parts included: the rows built from
      them store the concatenation of their bodies, numbered 1..n at running offsets. */
  lemma CompletedObjectHolds(documents: Documents, bucket: ByteString, key: ByteString, parts: seq<MultipartPart>,
                             bodies: seq<ByteString>)
    requires |parts| == |bodies|
    requires forall i :: 0 <= i < |parts| ==> PartHolds(documents, parts[i], bodies[i])
    ensures Holds(documents, Rows(bucket, key, Flatten(parts)), Concat(bodies))
    ensures PartSizeSum(parts) == |Concat(bodies)| == Total(Rows(bucket, key, Flatten(parts)))
  {
    FlattenContent(documents, parts, bodies);
    RowsHold(documents, bucket, key, Flatten(parts));
    SizesAddUp(documents, parts, bodies);
  }

  function PartSizeSum(parts: seq<MultipartPart>): int {
    if parts == [] then 0 else PartSizeSum(parts[..|parts| - 1]) + parts[|parts| - 1].size
  }

  lemma {:induction false} SizesAddUp(documents: Documents, parts: seq<MultipartPart>, bodies: seq<ByteString>)
    requires |parts| == |bodies|
    requires forall i :: 0 <= i < |parts| ==> PartHolds(documents, parts[i], bodies[i])
    ensures PartSizeSum(parts) == |Concat(bodies)|
  {
    if parts != [] {
      var n := |parts| - 1;
      SizesAddUp(documents, parts[..n], bodies[..n]);
    }
  }

  lemma RowsSnoc(bucket: ByteString, key: ByteString, chunks: seq<MultipartChunk>, c: MultipartChunk)
    ensures Rows(bucket, key, chunks + [c])
         == Rows(bucket, key, chunks)
            + [Chunk(bucket, key, |chunks| + 1, SizeSum(chunks), c.size, c.telegramType, c.telegramFileID,
                     c.telegramMessageID, c.telegramFileUniqueID, c.sha256)]
    ensures SizeSum(chunks + [c]) == SizeSum(chunks) + c.size
  {
    assert (chunks + [c])[..|chunks|] == chunks;
  }

  lemma RowsOneMore(bucket: ByteString, key: ByteString, done: seq<MultipartChunk>, chunks: seq<MultipartChunk>, j: nat)
    requires j < |chunks|
    ensures var before, c := done + chunks[..j], chunks[j];
            && Rows(bucket, key, done + chunks[..j + 1])
               == Rows(bucket, key, before)
                  + [Chunk(bucket, key, |before| + 1, SizeSum(before), c.size, c.telegramType, c.telegramFileID,
                           c.telegramMessageID, c.telegramFileUniqueID, c.sha256)]
            && SizeSum(done + chunks[..j + 1]) == SizeSum(before) + c.size
  {
    hide Rows, SizeSum;
    RowsSnoc(bucket, key, done + chunks[..j], chunks[j]);
    assert chunks[..j + 1] == chunks[..j] + [chunks[j]];
    Associative(done, chunks[..j], [chunks[j]]);
  }

  lemma NoParts()
    ensures Flatten([]) == [] && PartSizeSum([]) == 0
  {
  }

  lemma NoRows(bucket: ByteString, key: ByteString)
    ensures Rows(bucket, key, []) == [] && SizeSum([]) == 0
  {
  }

  lemma FlattenOneMore(parts: seq<MultipartPart>, i: nat)
    requires i < |parts|
    ensures Flatten(parts[..i + 1]) == Flatten(parts[..i]) + parts[i].chunks
    ensures PartSizeSum(parts[..i + 1]) == PartSizeSum(parts[..i]) + parts[i].size
  {
    assert parts[..i + 1][..i] == parts[..i];
  }

  function Md5s(parts: seq<MultipartPart>): ByteString {
    if parts == [] then [] else Md5s(parts[..|parts| - 1]) + parts[|parts| - 1].md5
  }

  /** multipartETag: the hash of the parts' hashes, and how many there are. */
  function MultipartETag(hashes: Hashes, parts: seq<MultipartPart>): ByteString {
    Hex(hashes.md5(Md5s(parts))) + [RangeHeader.MINUS] + RangeHeader.Decimal(|parts|)
  }

  /** Every row carries its chunk's own fields, under the object's key and its place in the list. */
  lemma {:induction false} RowsCarryChunks(bucket: ByteString, key: ByteString, chunks: seq<MultipartChunk>, i: nat)
    requires i < |chunks|
    ensures var c := chunks[i];
            Rows(bucket, key, chunks)[i]
              == Chunk(bucket, key, i + 1, SizeSum(chunks[..i]), c.size, c.telegramType, c.telegramFileID,
                       c.telegramMessageID, c.telegramFileUniqueID, c.sha256)
  {
    var n := |chunks| - 1;
    if i < n {
      RowsCarryChunks(bucket, key, chunks[..n], i);
      assert chunks[..n][..i] == chunks[..i];
    }
  }

  lemma {:induction false} Md5sConcat(parts: seq<MultipartPart>, md5s: seq<ByteString>)
    requires |md5s| == |parts| && forall i :: 0 <= i < |parts| ==> md5s[i] == parts[i].md5
    ensures Md5s(parts) == Concat(md5s)
  {
    if parts != [] {
      Md5sConcat(parts[..|parts| - 1], md5s[..|parts| - 1]);
    }
  }

  /** A multipart ETag reads as the hash of the parts' hashes joined, a dash, and the number of parts in decimal. */
  lemma MultipartETagMeaning(hashes: Hashes, parts: seq<MultipartPart>, md5s: seq<ByteString>)
    requires |md5s| == |parts| && forall i :: 0 <= i < |parts| ==> md5s[i] == parts[i].md5
    ensures var hash, etag := hashes.md5(Concat(md5s)), MultipartETag(hashes, parts);
            var n := 2 * |hash|;
            && n + 1 < |etag|
            && (forall i :: 0 <= i < |hash| ==>
                 && PercentCoding.FromHex(etag[2 * i]) == Some(hash[i] / 16)
                 && PercentCoding.FromHex(etag[2 * i + 1]) == Some(hash[i] % 16))
            && etag[n] == '-' as int
            && RangeHeader.AllDigits(etag[n + 1..]) && RangeHeader.DecimalValue(etag[n + 1..]) == |parts|
  {
    hide Hex, RangeHeader.Decimal;
    Md5sConcat(parts, md5s);
    var hash := hashes.md5(Concat(md5s));
    HexMeaning(hash);
    var count := RangeHeader.Decimal(|parts|);
    assert (Hex(hash) + [RangeHeader.MINUS] + count)[2 * |hash| + 1..] == count;
  }

  const MULTIPART: ByteString := Ascii("multipart")

  /** buildMultipartObject: object row and chunk rows of the listed parts. */
  method BuildMultipartObject(bucket: ByteString, key: ByteString, contentType: ByteString, parts: seq<MultipartPart>,
                              hashes: Hashes, now: int)
    returns (o: Object, rows: seq<Chunk>)
    ensures rows == Rows(bucket, key, Flatten(parts))
    ensures o == Object(bucket, key, PartSizeSum(parts), contentType, MultipartETag(hashes, parts), [], now, |rows|,
                        DOCUMENT, MULTIPART)
  {
    hide MultipartETag, PartSizeSum, Flatten, Rows, SizeSum;
    var size := 0;
    NoParts();
    for i := 0 to |parts|
      invariant size == PartSizeSum(parts[..i])
    {
      FlattenOneMore(parts, i);
      size := size + parts[i].size;
    }
    assert parts[..|parts|] == parts;
    rows := [];
    var offset := 0;
    var partNumber := 1;
    assert parts[..0] == [];
    NoRows(bucket, key);
    for i := 0 to |parts|
      invariant rows == Rows(bucket, key, Flatten(parts[..i]))
      invariant offset == SizeSum(Flatten(parts[..i])) && partNumber == |rows| + 1
    {
      var chunks := parts[i].chunks;
      ghost var done := Flatten(parts[..i]);
      FlattenOneMore(parts, i);
      assert done + chunks[..0] == done;
      for j := 0 to |chunks|
        invariant rows == Rows(bucket, key, done + chunks[..j])
        invariant offset == SizeSum(done + chunks[..j]) && partNumber == |rows| + 1
      {
        var c := chunks[j];
        RowsOneMore(bucket, key, done, chunks, j);
        rows := rows + [Chunk(bucket, key, partNumber, offset, c.size, c.telegramType, c.telegramFileID,
                              c.telegramMessageID, c.telegramFileUniqueID, c.sha256)];
        offset := offset + c.size;
        partNumber := partNumber + 1;
      }
      assert chunks[..|chunks|] == chunks;
    }
    o := Object(bucket, key, size, contentType, MultipartETag(hashes, parts), [], now, |rows|, DOCUMENT, MULTIPART);
  }

  // ----- Picking the parts -----

  const QUOTE: byte := 0x22

  /** strings.Trim(s, "\"") */
  function TrimQuotes(s: ByteString): ByteString
    decreases |s|
  {
    if s != [] && s[0] == QUOTE then TrimQuotes(s[1..])
    else if s != [] && s[|s| - 1] == QUOTE then TrimQuotes(s[..|s| - 1])
    else s
  }

  predicate EtagMatches(stored: ByteString, submitted: ByteString) {
    TrimQuotes(submitted) == TrimQuotes(stored)
  }

  ghost predicate AllQuotes(s: ByteString) {
    forall i :: 0 <= i < |s| ==> s[i] == QUOTE
  }

  ghost predicate NoOuterQuote(e: ByteString) {
    e != [] ==> e[0] != QUOTE && e[|e| - 1] != QUOTE
  }

  /** `s` is `e` in any number of quotes on either side. */
  ghost predicate Quotes(s: ByteString, e: ByteString) {
    NoOuterQuote(e) && exists p, q :: AllQuotes(p) && AllQuotes(q) && s == p + e + q
  }

  ghost predicate SameText(s: ByteString, t: ByteString) {
    exists e :: Quotes(s, e) && Quotes(t, e)
  }

  lemma {:induction false} TrimQuotesDropsQuotes(p: ByteString, e: ByteString, q: ByteString)
    requires AllQuotes(p) && AllQuotes(q) && NoOuterQuote(e)
    ensures TrimQuotes(p + e + q) == e
    decreases |p| + |q|, |q|
  {
    var s := p + e + q;
    if p != [] {
      TrimQuotesDropsQuotes(p[1..], e, q);
      assert s[1..] == p[1..] + e + q;
    } else if q != [] && e == [] {
      TrimQuotesDropsQuotes(q, [], []);
      assert s == q + [] + [];
    } else if q != [] {
      TrimQuotesDropsQuotes([], e, q[..|q| - 1]);
      assert s[0] == e[0] && s[|s| - 1] == QUOTE && s[..|s| - 1] == [] + e + q[..|q| - 1];
    } else {
      assert s == e;
    }
  }

  lemma OneMoreQuote(s: ByteString, e: ByteString)
    requires Quotes(s, e)
    ensures Quotes([QUOTE] + s, e) && Quotes(s + [QUOTE], e)
  {
    var p, q :| AllQuotes(p) && AllQuotes(q) && s == p + e + q;
    assert [QUOTE] + s == [QUOTE] + p + e + q && AllQuotes([QUOTE] + p);
    assert s + [QUOTE] == p + e + (q + [QUOTE]) && AllQuotes(q + [QUOTE]);
  }

  lemma NoQuotes(s: ByteString)
    requires NoOuterQuote(s)
    ensures Quotes(s, s)
  {
    var none: ByteString := [];
    assert s == none + s + none && AllQuotes(none);
  }

  lemma {:induction false} TrimQuotesSplits(s: ByteString)
    ensures Quotes(s, TrimQuotes(s))
    decreases |s|
  {
    hide Quotes;
    if s != [] && s[0] == QUOTE {
      TrimQuotesSplits(s[1..]);
      OneMoreQuote(s[1..], TrimQuotes(s));
      assert s == [QUOTE] + s[1..];
    } else if s != [] && s[|s| - 1] == QUOTE {
      TrimQuotesSplits(s[..|s| - 1]);
      OneMoreQuote(s[..|s| - 1], TrimQuotes(s));
      assert s == s[..|s| - 1] + [QUOTE];
    } else {
      NoQuotes(s);
    }
  }

  /** Outer quotes, however many, are all that ETags may differ in. */
  lemma EtagMatchesMeaning(p: ByteString, e: ByteString, q: ByteString, p': ByteString, f: ByteString, q': ByteString)
    requires AllQuotes(p) && AllQuotes(q) && AllQuotes(p') && AllQuotes(q') && NoOuterQuote(e) && NoOuterQuote(f)
    ensures EtagMatches(p + e + q, p' + f + q') <==> e == f
  {
    TrimQuotesDropsQuotes(p, e, q);
    TrimQuotesDropsQuotes(p', f, q');
  }

  /** So two ETags match iff both are one text, quoted or not. */
  lemma EtagMatchesIff(stored: ByteString, submitted: ByteString)
    ensures EtagMatches(stored, submitted) <==> SameText(stored, submitted)
  {
    TrimQuotesSplits(stored);
    TrimQuotesSplits(submitted);
    if e :| Quotes(stored, e) && Quotes(submitted, e) {
      var p, q :| AllQuotes(p) && AllQuotes(q) && stored == p + e + q;
      var p', q' :| AllQuotes(p') && AllQuotes(q') && submitted == p' + e + q';
      EtagMatchesMeaning(p, e, q, p', e, q');
    }
  }

  type Parts = map<int, MultipartPart>

  /** The part number before position `i` of a request. */
  function LastPart(requested: seq<CompletedPart>, i: nat): int
    requires i <= |requested|
  {
    if i == 0 then 0 else requested[i - 1].partNumber
  }

  predicate InOrder(requested: seq<CompletedPart>, i: nat)
    requires i < |requested|
  {
    requested[i].partNumber > LastPart(requested, i)
  }

  predicate PartMatches(parts: Parts, requested: seq<CompletedPart>, i: nat)
    requires i < |requested|
  {
    requested[i].partNumber in parts && EtagMatches(parts[requested[i].partNumber].etag, requested[i].etag)
  }

  predicate GoodUpTo(parts: Parts, requested: seq<CompletedPart>, n: nat)
    requires n <= |requested|
  {
    forall i :: 0 <= i < n ==> InOrder(requested, i) && PartMatches(parts, requested, i)
  }

  /** The stored parts a good request lists. */
  function Listed(parts: Parts, requested: seq<CompletedPart>, n: nat): (chosen: seq<MultipartPart>)
    requires n <= |requested| && GoodUpTo(parts, requested, n)
    ensures |chosen| == n
    ensures forall i :: 0 <= i < n ==> PartMatches(parts, requested, i) && chosen[i] == parts[requested[i].partNumber]
  {
    assert forall i :: 0 <= i < n ==> PartMatches(parts, requested, i);
    seq(n, i requires 0 <= i < n && PartMatches(parts, requested, i) => parts[requested[i].partNumber])
  }

  /** completeParts accepts a request iff part numbers are positive and strictly ascend and every listed part is stored
      with that ETag; the first offence decides the error, order before content. */
  ghost predicate Completes(parts: Parts, requested: seq<CompletedPart>, r: Result<seq<MultipartPart>, PartError>) {
    match r
    case Ok(chosen) =>
      GoodUpTo(parts, requested, |requested|) && chosen == Listed(parts, requested, |requested|)
    case Err(e) => exists n :: 0 <= n < |requested| && FirstOffence(parts, requested, n, e)
  }

  ghost predicate FirstOffence(parts: Parts, requested: seq<CompletedPart>, n: nat, e: PartError)
    requires n < |requested|
  {
    && GoodUpTo(parts, requested, n)
    && (if InOrder(requested, n) then !PartMatches(parts, requested, n) && e == InvalidPart else e == InvalidPartOrder)
  }

  lemma NothingListed(parts: Parts, requested: seq<CompletedPart>)
    ensures Listed(parts, requested, 0) == []
  {
  }

  lemma ListOneMore(parts: Parts, requested: seq<CompletedPart>, i: nat)
    requires i < |requested| && GoodUpTo(parts, requested, i)
    requires InOrder(requested, i) && PartMatches(parts, requested, i)
    ensures GoodUpTo(parts, requested, i + 1)
    ensures Listed(parts, requested, i + 1) == Listed(parts, requested, i) + [parts[requested[i].partNumber]]
  {
    hide EtagMatches, InOrder, Listed;
    var before, after := Listed(parts, requested, i), Listed(parts, requested, i + 1);
    forall j | 0 <= j < i ensures after[j] == before[j] {
    }
  }

  method CompleteParts(parts: Parts, requested: seq<CompletedPart>) returns (r: Result<seq<MultipartPart>, PartError>)
    ensures Completes(parts, requested, r)
  {
    hide EtagMatches, Listed;
    var chosen: seq<MultipartPart> := [];
    NothingListed(parts, requested);
    var lastPart := 0;
    for i := 0 to |requested|
      invariant lastPart == LastPart(requested, i)
      invariant GoodUpTo(parts, requested, i) && chosen == Listed(parts, requested, i)
    {
      var p := requested[i];
      if p.partNumber <= lastPart {
        assert FirstOffence(parts, requested, i, InvalidPartOrder);
        return Err(InvalidPartOrder);
      }
      lastPart := p.partNumber;
      if p.partNumber !in parts || !EtagMatches(parts[p.partNumber].etag, p.etag) {
        assert FirstOffence(parts, requested, i, InvalidPart);
        return Err(InvalidPart);
      }
      ListOneMore(parts, requested, i);
      chosen := chosen + [parts[p.partNumber]];
    }
    r := Ok(chosen);
  }

  /** A request goes through iff its part numbers ascend strictly from above 0 and every part is stored under that ETag,
      quotes aside; it then picks those parts. */
  lemma CompletesIff(parts: Parts, requested: seq<CompletedPart>, r: Result<seq<MultipartPart>, PartError>)
    requires Completes(parts, requested, r)
    ensures r.Ok? <==> forall i :: 0 <= i < |requested| ==>
              && (if i == 0 then 0 else requested[i - 1].partNumber) < requested[i].partNumber
              && requested[i].partNumber in parts
              && SameText(parts[requested[i].partNumber].etag, requested[i].etag)
    ensures r.Ok? ==>
      && |r.value| == |requested|
      && forall i :: 0 <= i < |requested| ==>
           requested[i].partNumber in parts && r.value[i] == parts[requested[i].partNumber]
  {
    hide EtagMatches, SameText;
    forall i | 0 <= i < |requested|
      ensures InOrder(requested, i) && PartMatches(parts, requested, i)
         <==> && (if i == 0 then 0 else requested[i - 1].partNumber) < requested[i].partNumber
              && requested[i].partNumber in parts
              && SameText(parts[requested[i].partNumber].etag, requested[i].etag)
    {
      if requested[i].partNumber in parts {
        EtagMatchesIff(parts[requested[i].partNumber].etag, requested[i].etag);
      }
    }
    if r.Err? {
      var n :| 0 <= n < |requested| && FirstOffence(parts, requested, n, r.error);
      assert !(InOrder(requested, n) && PartMatches(parts, requested, n));
    }
  }

  /** The first part that is out of order, missing, or listed under another ETag decides the error. */
  lemma WrongPartIsRefused(parts: Parts, requested: seq<CompletedPart>, n: nat,
                           r: Result<seq<MultipartPart>, PartError>)
    requires Completes(parts, requested, r) && n < |requested| && GoodUpTo(parts, requested, n)
    ensures var p := requested[n];
            if p.partNumber <= (if n == 0 then 0 else requested[n - 1].partNumber) then r == Err(InvalidPartOrder)
            else if p.partNumber !in parts then r == Err(InvalidPart)
            else forall e, f :: Quotes(parts[p.partNumber].etag, e) && Quotes(p.etag, f) && e != f ==>
                   r == Err(InvalidPart)
  {
    hide EtagMatches, Quotes;
    var p := requested[n];
    assert !InOrder(requested, n) ==> FirstOffence(parts, requested, n, InvalidPartOrder);
    if InOrder(requested, n) && p.partNumber in parts {
      forall e, f | Quotes(parts[p.partNumber].etag, e) && Quotes(p.etag, f) && e != f
        ensures !PartMatches(parts, requested, n)
      {
        OtherTextDiffers(parts[p.partNumber].etag, e, p.etag, f);
      }
    }
    CompletesOnce(parts, requested, n, r);
  }

  lemma OtherTextDiffers(stored: ByteString, e: ByteString, submitted: ByteString, f: ByteString)
    requires Quotes(stored, e) && Quotes(submitted, f) && e != f
    ensures !EtagMatches(stored, submitted)
  {
    hide EtagMatches;
    var p, q :| AllQuotes(p) && AllQuotes(q) && stored == p + e + q;
    var p', q' :| AllQuotes(p') && AllQuotes(q') && submitted == p' + f + q';
    EtagMatchesMeaning(p, e, q, p', f, q');
  }

  lemma CompletesOnce(parts: Parts, requested: seq<CompletedPart>, n: nat, r: Result<seq<MultipartPart>, PartError>)
    requires Completes(parts, requested, r) && n < |requested| && GoodUpTo(parts, requested, n)
    ensures !InOrder(requested, n) ==> r == Err(InvalidPartOrder)
    ensures InOrder(requested, n) && !PartMatches(parts, requested, n) ==> r == Err(InvalidPart)
  {
    hide EtagMatches, InOrder, PartMatches;
  }

  /** What completeParts answers is settled by the part map and the request. */
  lemma CompletesIsFunctional(parts: Parts, requested: seq<CompletedPart>, r: Result<seq<MultipartPart>, PartError>,
                              s: Result<seq<MultipartPart>, PartError>)
    requires Completes(parts, requested, r) && Completes(parts, requested, s)
    ensures r == s
  {
    hide EtagMatches;
  }

  /** A completed request lists each part at most once. */
  lemma {:induction false} ListedPartsAscend(parts: Parts, requested: seq<CompletedPart>, i: nat, j: nat)
    requires GoodUpTo(parts, requested, |requested|) && i < j < |requested|
    ensures 0 < requested[i].partNumber < requested[j].partNumber
    decreases j
  {
    hide EtagMatches;
    assert InOrder(requested, j) && InOrder(requested, i);
    if i > 0 {
      ListedPartsArePositive(parts, requested, i - 1);
    }
    if i < j - 1 {
      ListedPartsAscend(parts, requested, i, j - 1);
    }
  }

  lemma {:induction false} ListedPartsArePositive(parts: Parts, requested: seq<CompletedPart>, i: nat)
    requires GoodUpTo(parts, requested, |requested|) && i < |requested|
    ensures 0 < requested[i].partNumber
    decreases i
  {
    hide EtagMatches;
    assert InOrder(requested, i);
    if i > 0 {
      ListedPartsArePositive(parts, requested, i - 1);
    }
  }

  // ----- Uploading one part -----

  /** The chunk size uploadMultipartPartChunks settles on: configured or default, clamped to the document limit. */
  function PartChunkSize(configured: int, documentLimit: int, fallback: int): int {
    var size := if configured <= 0 then fallback else configured;
    if documentLimit > 0 && size > documentLimit then documentLimit else size
  }

  /** The largest size within what is configured, or else the default, and within the document limit if there is one. */
  lemma PartChunkSizeIsLargest(configured: int, documentLimit: int, fallback: int)
    ensures var size := PartChunkSize(configured, documentLimit, fallback);
            var wanted := if configured > 0 then configured else fallback;
            && size <= wanted && (documentLimit > 0 ==> size <= documentLimit)
            && (size == wanted || (0 < documentLimit == size))
  {
  }

  /** The part's documents were all sent after `before`, each by its own message. */
  ghost predicate PartSentAfter(before: Cloud, after: Cloud, chunks: seq<MultipartChunk>) {
    && before.GrowsTo(after)
    && (forall i :: 0 <= i < |chunks| ==>
         && before.next <= chunks[i].telegramMessageID < after.next
         && chunks[i].telegramFileID == chunks[i].telegramMessageID)
    && (forall i, j :: 0 <= i < j < |chunks| ==> chunks[i].telegramMessageID < chunks[j].telegramMessageID)
  }

  /** The chunks sent since `before` store `body`. */
  ghost predicate PartSent(before: Cloud, now: Cloud, chunkSize: int, chunks: seq<MultipartChunk>, body: ByteString) {
    && now.Valid()
    && PartSentAfter(before, now, chunks)
    && PartReadable(now.documents, chunks) && PartContent(now.documents, chunks) == body
    && forall i :: 0 <= i < |chunks| ==> chunks[i].size <= chunkSize
  }

  /** Every chunk is a document and records its document's hash. */
  ghost predicate Labelled(hashes: Hashes, documents: Documents, chunks: seq<MultipartChunk>) {
    forall i :: 0 <= i < |chunks| ==>
      && chunks[i].telegramFileID in documents
      && chunks[i].telegramType == DOCUMENT
      && chunks[i].sha256 == Hex(hashes.sha256(documents[chunks[i].telegramFileID]))
  }

  lemma LabelOneMore(hashes: Hashes, now: Cloud, later: Cloud, chunks: seq<MultipartChunk>, c: MultipartChunk,
                     data: ByteString)
    requires Labelled(hashes, now.documents, chunks) && now.Valid() && now.GrowsTo(later)
    requires later.documents == now.documents[c.telegramFileID := data] && c.telegramFileID >= now.next
    requires c.telegramType == DOCUMENT && c.sha256 == Hex(hashes.sha256(data))
    ensures Labelled(hashes, later.documents, chunks + [c])
  {
  }

  /** Where the loop of uploadMultipartPartChunks stands: these chunks have gone out, and store `body`. */
  ghost predicate PartUnderWay(before: Cloud, now: Cloud, hashes: Hashes, chunkSize: int, chunks: seq<MultipartChunk>,
                               body: ByteString)
  {
    PartSent(before, now, chunkSize, chunks, body) && Labelled(hashes, now.documents, chunks)
  }

  lemma NoPartSent(cloud: Cloud, hashes: Hashes, chunkSize: int)
    requires cloud.Valid()
    ensures PartUnderWay(cloud, cloud, hashes, chunkSize, [], [])
  {
  }

  lemma UnderWayGrows(before: Cloud, now: Cloud, hashes: Hashes, chunkSize: int, chunks: seq<MultipartChunk>,
                      body: ByteString)
    requires PartUnderWay(before, now, hashes, chunkSize, chunks, body)
    ensures before.GrowsTo(now) && now.Valid()
  {
  }

  lemma SendOneMorePartChunk(before: Cloud, now: Cloud, later: Cloud, hashes: Hashes, chunkSize: int,
                             chunks: seq<MultipartChunk>, body: ByteString, c: MultipartChunk, data: ByteString)
    requires PartUnderWay(before, now, hashes, chunkSize, chunks, body)
    requires later.Valid() && now.GrowsTo(later) && now.next <= c.telegramFileID < later.next
    requires later.documents == now.documents[c.telegramFileID := data]
    requires c.telegramFileID == c.telegramMessageID && 0 < c.size == |data| <= chunkSize
    requires c.telegramType == DOCUMENT && c.sha256 == Hex(hashes.sha256(data))
    ensures PartUnderWay(before, later, hashes, chunkSize, chunks + [c], body + data)
  {
    hide PartReadable, PartContent, Hex;
    PartContentSnoc(now.documents, later.documents, chunks, c, data);
    LabelOneMore(hashes, now, later, chunks, c, data);
  }

  lemma PartContentSnoc(documents: Documents, documents': Documents, chunks: seq<MultipartChunk>, c: MultipartChunk,
                        data: ByteString)
    requires PartReadable(documents, chunks)
    requires forall id :: id in documents ==> id in documents' && documents'[id] == documents[id]
    requires c.telegramFileID in documents' && documents'[c.telegramFileID] == data && c.size == |data| > 0
    ensures PartReadable(documents', chunks + [c])
    ensures PartContent(documents', chunks + [c]) == PartContent(documents, chunks) + data
  {
    PartContentKept(documents, documents', chunks);
    assert (chunks + [c])[..|chunks|] == chunks;
  }

  lemma {:induction false} PartContentKept(documents: Documents, documents': Documents, chunks: seq<MultipartChunk>)
    requires PartReadable(documents, chunks)
    requires forall i :: 0 <= i < |chunks| ==>
               chunks[i].telegramFileID in documents'
               && documents'[chunks[i].telegramFileID] == documents[chunks[i].telegramFileID]
    ensures PartReadable(documents', chunks) && PartContent(documents', chunks) == PartContent(documents, chunks)
  {
    if chunks != [] {
      PartContentKept(documents, documents', chunks[..|chunks| - 1]);
    }
  }

  /** The first `n` chunks are as large as allowed. */
  ghost predicate FullUpTo(chunks: seq<MultipartChunk>, n: int, chunkSize: int) {
    forall i :: 0 <= i < n && i < |chunks| ==> chunks[i].size == chunkSize
  }

  lemma NoneFull(chunkSize: int)
    ensures forall n :: FullUpTo([], n, chunkSize)
  {
  }

  lemma FullOneMore(chunks: seq<MultipartChunk>, c: MultipartChunk, chunkSize: int)
    requires FullUpTo(chunks, |chunks|, chunkSize)
    ensures FullUpTo(chunks + [c], |chunks|, chunkSize)
    ensures c.size == chunkSize ==> FullUpTo(chunks + [c], |chunks| + 1, chunkSize)
  {
  }

  lemma FullMeans(chunks: seq<MultipartChunk>, n: int, chunkSize: int)
    requires FullUpTo(chunks, n, chunkSize) && n <= |chunks|
    ensures forall i :: 0 <= i < n ==> chunks[i].size == chunkSize
  {
  }

  /** ObjectStore.uploadMultipartPartChunks. */
  method UploadPartChunks(client: Client, hashes: Hashes, number: int, reader: ByteString, size: nat,
                          configured: int, documentLimit: int, fallback: int)
    returns (r: Result<MultipartPart, UploadError>)
    requires client.cloud.Valid()
    modifies client
    ensures client.cloud.Valid() && old(client.cloud).GrowsTo(client.cloud)
    ensures r.Ok? ==>
      && |reader| == size == r.value.size
      && PartChunkSize(configured, documentLimit, fallback) > 0
      && PartUnderWay(old(client.cloud), client.cloud, hashes, PartChunkSize(configured, documentLimit, fallback),
                      r.value.chunks, reader)
      && |r.value.chunks| == CeilDiv(size, PartChunkSize(configured, documentLimit, fallback))
      && (forall i :: 0 <= i < |r.value.chunks| - 1 ==>
           r.value.chunks[i].size == PartChunkSize(configured, documentLimit, fallback))
      && r.value.number == number && r.value.md5 == hashes.md5(reader) && r.value.etag == Hex(hashes.md5(reader))
    ensures var chunkSize := PartChunkSize(configured, documentLimit, fallback);
            if chunkSize <= 0 then r == Err(EntityTooLarge)
            else r.Ok? <==> |reader| == size && client.AcceptsAll(old(client.calls), CeilDiv(size, chunkSize))
  {
    var chunkSize := PartChunkSize(configured, documentLimit, fallback);
    if chunkSize <= 0 {
      return Err(EntityTooLarge);
    }
    hide PartUnderWay, CeilDiv, Progress, Hex, Cloud.GrowsTo, Cloud.Valid, PartChunkSize, FullUpTo;
    var chunks: seq<MultipartChunk> := [];
    var hashed: ByteString := [];
    var remaining := size;
    NoPartSent(client.cloud, hashes, chunkSize);
    NoneFull(chunkSize);
    ProgressStart(size, chunkSize);
    while remaining > 0
      invariant 0 <= remaining <= size && |hashed| == size - remaining <= |reader| && hashed == reader[..|hashed|]
      invariant client.cloud.Valid()
      invariant PartUnderWay(old(client.cloud), client.cloud, hashes, chunkSize, chunks, hashed)
      invariant FullUpTo(chunks, if remaining > 0 then |chunks| else |chunks| - 1, chunkSize)
      invariant Progress(size, chunkSize, |hashed|, |chunks|)
      invariant client.calls == old(client.calls) + |chunks|
      invariant forall i :: old(client.calls) <= i < client.calls ==> client.accepts(i)
    {
      UnderWayGrows(old(client.cloud), client.cloud, hashes, chunkSize, chunks, hashed);
      var thisChunkSize := chunkSize;
      if remaining < thisChunkSize {
        thisChunkSize := remaining;
      }
      var offset := size - remaining;
      if |reader| - offset < thisChunkSize {
        return Err(UnexpectedEOF);
      }
      ProgressStep(size, chunkSize, offset, |chunks|);
      var data := reader[offset..offset + thisChunkSize];
      ghost var before := client.cloud;
      var uploaded, _ := client.Upload(Document, data);
      if uploaded.None? {
        return Err(SendFailed);
      }
      var c := MultipartChunk(|data|, DOCUMENT, uploaded.value, uploaded.value, [], Hex(hashes.sha256(data)));
      SendOneMorePartChunk(old(client.cloud), before, client.cloud, hashes, chunkSize, chunks, hashed, c, data);
      Prefixes(reader, offset, offset + thisChunkSize);
      FullOneMore(chunks, c, chunkSize);
      hashed := hashed + data;
      chunks := chunks + [c];
      remaining := remaining - |data|;
    }
    ProgressDone(size, chunkSize, |chunks|);
    UnderWayGrows(old(client.cloud), client.cloud, hashes, chunkSize, chunks, hashed);
    if |reader| > size {
      return Err(TooMuchData);
    }
    assert reader[..size] == reader;
    FullMeans(chunks, |chunks| - 1, chunkSize);
    var sum := hashes.md5(hashed);
    r := Ok(MultipartPart(number, Hex(sum), sum, size, chunks));
  }

  lemma Prefixes(s: ByteString, i: nat, j: nat)
    requires i <= j <= |s|
    ensures s[..i] + s[i..j] == s[..j]
  {
  }
}
