/** The x-amz-copy-source header, read by parseCopySource and written by any client that percent-encodes. */
module CopySource {
  import opened ByteStrings
  import opened PercentCoding

  const QUESTION: byte := 0x3F

  datatype CopySourceError = Malformed | BadBucketEscape | BadKeyEscape

  /** parseCopySource: an optional leading slash, anything from '?' on dropped, bucket and key parted by the first
      slash, each percent-decoded. */
  function ParseCopySource(source: ByteString): Result<(ByteString, ByteString), CopySourceError> {
    var trimmed := TrimPrefix(source, [SLASH]);
    var query := Index(trimmed, [QUESTION]);
    var path := if query >= 0 then trimmed[..query] else trimmed;
    var slash := Index(path, [SLASH]);
    if slash <= 0 || slash + 1 == |path| then Err(Malformed)
    else
      assert OccursAt(path, [SLASH], slash);
      match PathUnescape(path[..slash])
      case None => Err(BadBucketEscape)
      case Some(bucket) =>
        match PathUnescape(path[slash + 1..])
        case None => Err(BadKeyEscape)
        case Some(key) => Ok((bucket, key))
  }

  /** What a client sends for an object. */
  function Rendered(bucket: ByteString, key: ByteString): ByteString {
    Encode(bucket, true) + [SLASH] + Encode(key, false)
  }

  lemma NotAmongEncoded(s: ByteString, encodeSlash: bool, b: byte)
    requires !Unreserved(b) && b != PERCENT && (b == SLASH ==> encodeSlash)
    ensures b !in Encode(s, encodeSlash)
  {
    EncodedBytes(s, encodeSlash);
  }

  /** A path without '?' that starts with no slash reads as its two halves. */
  lemma ParsesHalves(first: ByteString, second: ByteString)
    requires first != [] && second != []
    requires SLASH !in first && QUESTION !in first + [SLASH] + second
    ensures var path := first + [SLASH] + second;
            ParseCopySource(path) == ParseCopySource([SLASH] + path)
    ensures ParseCopySource(first + [SLASH] + second)
         == match PathUnescape(first)
            case None => Err(BadBucketEscape)
            case Some(bucket) =>
              match PathUnescape(second)
              case None => Err(BadKeyEscape)
              case Some(key) => Ok((bucket, key))
  {
    hide PathUnescape, Index;
    var path := first + [SLASH] + second;
    NoIndexOfByte(path, QUESTION);
    IndexOfByte(first, SLASH, second);
    assert path[0] == first[0] && path[0] in first;
    assert TrimPrefix(path, [SLASH]) == path;
    assert TrimPrefix([SLASH] + path, [SLASH]) == path;
    assert path[..|first|] == first && path[|first| + 1..] == second;
  }

  /** Parsing undoes rendering for every non-empty bucket and key, with or without a leading slash: slashes, question
      marks and percent signs in either survive. */
  lemma ParseUndoesRender(bucket: ByteString, key: ByteString)
    requires bucket != [] && key != []
    ensures ParseCopySource(Rendered(bucket, key)) == Ok((bucket, key))
    ensures ParseCopySource([SLASH] + Rendered(bucket, key)) == Ok((bucket, key))
  {
    hide PathUnescape, ParseCopySource, Encode;
    var first, second := Encode(bucket, true), Encode(key, false);
    EncodedBytes(bucket, true);
    EncodedBytes(key, false);
    NotAmongEncoded(bucket, true, SLASH);
    NotAmongEncoded(bucket, true, QUESTION);
    NotAmongEncoded(key, false, QUESTION);
    ParsesHalves(first, second);
    UnescapeUndoesEncode(bucket, true);
    UnescapeUndoesEncode(key, false);
  }

  /** Whatever follows a question mark is dropped. */
  lemma QueryIsDropped(source: ByteString, query: ByteString)
    requires QUESTION !in source
    ensures ParseCopySource(source + [QUESTION] + query) == ParseCopySource(source)
  {
    hide PathUnescape, Index;
    var whole := source + [QUESTION] + query;
    var trimmed, rest := TrimPrefix(whole, [SLASH]), TrimPrefix(source, [SLASH]);
    assert trimmed == rest + [QUESTION] + query by {
      if source == [] {
        assert whole[0] == QUESTION && !([SLASH] <= whole) && !([SLASH] <= source);
      } else {
        assert whole[0] == source[0];
        assert [SLASH] <= whole <==> [SLASH] <= source;
        assert whole[1..] == source[1..] + [QUESTION] + query;
      }
    }
    assert QUESTION !in rest;
    IndexOfByte(rest, QUESTION, query);
    NoIndexOfByte(rest, QUESTION);
    assert trimmed[..|rest|] == rest;
  }

  /** A header that parses names a non-empty bucket and a non-empty key. */
  lemma ParsedNamesAreNonempty(source: ByteString)
    requires ParseCopySource(source).Ok?
    ensures ParseCopySource(source).value.0 != [] && ParseCopySource(source).value.1 != []
  {
    hide Index;
  }

  /** With the leading slash there, an empty bucket or key is refused rather than guessed. */
  lemma EmptyNamesAreRefused(bucket: ByteString, key: ByteString)
    requires bucket == [] || key == []
    ensures ParseCopySource([SLASH] + Rendered(bucket, key)) == Err(Malformed)
  {
    hide PathUnescape, Encode, Index;
    var first, second := Encode(bucket, true), Encode(key, false);
    var path := Rendered(bucket, key);
    EmptyEncodesToEmpty();
    NotAmongEncoded(bucket, true, SLASH);
    NotAmongEncoded(bucket, true, QUESTION);
    NotAmongEncoded(key, false, QUESTION);
    NoIndexOfByte(path, QUESTION);
    IndexOfByte(first, SLASH, second);
    assert TrimPrefix([SLASH] + path, [SLASH]) == path;
  }

  lemma EmptyEncodesToEmpty()
    ensures forall encodeSlash :: Encode([], encodeSlash) == []
  {
  }
}
