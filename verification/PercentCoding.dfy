/** Percent-encoding as sigv4.go writes and reads it. */
module PercentCoding {
  import opened ByteStrings

  /** The characters that stay themselves: letters, digits, '-', '_', '.' and '~'. */
  predicate Unreserved(c: byte) {
    || 0x41 <= c <= 0x5A || 0x61 <= c <= 0x7A || 0x30 <= c <= 0x39
    || c == 0x2D || c == 0x5F || c == 0x2E || c == 0x7E
  }

  /** An upper-case hex digit, as %02X prints it. */
  function UpperHex(n: int): byte
    requires 0 <= n < 16
  {
    if n < 10 then 0x30 + n else 0x41 + (n - 10)
  }

  /** fromHex: a hex digit of either case. */
  function FromHex(b: byte): Option<int> {
    if 0x30 <= b <= 0x39 then Some(b - 0x30)
    else if 0x61 <= b <= 0x66 then Some(b - 0x61 + 10)
    else if 0x41 <= b <= 0x46 then Some(b - 0x41 + 10)
    else None
  }

  lemma HexUndoes(n: int)
    requires 0 <= n < 16
    ensures FromHex(UpperHex(n)) == Some(n)
    ensures Unreserved(UpperHex(n))
  {
  }

  function EncodeByte(c: byte, encodeSlash: bool): ByteString {
    if Unreserved(c) || (c == SLASH && !encodeSlash) then [c]
    else [PERCENT, UpperHex(c / 16), UpperHex(c % 16)]
  }

  function Encode(s: ByteString, encodeSlash: bool): ByteString {
    if s == [] then [] else EncodeByte(s[0], encodeSlash) + Encode(s[1..], encodeSlash)
  }

  // ----- The alphabets -----

  /** Section 2.3 of RFC 3986: letters, digits and four marks. */
  lemma UnreservedMeaning(c: byte)
    ensures Unreserved(c)
       <==> || 'A' <= c as char <= 'Z' || 'a' <= c as char <= 'z' || '0' <= c as char <= '9' || c as char in "-._~"
  {
  }

  /** Every escape that is written is a percent sign and two upper-case hex digits, and what needs none is written as it
      is. */
  lemma EncodeByteMeaning(c: byte, encodeSlash: bool)
    ensures var e := EncodeByte(c, encodeSlash);
            if Unreserved(c) || (c == SLASH && !encodeSlash) then e == [c]
            else |e| == 3 && e[0] == PERCENT && e[1] in Ascii("0123456789ABCDEF") && e[2] in Ascii("0123456789ABCDEF")
                 && FromHex(e[1]) == Some(c / 16) && FromHex(e[2]) == Some(c % 16)
  {
    UpperHexMeaning(c / 16);
    UpperHexMeaning(c % 16);
  }

  lemma UpperHexMeaning(n: int)
    requires 0 <= n < 16
    ensures UpperHex(n) in Ascii("0123456789ABCDEF") && FromHex(UpperHex(n)) == Some(n)
  {
    assert Ascii("0123456789ABCDEF")[n] == UpperHex(n);
  }

  /** Encoding goes byte by byte. */
  lemma {:induction false} EncodeConcat(a: ByteString, b: ByteString, encodeSlash: bool)
    ensures Encode(a + b, encodeSlash) == Encode(a, encodeSlash) + Encode(b, encodeSlash)
    ensures forall c: byte :: Encode([c], encodeSlash) == EncodeByte(c, encodeSlash)
  {
    hide EncodeByte;
    forall c: byte ensures Encode([c], encodeSlash) == EncodeByte(c, encodeSlash) {
      assert [c][1..] == [];
    }
    if a == [] {
      assert a + b == b;
    } else {
      assert (a + b)[1..] == a[1..] + b;
      EncodeConcat(a[1..], b, encodeSlash);
      Associative(EncodeByte(a[0], encodeSlash), Encode(a[1..], encodeSlash), Encode(b, encodeSlash));
    }
  }

  /** A well-formed escape at position `i`. */
  predicate EscapeAt(s: ByteString, i: int) {
    0 <= i && i + 2 < |s| && s[i] == PERCENT && FromHex(s[i + 1]).Some? && FromHex(s[i + 2]).Some?
  }

  function EscapedByte(s: ByteString, i: int): byte
    requires EscapeAt(s, i)
  {
    FromHex(s[i + 1]).value * 16 + FromHex(s[i + 2]).value
  }

  /** What canonicalQueryComponent reads: well-formed escapes decoded, everything else as it is. */
  function Decode(s: ByteString): ByteString {
    if s == [] then []
    else if EscapeAt(s, 0) then [EscapedByte(s, 0)] + Decode(s[3..])
    else [s[0]] + Decode(s[1..])
  }

  /** sigV4Encode */
  method SigV4Encode(s: ByteString, encodeSlash: bool) returns (b: ByteString)
    ensures b == Encode(s, encodeSlash)
  {
    b := [];
    for i := 0 to |s|
      invariant b + Encode(s[i..], encodeSlash) == Encode(s, encodeSlash)
    {
      var c := s[i];
      EncodeOneMore(s, i, encodeSlash);
      ghost var before := b;
      if Unreserved(c) {
        b := b + [c];
        Associative(before, [c], Encode(s[i + 1..], encodeSlash));
        continue;
      }
      if c == SLASH && !encodeSlash {
        b := b + [c];
        Associative(before, [c], Encode(s[i + 1..], encodeSlash));
        continue;
      }
      b := b + [PERCENT, UpperHex(c / 16), UpperHex(c % 16)];
      Associative(before, [PERCENT, UpperHex(c / 16), UpperHex(c % 16)], Encode(s[i + 1..], encodeSlash));
    }
    assert s[|s|..] == [];
  }

  lemma EncodeOneMore(s: ByteString, i: nat, encodeSlash: bool)
    requires i < |s|
    ensures Encode(s[i..], encodeSlash) == EncodeByte(s[i], encodeSlash) + Encode(s[i + 1..], encodeSlash)
  {
    assert s[i..][1..] == s[i + 1..];
  }

  /** canonicalQueryComponent: decode in a loop, then encode again. */
  method CanonicalQueryComponent(raw: ByteString) returns (r: ByteString)
    ensures r == Encode(Decode(raw), true)
  {
    hide Encode, FromHex;
    var decoded: ByteString := [];
    var i := 0;
    while i < |raw|
      invariant 0 <= i <= |raw|
      invariant decoded + Decode(raw[i..]) == Decode(raw)
    {
      DecodeOneMore(raw, i);
      ghost var before := decoded;
      if raw[i] == PERCENT && i + 2 < |raw| {
        var hi, lo := FromHex(raw[i + 1]), FromHex(raw[i + 2]);
        if hi.Some? && lo.Some? {
          decoded := decoded + [hi.value * 16 + lo.value];
          Associative(before, [hi.value * 16 + lo.value], Decode(raw[i + 3..]));
          i := i + 3;
          continue;
        }
      }
      decoded := decoded + [raw[i]];
      Associative(before, [raw[i]], Decode(raw[i + 1..]));
      i := i + 1;
    }
    assert raw[i..] == [] && decoded + [] == decoded;
    r := SigV4Encode(decoded, true);
  }

  lemma DecodeOneMore(s: ByteString, i: nat)
    requires i < |s|
    ensures Decode(s[i..])
         == if EscapeAt(s, i) then [EscapedByte(s, i)] + Decode(s[i + 3..]) else [s[i]] + Decode(s[i + 1..])
  {
    var t := s[i..];
    assert EscapeAt(t, 0) <==> EscapeAt(s, i);
    assert t[1..] == s[i + 1..];
    if EscapeAt(s, i) {
      assert t[3..] == s[i + 3..];
    }
  }

  // ----- The codec -----

  /** Decoding undoes encoding, whether or not slashes are escaped. */
  lemma {:induction false} DecodeUndoesEncode(s: ByteString, encodeSlash: bool)
    ensures Decode(Encode(s, encodeSlash)) == s
  {
    if s != [] {
      DecodeUndoesEncode(s[1..], encodeSlash);
      DecodeFirst(s[0], Encode(s[1..], encodeSlash), encodeSlash);
      assert s == [s[0]] + s[1..];
    }
  }

  lemma DecodeFirst(c: byte, rest: ByteString, encodeSlash: bool)
    ensures Decode(EncodeByte(c, encodeSlash) + rest) == [c] + Decode(rest)
  {
    var e := EncodeByte(c, encodeSlash);
    var all := e + rest;
    assert all[|e|..] == rest;
    if |e| == 1 {
      assert c != PERCENT;
      assert !EscapeAt(all, 0);
    } else {
      HexUndoes(c / 16);
      HexUndoes(c % 16);
      assert all[0] == PERCENT && all[1] == UpperHex(c / 16) && all[2] == UpperHex(c % 16);
      assert EscapeAt(all, 0) && EscapedByte(all, 0) == c;
    }
  }

  lemma EncodeIsInjective(a: ByteString, b: ByteString, encodeSlash: bool)
    requires Encode(a, encodeSlash) == Encode(b, encodeSlash)
    ensures a == b
  {
    DecodeUndoesEncode(a, encodeSlash);
    DecodeUndoesEncode(b, encodeSlash);
  }

  /** An encoded string is made of unreserved characters, escapes and, if they are let through, slashes. */
  lemma {:induction false} EncodedBytes(s: ByteString, encodeSlash: bool)
    ensures forall i :: 0 <= i < |Encode(s, encodeSlash)| ==>
              var c := Encode(s, encodeSlash)[i]; Unreserved(c) || c == PERCENT || (c == SLASH && !encodeSlash)
    ensures s != [] ==> Encode(s, encodeSlash) != []
  {
    if s != [] {
      EncodedBytes(s[1..], encodeSlash);
      HexUndoes(s[0] / 16);
      HexUndoes(s[0] % 16);
    }
  }

  /** Unreserved strings encode to themselves. */
  lemma {:induction false} UnreservedStays(s: ByteString, encodeSlash: bool)
    requires forall i :: 0 <= i < |s| ==> Unreserved(s[i])
    ensures Encode(s, encodeSlash) == s
  {
    if s != [] {
      UnreservedStays(s[1..], encodeSlash);
      assert s == [s[0]] + s[1..];
    }
  }

  // ----- What is not an escape -----

  /** Text without a well-formed escape is read as it is, stray percent signs included. */
  lemma {:induction false} DecodeLeavesTheRest(s: ByteString)
    requires forall i :: !EscapeAt(s, i)
    ensures Decode(s) == s
  {
    if s != [] {
      forall i ensures !EscapeAt(s[1..], i) {
        assert !EscapeAt(s, i + 1);
      }
      DecodeLeavesTheRest(s[1..]);
      assert s == [s[0]] + s[1..];
    }
  }

  /** A hex digit of either case reads as its value, and nothing else is one. */
  lemma FromHexMeaning(b: byte)
    ensures match FromHex(b)
            case Some(n) => 0 <= n < 16 && (b == Ascii("0123456789abcdef")[n] || b == Ascii("0123456789ABCDEF")[n])
            case None => b !in Ascii("0123456789abcdefABCDEF")
  {
    if FromHex(b).None? && b in Ascii("0123456789abcdefABCDEF") {
      var i :| 0 <= i < 22 && b == Ascii("0123456789abcdefABCDEF")[i];
      assert false;
    }
  }

  /** url.PathUnescape: escapes decoded, a malformed escape is an error. */
  function PathUnescape(s: ByteString): Option<ByteString> {
    if s == [] then Some([])
    else if s[0] == PERCENT then
      if !EscapeAt(s, 0) then None
      else
        match PathUnescape(s[3..])
        case None => None
        case Some(rest) => Some([EscapedByte(s, 0)] + rest)
    else
      match PathUnescape(s[1..])
      case None => None
      case Some(rest) => Some([s[0]] + rest)
  }

  /** It fails iff some percent sign starts no well-formed escape, and otherwise decodes every escape. */
  lemma {:induction false} UnescapeMeaning(s: ByteString)
    ensures PathUnescape(s).None? <==> exists i :: 0 <= i < |s| && s[i] == PERCENT && !EscapeAt(s, i)
    ensures PathUnescape(s).Some? ==> PathUnescape(s).value == Decode(s)
    decreases |s|
  {
    if s != [] {
      var n := if EscapeAt(s, 0) then 3 else 1;
      var rest := s[n..];
      UnescapeMeaning(rest);
      forall i | n <= i < |s| ensures rest[i - n] == s[i] && (EscapeAt(rest, i - n) <==> EscapeAt(s, i)) {
      }
      if i :| 0 <= i < |rest| && rest[i] == PERCENT && !EscapeAt(rest, i) {
        assert s[i + n] == PERCENT && !EscapeAt(s, i + n);
      }
      if i :| 0 <= i < |s| && s[i] == PERCENT && !EscapeAt(s, i) {
        assert i >= n ==> rest[i - n] == PERCENT && !EscapeAt(rest, i - n);
      }
    }
  }

  lemma {:induction false} UnescapeUndoesEncode(s: ByteString, encodeSlash: bool)
    ensures PathUnescape(Encode(s, encodeSlash)) == Some(s)
  {
    if s != [] {
      UnescapeUndoesEncode(s[1..], encodeSlash);
      UnescapeFirst(s[0], Encode(s[1..], encodeSlash), encodeSlash);
      assert s == [s[0]] + s[1..];
    }
  }

  lemma UnescapeFirst(c: byte, rest: ByteString, encodeSlash: bool)
    requires PathUnescape(rest).Some?
    ensures PathUnescape(EncodeByte(c, encodeSlash) + rest) == Some([c] + PathUnescape(rest).value)
  {
    var e := EncodeByte(c, encodeSlash);
    var all := e + rest;
    assert all[|e|..] == rest;
    if |e| == 1 {
      assert all[0] == c && c != PERCENT;
    } else {
      HexUndoes(c / 16);
      HexUndoes(c % 16);
      assert all[0] == PERCENT && all[1] == UpperHex(c / 16) && all[2] == UpperHex(c % 16);
      assert EscapeAt(all, 0) && EscapedByte(all, 0) == c;
    }
  }
}
