/** ParseRange: the Range header against the single-range meaning of section 14.1.2 of RFC 9110. */
module RangeHeader {
  import opened ByteStrings
  import opened Ranges

  const MAX_INT64 := 0x7FFF_FFFF_FFFF_FFFF
  const MINUS: byte := 0x2D
  const PLUS: byte := 0x2B
  const COMMA: byte := 0x2C
  const BYTES_UNIT: ByteString := Ascii("bytes=")

  predicate IsDigit(b: byte) {
    0x30 <= b <= 0x39
  }

  predicate AllDigits(s: ByteString) {
    forall i :: 0 <= i < |s| ==> IsDigit(s[i])
  }

  function DecimalValue(s: ByteString): nat
    requires AllDigits(s)
  {
    if s == [] then 0 else DecimalValue(s[..|s| - 1]) * 10 + (s[|s| - 1] - 0x30)
  }

  /** strconv.ParseInt(s, 10, 64): an optional sign, then digits, within int64. */
  function ParseInt64(s: ByteString): Option<int> {
    if s == [] then None
    else
      var negative := s[0] == MINUS;
      var digits := if negative || s[0] == PLUS then s[1..] else s;
      if digits == [] || !AllDigits(digits) then None
      else
        var v: int := DecimalValue(digits);
        if negative then (if v <= MAX_INT64 + 1 then Some(-v) else None)
        else if v <= MAX_INT64 then Some(v) else None
  }

  /** ParseRange; None is ErrInvalidRange. */
  function ParseRange(header: ByteString, size: int): Option<ByteRange> {
    if header == [] then (if size <= 0 then None else Some(ByteRange(0, size - 1)))
    else if size <= 0 then None
    else if !(BYTES_UNIT <= header) then None
    else
      var spec := TrimPrefix(header, BYTES_UNIT);
      if spec == [] || Index(spec, [COMMA]) >= 0 then None
      else
        var dash := Index(spec, [MINUS]);
        if dash < 0 then None
        else ParseSpec(spec[..dash], spec[dash + 1..], size)
  }

  function ParseSpec(first: ByteString, last: ByteString, size: int): Option<ByteRange> {
    if first == [] then
      match ParseInt64(last)
      case None => None
      case Some(suffix) =>
        if suffix <= 0 then None
        else
          var n := if suffix > size then size else suffix;
          Some(ByteRange(size - n, size - 1))
    else
      match ParseInt64(first)
      case None => None
      case Some(start) =>
        if start < 0 || start >= size then None
        else if last == [] then Some(ByteRange(start, size - 1))
        else
          match ParseInt64(last)
          case None => None
          case Some(end) =>
            if end < start then None
            else Some(ByteRange(start, if end >= size then size - 1 else end))
  }

  /** Whatever the header, an accepted range lies inside the object. */
  lemma AcceptedRangesAreInBounds(header: ByteString, size: int)
    ensures var r := ParseRange(header, size);
            r.Some? ==> 0 <= r.value.start <= r.value.end < size
  {
    hide Index, ParseInt64, TrimPrefix;
  }

  /** No header is the whole object, if there is any; a header goes through only as "bytes=", an optional number, a dash
      and an optional number, not both left out, without a comma. */
  lemma AcceptedShape(header: ByteString, size: int)
    ensures header == [] ==> ParseRange(header, size) == if size > 0 then Some(ByteRange(0, size - 1)) else None
    ensures header != [] && ParseRange(header, size).Some? ==>
              && size > 0 && COMMA !in header && BYTES_UNIT <= header
              && exists first, last ::
                   && header == BYTES_UNIT + (first + [MINUS] + last) && MINUS !in first
                   && (first != [] ==> ParseInt64(first).Some?)
                   && (last != [] ==> ParseInt64(last).Some?)
                   && (first != [] || last != [])
  {
    hide Index, ParseInt64;
    if header != [] && ParseRange(header, size).Some? {
      var spec := TrimPrefix(header, BYTES_UNIT);
      FirstByte(spec, COMMA);
      FirstByte(spec, MINUS);
      assert header == BYTES_UNIT + spec;
      EmptyIsNoNumber();
    }
  }

  lemma EmptyIsNoNumber()
    ensures ParseInt64([]).None?
  {
  }

  /** A number is an optional sign and at least one digit, and its value fits int64. */
  lemma ParseInt64Meaning(digits: ByteString)
    requires digits != [] && AllDigits(digits)
    ensures ParseInt64(digits) == ParseInt64([PLUS] + digits)
    ensures var v: int := DecimalValue(digits);
            && ParseInt64(digits) == (if v <= 9223372036854775807 then Some(v) else None)
            && ParseInt64([MINUS] + digits) == (if v <= 9223372036854775808 then Some(-v) else None)
  {
    hide DecimalValue;
    ParseDigits(digits);
    assert ([PLUS] + digits)[1..] == digits && ([MINUS] + digits)[1..] == digits;
  }

  lemma ParsedNumbers(s: ByteString)
    requires ParseInt64(s).Some?
    ensures exists sign, digits ::
              sign in {[], [PLUS], [MINUS]} && digits != [] && AllDigits(digits) && s == sign + digits
  {
    if s[0] == MINUS || s[0] == PLUS {
      assert s == [s[0]] + s[1..];
    } else {
      assert s == [] + s;
    }
  }

  // ----- The meaning of a single range -----

  /** A single range specifier over strings of digits. */
  datatype RangeSpec =
    | FirstLast(first: ByteString, last: ByteString)
    | FirstOnly(first: ByteString)
    | Suffix(length: ByteString)
  {
    ghost predicate Valid() {
      match this
      case FirstLast(f, l) => f != [] && l != [] && AllDigits(f) && AllDigits(l)
      case FirstOnly(f) => f != [] && AllDigits(f)
      case Suffix(n) => n != [] && AllDigits(n)
    }

    function Render(): ByteString {
      BYTES_UNIT + match this
                   case FirstLast(f, l) => f + [MINUS] + l
                   case FirstOnly(f) => f + [MINUS]
                   case Suffix(n) => [MINUS] + n
    }

    /** RFC 9110, section 14.1.2, over unbounded numbers; None is invalid or unsatisfiable. */
    ghost function Meaning(size: int): Option<ByteRange>
      requires Valid()
    {
      match this
      case FirstLast(f, l) =>
        var first, last := DecimalValue(f), DecimalValue(l);
        if last < first || size <= first then None else Some(ByteRange(first, Min(last, size - 1)))
      case FirstOnly(f) =>
        var first := DecimalValue(f);
        if size <= first then None else Some(ByteRange(first, size - 1))
      case Suffix(n) =>
        var length := DecimalValue(n);
        if length == 0 then None else Some(ByteRange(Max(0, size - length), size - 1))
    }

    /** The numeral that would have to be clamped fits int64. */
    ghost predicate Fits(size: int)
      requires Valid()
    {
      match this
      case FirstLast(f, l) => DecimalValue(l) <= MAX_INT64 || size <= DecimalValue(f)
      case FirstOnly(f) => true
      case Suffix(n) => DecimalValue(n) <= MAX_INT64
    }
  }

  lemma ParseDigits(s: ByteString)
    requires s != [] && AllDigits(s)
    ensures ParseInt64(s) == if DecimalValue(s) <= MAX_INT64 then Some(DecimalValue(s)) else None
  {
    assert IsDigit(s[0]) && s[0] in s;
  }

  /** Splitting a rendered specifier gives back its two sides. */
  lemma ParseSides(first: ByteString, last: ByteString, size: int)
    requires AllDigits(first) && AllDigits(last) && size > 0
    ensures ParseRange(BYTES_UNIT + (first + [MINUS] + last), size) == ParseSpec(first, last, size)
  {
    hide Index, ParseSpec;
    var spec := first + [MINUS] + last;
    assert TrimPrefix(BYTES_UNIT + spec, BYTES_UNIT) == spec;
    NoIndexOfByte(spec, COMMA);
    IndexOfByte(first, MINUS, last);
    assert spec[..|first|] == first && spec[|first| + 1..] == last;
  }

  /** For digit strings of any length ParseRange has the RFC's meaning iff the numeral to be clamped fits int64. */
  lemma ParseMeetsRfc(spec: RangeSpec, size: int)
    requires spec.Valid() && 0 < size <= MAX_INT64
    ensures ParseRange(spec.Render(), size) == spec.Meaning(size) <==> spec.Fits(size)
  {
    hide ParseRange, ParseInt64, DecimalValue;
    match spec
    case FirstLast(f, l) =>
      ParseSides(f, l, size);
      ParseDigits(f);
      ParseDigits(l);
    case FirstOnly(f) =>
      ParseSides(f, [], size);
      assert f + [MINUS] + [] == f + [MINUS];
      ParseDigits(f);
    case Suffix(n) =>
      ParseSides([], n, size);
      assert [] + [MINUS] + n == [MINUS] + n;
      ParseDigits(n);
  }

  // ----- Printing -----

  function Decimal(n: nat): (s: ByteString)
    ensures s != [] && AllDigits(s) && DecimalValue(s) == n
  {
    if n < 10 then
      var s: ByteString := [0x30 + n];
      assert s[..0] == [];
      s
    else
      var init, last := Decimal(n / 10), 0x30 + n % 10;
      OneMoreDigit(init, last);
      init + [last]
  }

  lemma OneMoreDigit(digits: ByteString, d: byte)
    requires AllDigits(digits) && IsDigit(d)
    ensures AllDigits(digits + [d])
    ensures DecimalValue(digits + [d]) == DecimalValue(digits) * 10 + (d - 0x30)
  {
    assert (digits + [d])[..|digits|] == digits;
  }

  /** Printing an in-bounds range in decimal and parsing it gives it back. */
  lemma ParseUndoesPrint(start: nat, end: nat, size: int)
    requires start <= end < size <= MAX_INT64
    ensures ParseRange(BYTES_UNIT + (Decimal(start) + [MINUS] + Decimal(end)), size) == Some(ByteRange(start, end))
  {
    hide ParseRange, Decimal, DecimalValue;
    ParseMeetsRfc(FirstLast(Decimal(start), Decimal(end)), size);
  }

  /** A suffix length beyond int64 is refused although the RFC reads it as the whole representation. */
  lemma HugeSuffixIsRefused(size: int)
    requires 0 < size <= MAX_INT64
    ensures var huge := Suffix(Decimal(MAX_INT64 + 1));
            ParseRange(huge.Render(), size).None? && huge.Meaning(size) == Some(ByteRange(0, size - 1))
  {
    hide ParseRange, Decimal, DecimalValue;
    var n := Decimal(MAX_INT64 + 1);
    ParseSides([], n, size);
    assert [] + [MINUS] + n == [MINUS] + n;
    ParseDigits(n);
  }
}
