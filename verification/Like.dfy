/** `key LIKE escape(prefix) || '%' ESCAPE '\'`, the prefix test of every prefix query. */
module Like {
  import opened ByteStrings

  const BACKSLASH: byte := 0x5C
  const UNDERSCORE: byte := 0x5F

  /** escapeSQLiteLikePattern: a single-byte replacer over `\`, `%` and `_`. */
  function EscapeLike(value: ByteString): ByteString {
    if value == [] then []
    else
      (if value[0] == BACKSLASH || value[0] == PERCENT || value[0] == UNDERSCORE
       then [BACKSLASH, value[0]] else [value[0]]) + EscapeLike(value[1..])
  }

  /** SQLite's LIKE with escape character `\`, over a character equality. */
  predicate LikeMatch(pattern: ByteString, text: ByteString, eq: (byte, byte) -> bool)
    decreases |pattern|, |text|
  {
    if pattern == [] then text == []
    else if pattern[0] == PERCENT then
      LikeMatch(pattern[1..], text, eq) || (text != [] && LikeMatch(pattern, text[1..], eq))
    else if pattern[0] == UNDERSCORE then
      text != [] && LikeMatch(pattern[1..], text[1..], eq)
    else if pattern[0] == BACKSLASH then
      |pattern| >= 2 && text != [] && eq(pattern[1], text[0]) && LikeMatch(pattern[2..], text[1..], eq)
    else
      text != [] && eq(pattern[0], text[0]) && LikeMatch(pattern[1..], text[1..], eq)
  }

  predicate PrefixUpTo(p: ByteString, k: ByteString, eq: (byte, byte) -> bool) {
    |p| <= |k| && forall i :: 0 <= i < |p| ==> eq(p[i], k[i])
  }

  lemma {:induction false} PercentMatchesAll(text: ByteString, eq: (byte, byte) -> bool)
    ensures LikeMatch([PERCENT], text, eq)
    decreases |text|
  {
    if text == [] {
      assert LikeMatch([PERCENT][1..], text, eq);
    } else {
      PercentMatchesAll(text[1..], eq);
    }
  }

  /** For every prefix, whatever wildcards it contains, the pattern accepts exactly the keys
      that start with it up to the matcher's character equality. */
  lemma {:induction false} EscapedPatternIsPrefixTest(p: ByteString, k: ByteString, eq: (byte, byte) -> bool)
    ensures LikeMatch(EscapeLike(p) + [PERCENT], k, eq) <==> PrefixUpTo(p, k, eq)
    decreases |p|
  {
    var pattern := EscapeLike(p) + [PERCENT];
    if p == [] {
      assert pattern == [PERCENT];
      PercentMatchesAll(k, eq);
    } else {
      var rest := EscapeLike(p[1..]) + [PERCENT];
      var escaped := p[0] == BACKSLASH || p[0] == PERCENT || p[0] == UNDERSCORE;
      assert pattern == (if escaped then [BACKSLASH, p[0]] else [p[0]]) + rest;
      assert (if escaped then pattern[2..] else pattern[1..]) == rest;
      if k != [] {
        EscapedPatternIsPrefixTest(p[1..], k[1..], eq);
        assert PrefixUpTo(p, k, eq) <==> eq(p[0], k[0]) && PrefixUpTo(p[1..], k[1..], eq) by {
          assert forall i :: 1 <= i < |p| && |p| <= |k| ==> p[i] == p[1..][i - 1] && k[i] == k[1..][i - 1];
          assert forall i :: 0 <= i < |p| - 1 && |p| <= |k| ==> p[1..][i] == p[i + 1] && k[1..][i] == k[i + 1];
        }
      }
    }
  }

  /** Without escaping, the prefix "_" would match every key that starts with any byte, and the prefix "%" every key. */
  lemma WildcardsNeedEscaping(b: byte, text: ByteString, eq: (byte, byte) -> bool)
    ensures LikeMatch([UNDERSCORE] + [PERCENT], [b] + text, eq)
    ensures LikeMatch([PERCENT] + [PERCENT], text, eq)
  {
    PercentMatchesAll(text, eq);
    assert ([UNDERSCORE] + [PERCENT])[1..] == [PERCENT] && ([b] + text)[1..] == text;
    assert ([PERCENT] + [PERCENT])[1..] == [PERCENT];
  }

  /** ASCII case folding: SQLite's LIKE ignores ASCII case unless a pragma says otherwise. */
  function Fold(b: byte): byte {
    if 0x41 <= b <= 0x5A then b + 0x20 else b
  }

  function FoldEq(): (byte, byte) -> bool {
    (a: byte, b: byte) => Fold(a) == Fold(b)
  }

  /** Two bytes count as one iff they are equal or the two cases of an ASCII letter. */
  lemma FoldEqMeaning(a: byte, b: byte)
    ensures FoldEq()(a, b)
       <==> a == b || ('A' as int <= a <= 'Z' as int && b == a + 32) || ('A' as int <= b <= 'Z' as int && a == b + 32)
  {
  }

  /** The test the queries run: the escaped pattern under case folding. */
  predicate SqlPrefix(prefix: ByteString, key: ByteString) {
    LikeMatch(EscapeLike(prefix) + [PERCENT], key, FoldEq())
  }

  /** The keys on which the query's prefix test and a byte-exact one differ. */
  predicate CaseVariant(prefix: ByteString, key: ByteString) {
    PrefixUpTo(prefix, key, FoldEq()) && !(prefix <= key)
  }

  /** The query selects a key iff it starts with the prefix or is one of its case variants. */
  lemma SqlPrefixMeaning(prefix: ByteString, key: ByteString)
    ensures SqlPrefix(prefix, key) <==> prefix <= key || CaseVariant(prefix, key)
  {
    EscapedPatternIsPrefixTest(prefix, key, FoldEq());
  }
}
