/** Byte strings as Go and SQLite see them: keys, prefixes, delimiters and bodies. */
module ByteStrings {

  type byte = b: int | 0 <= b < 256

  type ByteString = seq<byte>

  datatype Option<+T> = None | Some(value: T)

  datatype Result<+T, +E> = Ok(value: T) | Err(error: E)

  const SLASH: byte := 0x2F
  const PERCENT: byte := 0x25

  /** SQLite's BINARY collation and Go's `<` on strings: lexicographic order on bytes. */
  predicate Lt(a: ByteString, b: ByteString) {
    b != [] && (a == [] || a[0] < b[0] || (a[0] == b[0] && Lt(a[1..], b[1..])))
  }

  /** One string comes before another iff, where they first differ, it ends or has the smaller byte. */
  lemma {:induction false} LtMeaning(a: ByteString, b: ByteString)
    ensures Lt(a, b)
       <==> exists i :: 0 <= i <= |a| && i < |b| && a[..i] == b[..i] && (i < |a| ==> a[i] < b[i])
  {
    if a != [] && b != [] && a[0] == b[0] {
      LtMeaning(a[1..], b[1..]);
      if Lt(a, b) {
        var i :| 0 <= i <= |a[1..]| && i < |b[1..]| && a[1..][..i] == b[1..][..i]
                 && (i < |a[1..]| ==> a[1..][i] < b[1..][i]);
        assert a[..i + 1] == [a[0]] + a[1..][..i] && b[..i + 1] == [b[0]] + b[1..][..i];
      }
      if i :| 0 <= i <= |a| && i < |b| && a[..i] == b[..i] && (i < |a| ==> a[i] < b[i]) {
        assert i > 0;
        assert a[1..][..i - 1] == a[..i][1..] && b[1..][..i - 1] == b[..i][1..];
      }
    } else if Lt(a, b) {
      assert a[..0] == b[..0];
    }
  }

  lemma LtEmpty(a: ByteString)
    ensures Lt([], a) <==> a != []
    ensures !Lt(a, [])
  {
  }

  lemma LtIrreflexive(a: ByteString)
    ensures !Lt(a, a)
  {
  }

  lemma {:induction false} LtTransitive(a: ByteString, b: ByteString, c: ByteString)
    requires Lt(a, b) && Lt(b, c)
    ensures Lt(a, c)
  {
    if a != [] && a[0] == b[0] == c[0] {
      LtTransitive(a[1..], b[1..], c[1..]);
    }
  }

  lemma {:induction false} LtTotal(a: ByteString, b: ByteString)
    ensures Lt(a, b) || a == b || Lt(b, a)
  {
    if a != [] && b != [] && a[0] == b[0] {
      LtTotal(a[1..], b[1..]);
      assert a == [a[0]] + a[1..] && b == [b[0]] + b[1..];
    }
  }

  /** Keys sharing a prefix are contiguous in byte order. */
  lemma {:induction false} PrefixContiguous(p: ByteString, a: ByteString, b: ByteString, c: ByteString)
    requires p <= a && p <= c
    requires Lt(a, b) && Lt(b, c)
    ensures p <= b
  {
    if p != [] {
      assert a[0] == p[0] == c[0] && b[0] == p[0];
      PrefixContiguous(p[1..], a[1..], b[1..], c[1..]);
      assert p == [p[0]] + p[1..] && b == [b[0]] + b[1..];
    }
  }

  /** Two strings of which neither extends the other keep their order when extended. */
  lemma {:induction false} PrefixesKeepOrder(p: ByteString, q: ByteString, a: ByteString, b: ByteString)
    requires p <= a && q <= b && Lt(a, b)
    requires !(p <= q) && !(q <= p)
    ensures Lt(p, q)
  {
    assert a[0] == p[0] && b[0] == q[0];
    if p[0] == q[0] {
      assert p == [p[0]] + p[1..] && q == [q[0]] + q[1..];
      PrefixesKeepOrder(p[1..], q[1..], a[1..], b[1..]);
    }
  }

  /** Extending two strings by the same stem keeps their order. */
  lemma {:induction false} LtSameStem(p: ByteString, a: ByteString, b: ByteString)
    ensures Lt(p + a, p + b) <==> Lt(a, b)
  {
    if p == [] {
      assert p + a == a && p + b == b;
    } else {
      assert (p + a)[1..] == p[1..] + a && (p + b)[1..] == p[1..] + b;
      LtSameStem(p[1..], a, b);
    }
  }

  lemma Associative<T>(a: seq<T>, b: seq<T>, c: seq<T>)
    ensures (a + b) + c == a + (b + c)
  {
  }

  predicate OccursAt(s: ByteString, d: ByteString, i: int) {
    0 <= i && i + |d| <= |s| && s[i..i + |d|] == d
  }

  lemma OccurrencesInTail(s: ByteString, d: ByteString)
    requires |d| <= |s| && s != []
    ensures forall j {:trigger OccursAt(s, d, j)} :: j > 0 ==> (OccursAt(s, d, j) <==> OccursAt(s[1..], d, j - 1))
    ensures forall j {:trigger OccursAt(s[1..], d, j)} :: j >= 0 ==> (OccursAt(s, d, j + 1) <==> OccursAt(s[1..], d, j))
  {
    forall j | 0 < j ensures OccursAt(s, d, j) <==> OccursAt(s[1..], d, j - 1) {
      if j + |d| <= |s| {
        assert s[1..][j - 1..j - 1 + |d|] == s[j..j + |d|];
      }
    }
    forall j | 0 <= j ensures OccursAt(s, d, j + 1) <==> OccursAt(s[1..], d, j) {
      assert OccursAt(s, d, j + 1) <==> OccursAt(s[1..], d, j + 1 - 1);
    }
  }

  /** strings.Index: the first position at which `d` occurs in `s`, or -1. */
  function Index(s: ByteString, d: ByteString): (i: int)
    ensures i == -1 || OccursAt(s, d, i)
    ensures forall j :: OccursAt(s, d, j) ==> 0 <= i <= j
  {
    if |s| < |d| then -1
    else if s[..|d|] == d then 0
    else if s == [] then -1
    else
      var r := Index(s[1..], d);
      OccurrencesInTail(s, d);
      if r < 0 then -1 else r + 1
  }

  lemma ByteOccurrences(s: ByteString, b: byte)
    ensures forall i :: OccursAt(s, [b], i) <==> 0 <= i < |s| && s[i] == b
  {
    forall i | 0 <= i < |s| ensures OccursAt(s, [b], i) <==> s[i] == b {
      assert s[i..i + 1] == [s[i]];
    }
  }

  lemma IndexOfByte(a: ByteString, b: byte, c: ByteString)
    requires b !in a
    ensures Index(a + [b] + c, [b]) == |a|
  {
    hide Index;
    var s := a + [b] + c;
    ByteOccurrences(s, b);
    assert OccursAt(s, [b], |a|);
    assert forall i :: 0 <= i < |a| ==> s[i] == a[i];
  }

  lemma NoIndexOfByte(s: ByteString, b: byte)
    requires b !in s
    ensures Index(s, [b]) == -1
  {
    hide Index;
    ByteOccurrences(s, b);
  }

  /** strings.TrimPrefix: drops `p` when it is there, and returns `s` unchanged otherwise. */
  function TrimPrefix(s: ByteString, p: ByteString): ByteString {
    if p <= s then s[|p|..] else s
  }

  /** The first occurrence of a byte parts a string in two. */
  lemma FirstByte(s: ByteString, b: byte)
    ensures var i := Index(s, [b]);
            && i < |s| && (i < 0 <==> b !in s)
            && (i >= 0 ==> b !in s[..i] && s == s[..i] + [b] + s[i + 1..])
  {
    var i := Index(s, [b]);
    ByteOccurrences(s, b);
    hide Index, OccursAt;
    assert i == -1 || OccursAt(s, [b], i);
    forall k | 0 <= k < |s| && s[k] == b ensures 0 <= i <= k {
      assert OccursAt(s, [b], k);
    }
  }

  lemma TrimPrefixMeaning(s: ByteString, p: ByteString)
    ensures if p <= s then p + TrimPrefix(s, p) == s else TrimPrefix(s, p) == s
  {
  }

  /** The bytes of an ASCII literal. */
  function Ascii(s: string): (b: ByteString)
    requires forall i :: 0 <= i < |s| ==> s[i] < 128 as char
    ensures |b| == |s| && forall i :: 0 <= i < |s| ==> b[i] == s[i] as int
  {
    seq(|s|, i requires 0 <= i < |s| => s[i] as int)
  }
}
