/** Finite sets of keys in byte order. */
module SortedKeys {
  import opened ByteStrings
  import SortedInts

  predicate IsLeast(s: set<ByteString>, m: ByteString) {
    m in s && forall x :: x in s ==> x == m || Lt(m, x)
  }

  lemma {:induction false} LeastExists(s: set<ByteString>)
    requires s != {}
    ensures exists m :: IsLeast(s, m)
  {
    hide Lt;
    var a := SortedInts.SomeMember(s);
    var rest := s - {a};
    if rest == {} {
      assert s == {a};
      assert IsLeast(s, a);
    } else {
      LeastExists(rest);
      var m :| IsLeast(rest, m);
      LtTotal(a, m);
      var n := if Lt(a, m) then a else m;
      forall x | x in s ensures x == n || Lt(n, x) {
        assert x == a || x in rest;
        if Lt(a, m) && x in rest && x != m {
          LtTransitive(a, m, x);
        }
      }
      assert IsLeast(s, n);
    }
  }

  lemma LeastIsUnique(s: set<ByteString>, m: ByteString, n: ByteString)
    requires IsLeast(s, m) && IsLeast(s, n)
    ensures m == n
  {
    hide Lt;
    if m != n {
      LtTransitive(m, n, m);
      LtIrreflexive(m);
    }
  }

  function Least(s: set<ByteString>): (m: ByteString)
    requires s != {}
    ensures IsLeast(s, m)
  {
    LeastExists(s);
    assert forall m, n :: IsLeast(s, m) && IsLeast(s, n) ==> m == n by {
      forall m, n | IsLeast(s, m) && IsLeast(s, n) ensures m == n {
        LeastIsUnique(s, m, n);
      }
    }
    var m :| m in s && IsLeast(s, m);
    m
  }

  /** ORDER BY key ASC */
  function SortKeys(s: set<ByteString>): seq<ByteString>
    decreases |s|
  {
    if s == {} then [] else [Least(s)] + SortKeys(s - {Least(s)})
  }

  ghost predicate KeysAscend(ks: seq<ByteString>) {
    forall i, j :: 0 <= i < j < |ks| ==> Lt(ks[i], ks[j])
  }

  lemma {:induction false} SortKeysMeaning(s: set<ByteString>)
    ensures KeysAscend(SortKeys(s))
    ensures forall x :: x in SortKeys(s) <==> x in s
    decreases |s|
  {
    hide Lt;
    if s != {} {
      var m := Least(s);
      SortKeysMeaning(s - {m});
      var rest := SortKeys(s - {m});
      forall j | 0 <= j < |rest| ensures Lt(m, rest[j]) {
        assert rest[j] in rest;
      }
    }
  }
}
