/** The listing query over the object rows of one bucket. */
module Scan {
  import opened ByteStrings
  import opened Like
  import opened Metadata

  /** The objects of one bucket in primary-key order. */
  ghost predicate SortedByKey(rows: seq<Object>) {
    forall i, j :: 0 <= i < j < |rows| ==> Lt(rows[i].key, rows[j].key)
  }

  /** WHERE key LIKE escape(prefix)||'%', as a test on keys. */
  function PrefixTest(prefix: ByteString): ByteString -> bool {
    (key: ByteString) => SqlPrefix(prefix, key)
  }

  /** WHERE test AND key > after ORDER BY key ASC. */
  function Select(rows: seq<Object>, test: ByteString -> bool, after: ByteString): seq<Object> {
    if rows == [] then []
    else
      (if test(rows[0].key) && Lt(after, rows[0].key) then [rows[0]] else [])
      + Select(rows[1..], test, after)
  }

  /** SQLiteStore.ListObjects: a non-positive limit means 1000. */
  function Query(rows: seq<Object>, prefix: ByteString, after: ByteString, limit: int): seq<Object> {
    var selected := Select(rows, PrefixTest(prefix), after);
    var n := if limit <= 0 then 1000 else limit;
    if |selected| <= n then selected else selected[..n]
  }

  /** How many leading rows do not come after the cursor. */
  function Beyond(m: seq<Object>, after: ByteString): (n: nat)
    ensures n <= |m|
  {
    if m == [] || Lt(after, m[0].key) then 0 else 1 + Beyond(m[1..], after)
  }

  lemma {:induction false} SelectMembers(rows: seq<Object>, test: ByteString -> bool, after: ByteString)
    ensures forall o :: o in Select(rows, test, after) <==> o in rows && test(o.key) && Lt(after, o.key)
  {
    hide Lt;
    if rows != [] {
      SelectMembers(rows[1..], test, after);
      assert rows == [rows[0]] + rows[1..];
    }
  }

  lemma {:induction false} BeyondMeaning(m: seq<Object>, after: ByteString)
    ensures forall i :: 0 <= i < Beyond(m, after) ==> !Lt(after, m[i].key)
    ensures Beyond(m, after) < |m| ==> Lt(after, m[Beyond(m, after)].key)
  {
    hide Lt;
    if m != [] {
      BeyondMeaning(m[1..], after);
      assert forall i :: 1 <= i < |m| ==> m[i] == m[1..][i - 1];
    }
  }

  lemma {:induction false} SelectSorted(rows: seq<Object>, test: ByteString -> bool, after: ByteString)
    requires SortedByKey(rows)
    ensures SortedByKey(Select(rows, test, after))
  {
    if rows != [] {
      hide Lt;
      SelectSorted(rows[1..], test, after);
      SelectMembers(rows[1..], test, after);
      forall o | o in Select(rows[1..], test, after)
        ensures Lt(rows[0].key, o.key)
      {
        var i :| 0 <= i < |rows[1..]| && rows[1..][i] == o;
        assert rows[1..][i] == rows[i + 1];
      }
    }
  }

  lemma SelectHead(rows: seq<Object>, test: ByteString -> bool, after: ByteString)
    requires rows != []
    ensures Select(rows, test, after)
         == (if test(rows[0].key) && Lt(after, rows[0].key) then [rows[0]] else []) + Select(rows[1..], test, after)
  {
  }

  lemma BeyondHead(m: seq<Object>, o: Object, rest: seq<Object>, after: ByteString)
    requires m == [o] + rest
    ensures Beyond(m, after) == if Lt(after, o.key) then 0 else 1 + Beyond(rest, after)
  {
    assert m[1..] == rest;
  }

  /** Every query is a window of the rows that match the prefix. */
  lemma {:induction false} SelectIsSuffix(rows: seq<Object>, test: ByteString -> bool, after: ByteString)
    requires SortedByKey(rows)
    ensures var m := Select(rows, test, []);
            Select(rows, test, after) == m[Beyond(m, after)..]
  {
    if rows != [] {
      hide Lt, Select, Beyond;
      var o, tail := rows[0], rows[1..];
      LtEmpty(o.key);
      LtEmpty(after);
      SelectHead(rows, test, []);
      SelectHead(rows, test, after);
      SelectIsSuffix(tail, test, after);
      var rest := Select(tail, test, []);
      if test(o.key) && o.key != [] {
        BeyondHead([o] + rest, o, rest, after);
        if Lt(after, o.key) {
          AllBeyond(rows, test, after);
        }
      } else {
        assert [] + rest == rest && [] + Select(tail, test, after) == Select(tail, test, after);
      }
    } else {
      assert Select(rows, test, []) == [];
    }
  }

  /** Once one row is past the cursor, so are all that follow it. */
  lemma AllBeyond(rows: seq<Object>, test: ByteString -> bool, after: ByteString)
    requires SortedByKey(rows) && rows != [] && Lt(after, rows[0].key)
    ensures Beyond(Select(rows[1..], test, []), after) == 0
  {
    hide Lt;
    var rest := Select(rows[1..], test, []);
    if rest != [] {
      SelectMembers(rows[1..], test, []);
      assert rest[0] in rest;
      var i :| 0 <= i < |rows[1..]| && rows[1..][i] == rest[0];
      assert rows[i + 1] == rest[0];
      LtTransitive(after, rows[0].key, rest[0].key);
    }
  }

  lemma BeyondRow(m: seq<Object>, j: int)
    requires SortedByKey(m) && 0 <= j < |m|
    ensures Beyond(m, m[j].key) == j + 1
  {
    hide Lt, Beyond;
    var n := Beyond(m, m[j].key);
    BeyondMeaning(m, m[j].key);
    LtIrreflexive(m[j].key);
    assert j + 1 < |m| ==> Lt(m[j].key, m[j + 1].key);
    if n < j {
      LtTransitive(m[j].key, m[n].key, m[j].key);
    }
  }

  /** A page of the query is a window of the matching rows, cut at the limit. */
  lemma QueryIsWindow(rows: seq<Object>, prefix: ByteString, after: ByteString, limit: int)
    requires SortedByKey(rows)
    ensures var m := Select(rows, PrefixTest(prefix), []);
            var n := Beyond(m, after);
            var size := if limit > 0 then limit else 1000;
            Query(rows, prefix, after, limit) == m[n..if n + size <= |m| then n + size else |m|]
  {
    hide Lt, Select, Beyond, PrefixTest;
    SelectIsSuffix(rows, PrefixTest(prefix), after);
  }

  /** A table in which every key that passes the query's prefix test starts with the prefix, byte for byte. */
  ghost predicate NoCaseVariants(rows: seq<Object>, prefix: ByteString) {
    forall o :: o in rows ==> !CaseVariant(prefix, o.key)
  }

  /** The query returns exactly the rows under the prefix iff the table holds no case variant of it. */
  lemma SelectIsExact(rows: seq<Object>, prefix: ByteString)
    ensures NoCaseVariants(rows, prefix)
       <==> (forall o :: o in Select(rows, PrefixTest(prefix), []) <==> o in rows && prefix <= o.key && o.key != [])
  {
    hide Lt;
    SelectMembers(rows, PrefixTest(prefix), []);
    forall o: Object
      ensures PrefixTest(prefix)(o.key) <==> prefix <= o.key || CaseVariant(prefix, o.key)
      ensures Lt([], o.key) <==> o.key != []
    {
      LtEmpty(o.key);
      SqlPrefixMeaning(prefix, o.key);
    }
    if !NoCaseVariants(rows, prefix) {
      var o :| o in rows && CaseVariant(prefix, o.key);
      assert o.key != [];
      assert o in Select(rows, PrefixTest(prefix), []);
    }
  }
}
