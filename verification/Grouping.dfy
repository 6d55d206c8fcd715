/** One-pass delimiter grouping of a sorted key list: what a delimited listing means. */
module Grouping {
  import opened ByteStrings
  import opened Metadata
  import opened Scan

  /** The common prefix a key is grouped under, if any. */
  function GroupOf(key: ByteString, prefix: ByteString, delimiter: ByteString): Option<ByteString> {
    if delimiter == [] then None
    else
      var remainder := TrimPrefix(key, prefix);
      var idx := Index(remainder, delimiter);
      if idx < 0 then None else Some(prefix + remainder[..idx] + delimiter)
  }

  type GroupFunction = ByteString -> Option<ByteString>

  function ByDelimiter(prefix: ByteString, delimiter: ByteString): GroupFunction {
    (key: ByteString) => GroupOf(key, prefix, delimiter)
  }

  lemma GroupByIndex(key: ByteString, prefix: ByteString, delimiter: ByteString, remainder: ByteString, idx: int)
    requires remainder == TrimPrefix(key, prefix) && idx == Index(remainder, delimiter)
    ensures idx <= |remainder|
    ensures ByDelimiter(prefix, delimiter)(key)
         == if delimiter == [] || idx < 0 then None else Some(prefix + remainder[..idx] + delimiter)
  {
  }

  /** The objects that fall under no common prefix, in order. */
  function Ungrouped(m: seq<Object>, group: GroupFunction): seq<Object> {
    if m == [] then []
    else
      var init := Ungrouped(m[..|m| - 1], group);
      var last := m[|m| - 1];
      if group(last.key).None? then init + [last] else init
  }

  /** The common prefixes, each once, in order of first appearance. */
  function Groups(m: seq<Object>, group: GroupFunction): seq<ByteString> {
    if m == [] then []
    else
      var init := Groups(m[..|m| - 1], group);
      var g := group(m[|m| - 1].key);
      if g.Some? && g.value !in init then init + [g.value] else init
  }

  lemma Snoc(m: seq<Object>, i: int, j: int, group: GroupFunction)
    requires 0 <= i <= j < |m|
    ensures var g := group(m[j].key);
            var us := Ungrouped(m[i..j], group);
            var gs := Groups(m[i..j], group);
            && Ungrouped(m[i..j + 1], group) == (if g.None? then us + [m[j]] else us)
            && Groups(m[i..j + 1], group) == (if g.Some? && g.value !in gs then gs + [g.value] else gs)
  {
    assert m[i..j + 1][..j - i] == m[i..j];
  }

  ghost predicate HasGroup(m: seq<Object>, group: GroupFunction, g: ByteString) {
    exists i :: 0 <= i < |m| && group(m[i].key) == Some(g)
  }

  /** Groups lists every group that has a row, and lists it once. */
  lemma {:induction false} GroupsAreTheGroups(m: seq<Object>, group: GroupFunction)
    ensures forall i, j :: 0 <= i < j < |Groups(m, group)| ==> Groups(m, group)[i] != Groups(m, group)[j]
    ensures forall g :: g in Groups(m, group) <==> HasGroup(m, group, g)
  {
    if m != [] {
      var init, last := m[..|m| - 1], m[|m| - 1];
      GroupsAreTheGroups(init, group);
      forall g ensures HasGroup(m, group, g) <==> HasGroup(init, group, g) || group(last.key) == Some(g) {
        if HasGroup(init, group, g) {
          var i :| 0 <= i < |init| && group(init[i].key) == Some(g);
          assert m[i] == init[i];
        }
        if HasGroup(m, group, g) {
          var i :| 0 <= i < |m| && group(m[i].key) == Some(g);
          assert i < |init| ==> init[i] == m[i];
        }
      }
    }
  }

  /** Ungrouped keeps exactly the rows outside every group. */
  lemma {:induction false} UngroupedAreTheRest(m: seq<Object>, group: GroupFunction)
    ensures forall o :: o in Ungrouped(m, group) <==> o in m && group(o.key).None?
    ensures SortedByKey(m) ==> SortedByKey(Ungrouped(m, group))
  {
    if m != [] {
      var init, last := m[..|m| - 1], m[|m| - 1];
      UngroupedAreTheRest(init, group);
      assert m == init + [last];
      forall o | SortedByKey(m) && o in init ensures Lt(o.key, last.key) {
        var i :| 0 <= i < |init| && init[i] == o;
        assert m[i] == o;
      }
    }
  }

  /** Two stretches that share no group are listed one after the other. */
  lemma {:induction false} Concat(a: seq<Object>, b: seq<Object>, group: GroupFunction)
    requires forall g :: !(HasGroup(a, group, g) && HasGroup(b, group, g))
    ensures Ungrouped(a + b, group) == Ungrouped(a, group) + Ungrouped(b, group)
    ensures Groups(a + b, group) == Groups(a, group) + Groups(b, group)
  {
    if b == [] {
      assert a + b == a;
    } else {
      var init, last := b[..|b| - 1], b[|b| - 1];
      assert (a + b)[..|a + b| - 1] == a + init && (a + b)[|a + b| - 1] == last;
      InitGroups(b, group);
      GroupsAreTheGroups(a, group);
      hide HasGroup;
      Concat(a, init, group);
    }
  }

  lemma InitGroups(m: seq<Object>, group: GroupFunction)
    requires m != []
    ensures forall g :: HasGroup(m[..|m| - 1], group, g) ==> HasGroup(m, group, g)
    ensures var g := group(m[|m| - 1].key); g.Some? ==> HasGroup(m, group, g.value)
  {
    var init := m[..|m| - 1];
    forall g | HasGroup(init, group, g) ensures HasGroup(m, group, g) {
      var i :| 0 <= i < |init| && group(init[i].key) == Some(g);
      assert m[i] == init[i];
    }
  }

  /** Rows that stay inside a group already listed change neither list. */
  lemma {:induction false} RestOfGroupIsSilent(m: seq<Object>, group: GroupFunction, g: ByteString, i: int, j: int,
                                               n: int)
    requires 0 <= i <= j <= n <= |m|
    requires g in Groups(m[i..j], group)
    requires forall x :: j <= x < n ==> group(m[x].key) == Some(g)
    ensures Ungrouped(m[i..n], group) == Ungrouped(m[i..j], group)
    ensures Groups(m[i..n], group) == Groups(m[i..j], group)
    decreases n - j
  {
    hide Ungrouped, Groups;
    if j < n {
      RestOfGroupIsSilent(m, group, g, i, j, n - 1);
      Snoc(m, i, n - 1, group);
    }
  }

  /** A group function whose groups are exactly the key sets under common prefixes. */
  ghost predicate PrefixGroups(m: seq<Object>, group: GroupFunction) {
    forall i, j :: 0 <= i < |m| && 0 <= j < |m| && group(m[i].key).Some? ==>
      && group(m[i].key).value <= m[i].key
      && (group(m[i].key).value <= m[j].key <==> group(m[j].key) == group(m[i].key))
  }

  /** In a sorted listing the rows of one group are contiguous. */
  lemma GroupContiguous(m: seq<Object>, group: GroupFunction, a: int, b: int, c: int)
    requires SortedByKey(m) && PrefixGroups(m, group)
    requires 0 <= a <= b <= c < |m|
    requires group(m[a].key).Some? && group(m[a].key) == group(m[c].key)
    ensures group(m[b].key) == group(m[a].key)
  {
    hide Lt;
    if a < b < c {
      PrefixContiguous(group(m[a].key).value, m[a].key, m[b].key, m[c].key);
    }
  }

  /** Common prefixes appear in ascending order. */
  lemma {:induction false} GroupsAscend(m: seq<Object>, group: GroupFunction)
    requires SortedByKey(m) && PrefixGroups(m, group)
    ensures forall i, j :: 0 <= i < j < |Groups(m, group)| ==> Lt(Groups(m, group)[i], Groups(m, group)[j])
  {
    if m != [] {
      var init, last := m[..|m| - 1], m[|m| - 1];
      assert forall i :: 0 <= i < |init| ==> init[i] == m[i];
      GroupsAscend(init, group);
      GroupsAreTheGroups(init, group);
      var gs := Groups(init, group);
      var g := group(last.key);
      if g.Some? && g.value !in gs {
        forall x | 0 <= x < |gs| ensures Lt(gs[x], g.value) {
          assert gs[x] in gs && HasGroup(init, group, gs[x]);
          var i :| 0 <= i < |init| && group(init[i].key) == Some(gs[x]);
          assert m[i] == init[i] && m[|m| - 1] == last;
          PrefixesKeepOrder(gs[x], g.value, m[i].key, last.key);
        }
      }
    }
  }

  // ----- Delimiter grouping has prefix groups -----

  lemma SameWindow(s: ByteString, t: ByteString, n: int, a: int, b: int)
    requires 0 <= a <= b <= n <= |s| && n <= |t|
    requires s[..n] == t[..n]
    ensures s[a..b] == t[a..b]
  {
    assert s[a..b] == s[..n][a..b] && t[a..b] == t[..n][a..b];
  }

  /** The first occurrence of a delimiter is settled by the bytes up to its end. */
  lemma IndexSettled(r: ByteString, r': ByteString, d: ByteString, i: int, n: int)
    requires i == Index(r, d) >= 0 && n == i + |d| <= |r|
    requires n <= |r'| && r[..n] == r'[..n]
    ensures Index(r', d) == i
  {
    var i' := Index(r', d);
    assert forall j :: OccursAt(r', d, j) ==> 0 <= i' <= j;
    assert i' >= 0 ==> OccursAt(r', d, i');
    assert OccursAt(r, d, i);
    hide Index, OccursAt;
    OccursInWindow(r, r', n, d, i);
    OccursInWindow(r, r', n, d, i');
    NotBefore(r, d, i');
  }

  lemma NotBefore(s: ByteString, d: ByteString, i: int)
    ensures OccursAt(s, d, i) ==> 0 <= Index(s, d) <= i
  {
  }

  lemma OccursInWindow(s: ByteString, t: ByteString, n: int, d: ByteString, i: int)
    requires 0 <= i && i + |d| <= n <= |s| && n <= |t|
    requires s[..n] == t[..n]
    ensures OccursAt(s, d, i) <==> OccursAt(t, d, i)
  {
    SameWindow(s, t, n, i, i + |d|);
  }

  lemma Glue(prefix: ByteString, k: ByteString, i: int, n: int)
    requires prefix <= k && 0 <= i <= n <= |k| - |prefix|
    ensures var r := k[|prefix|..];
            prefix + r[..i] + r[i..n] == prefix + r[..n] == k[..|prefix| + n]
  {
  }

  lemma IndexFits(r: ByteString, d: ByteString, i: int)
    requires i == Index(r, d) && i >= 0
    ensures i + |d| <= |r| && r[i..i + |d|] == d
  {
    assert OccursAt(r, d, i);
  }

  lemma GroupAt(k: ByteString, prefix: ByteString, delimiter: ByteString, r: ByteString, i: int)
    requires prefix <= k && r == k[|prefix|..] && i == Index(r, delimiter)
    ensures i <= |r|
    ensures GroupOf(k, prefix, delimiter)
         == if delimiter == [] || i < 0 then None else Some(prefix + r[..i] + delimiter)
  {
  }

  /** A common prefix is the key up to the end of the first delimiter. */
  lemma GroupIsAPrefix(k: ByteString, prefix: ByteString, delimiter: ByteString, i: int, n: int)
    requires prefix <= k && GroupOf(k, prefix, delimiter).Some?
    requires i == Index(k[|prefix|..], delimiter) && n == i + |delimiter|
    ensures delimiter != [] && 0 <= i && n <= |k| - |prefix|
    ensures GroupOf(k, prefix, delimiter) == Some(k[..|prefix| + n])
  {
    hide Index;
    var r := k[|prefix|..];
    GroupAt(k, prefix, delimiter, r, i);
    IndexFits(r, delimiter, i);
    Glue(prefix, k, i, n);
  }

  lemma GroupIsPrefixOfKey(k: ByteString, prefix: ByteString, delimiter: ByteString, g: ByteString)
    requires prefix <= k && GroupOf(k, prefix, delimiter) == Some(g)
    ensures g <= k
  {
    hide Index;
    var i := Index(k[|prefix|..], delimiter);
    GroupIsAPrefix(k, prefix, delimiter, i, i + |delimiter|);
  }

  lemma GroupFromCut(k: ByteString, prefix: ByteString, delimiter: ByteString, i: int, n: int)
    requires prefix <= k && delimiter != []
    requires i == Index(k[|prefix|..], delimiter) && i >= 0 && n == i + |delimiter|
    ensures n <= |k| - |prefix| && GroupOf(k, prefix, delimiter) == Some(k[..|prefix| + n])
  {
    hide Index;
    GroupAt(k, prefix, delimiter, k[|prefix|..], i);
    GroupIsAPrefix(k, prefix, delimiter, i, n);
  }

  /** Position `n` of a key ends a delimiter beyond the prefix. */
  ghost predicate EndsDelimiter(key: ByteString, prefix: ByteString, delimiter: ByteString, n: int) {
    |prefix| + |delimiter| <= n <= |key| && key[n - |delimiter|..n] == delimiter
  }

  /** A key under the prefix is grouped iff a delimiter follows the prefix, and then under the key up to the end of the
      first one. */
  lemma GroupMeaning(key: ByteString, prefix: ByteString, delimiter: ByteString)
    requires prefix <= key
    ensures match GroupOf(key, prefix, delimiter)
            case None => delimiter == [] || forall n :: !EndsDelimiter(key, prefix, delimiter, n)
            case Some(g) =>
              && delimiter != [] && g <= key && EndsDelimiter(key, prefix, delimiter, |g|)
              && forall n :: EndsDelimiter(key, prefix, delimiter, n) ==> |g| <= n
  {
    hide Index;
    if delimiter != [] {
      var r := key[|prefix|..];
      var i := Index(r, delimiter);
      GroupAt(key, prefix, delimiter, r, i);
      forall n | EndsDelimiter(key, prefix, delimiter, n) ensures OccursAt(r, delimiter, n - |delimiter| - |prefix|) {
        SameTail(key, |prefix|, n - |delimiter|, n);
      }
      if i >= 0 {
        IndexFits(r, delimiter, i);
        GroupIsAPrefix(key, prefix, delimiter, i, i + |delimiter|);
        SameTail(key, |prefix|, |prefix| + i, |prefix| + i + |delimiter|);
      }
    }
  }

  lemma SameTail(s: ByteString, p: int, a: int, b: int)
    requires 0 <= p <= a <= b <= |s|
    ensures s[p..][a - p..b - p] == s[a..b]
  {
  }

  /** A key that extends a common prefix has that same common prefix, for delimiters of any length. */
  lemma ExtendingAGroup(k: ByteString, k': ByteString, prefix: ByteString, delimiter: ByteString, g: ByteString)
    requires prefix <= k && prefix <= k'
    requires GroupOf(k, prefix, delimiter) == Some(g)
    requires g <= k'
    ensures GroupOf(k', prefix, delimiter) == Some(g)
  {
    hide Index, GroupOf;
    var r, r' := k[|prefix|..], k'[|prefix|..];
    var i := Index(r, delimiter);
    var n := i + |delimiter|;
    GroupIsAPrefix(k, prefix, delimiter, i, n);
    assert g == k[..|prefix| + n] && g == k'[..|prefix| + n];
    SameWindow(k, k', |g|, |prefix|, |g|);
    assert r[..n] == k[|prefix|..|prefix| + n] && r'[..n] == k'[|prefix|..|prefix| + n];
    IndexFits(r, delimiter, i);
    IndexSettled(r, r', delimiter, i, n);
    GroupFromCut(k', prefix, delimiter, i, n);
  }

  ghost predicate AllUnder(m: seq<Object>, prefix: ByteString) {
    forall i :: 0 <= i < |m| ==> prefix <= m[i].key
  }

  lemma DelimiterGroupsArePrefixGroups(m: seq<Object>, prefix: ByteString, delimiter: ByteString)
    requires AllUnder(m, prefix)
    ensures PrefixGroups(m, ByDelimiter(prefix, delimiter))
  {
    hide GroupOf;
    var group := ByDelimiter(prefix, delimiter);
    forall i, j | 0 <= i < |m| && 0 <= j < |m| && group(m[i].key).Some?
      ensures group(m[i].key).value <= m[i].key
      ensures group(m[i].key).value <= m[j].key <==> group(m[j].key) == group(m[i].key)
    {
      var g := group(m[i].key).value;
      GroupIsPrefixOfKey(m[i].key, prefix, delimiter, g);
      if g <= m[j].key {
        ExtendingAGroup(m[i].key, m[j].key, prefix, delimiter, g);
      }
      if group(m[j].key) == Some(g) {
        GroupIsPrefixOfKey(m[j].key, prefix, delimiter, g);
      }
    }
  }
}
