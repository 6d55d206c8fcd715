/** ObjectStore.ListObjects: paged, delimiter-grouped listing over an unchanging table. */
module Listing {
  import opened ByteStrings
  import opened Like
  import opened Metadata
  import opened Scan
  import opened Grouping

  datatype ListObjectsInput = ListObjectsInput(
    prefix: ByteString, delimiter: ByteString, afterKey: ByteString, limit: int)

  datatype ListObjectsResult = ListObjectsResult(
    objects: seq<Object>,
    commonPrefixes: seq<ByteString>,
    nextContinuationAfter: ByteString,
    isTruncated: bool)

  /** The number of matching rows consumed when a page ends. */
  function PageEnd(m: seq<Object>, after: ByteString, r: ListObjectsResult): nat {
    if r.nextContinuationAfter == [] then Beyond(m, after) else Beyond(m, r.nextContinuationAfter)
  }

  /** No group has rows on both sides of position `j`, looking back no further than `i`. */
  predicate CleanCut(m: seq<Object>, group: GroupFunction, i: int, j: int)
    requires 0 <= i <= j <= |m|
  {
    i < j < |m| ==>
      group(m[j - 1].key).None? || group(m[j - 1].key) != group(m[j].key)
  }

  /** What one page over the matching rows `m` promises, for a cursor `after`. */
  predicate IsPage(m: seq<Object>, group: GroupFunction, after: ByteString, limit: nat,
                   r: ListObjectsResult)
  {
    var i := Beyond(m, after);
    var j := PageEnd(m, after, r);
    && i <= j
    && r.nextContinuationAfter == (if i == j then [] else m[j - 1].key)
    && r.objects == Ungrouped(m[i..j], group)
    && r.commonPrefixes == Groups(m[i..j], group)
    && |r.objects| + |r.commonPrefixes| <= limit
    && CleanCut(m, group, i, j)
    && (r.isTruncated <==> i < j < |m|)
    && (j < |m| ==> |r.objects| + |r.commonPrefixes| == limit)
  }

  /** The variables ListObjects carries from row to row. */
  datatype ListState = ListState(
    objects: seq<Object>,
    commonPrefixes: seq<ByteString>,
    seenPrefixes: set<ByteString>,
    next: ByteString,
    afterKey: ByteString)
  {
    function Count(): nat {
      |objects| + |commonPrefixes|
    }
  }

  /** The rows m[i..j] have been consumed, and grouped into the result lists. */
  ghost predicate Consumed(m: seq<Object>, group: GroupFunction, i: int, j: int, st: ListState) {
    && 0 <= i <= j <= |m|
    && j == Beyond(m, st.afterKey)
    && st.next == (if i == j then [] else m[j - 1].key)
    && (i < j ==> st.afterKey == st.next)
    && st.objects == Ungrouped(m[i..j], group)
    && st.commonPrefixes == Groups(m[i..j], group)
    && (forall g :: g in st.seenPrefixes <==> g in st.commonPrefixes)
  }

  lemma ConsumedFacts(m: seq<Object>, group: GroupFunction, i: int, j: int, st: ListState)
    requires Consumed(m, group, i, j, st)
    requires forall x :: 0 <= x < |m| ==> m[x].key != []
    ensures 0 <= i <= j <= |m| && j == Beyond(m, st.afterKey)
    ensures st.next == [] <==> i == j
    ensures i < j ==> st.next == st.afterKey == m[j - 1].key
  {
    hide Beyond, Ungrouped, Groups;
  }

  lemma NothingConsumed(m: seq<Object>, group: GroupFunction, after: ByteString)
    ensures var i := Beyond(m, after);
            && Ungrouped(m[i..i], group) == [] && Groups(m[i..i], group) == []
            && CleanCut(m, group, i, i)
            && Consumed(m, group, i, i, ListState([], [], {}, [], after))
  {
  }

  /** Consuming one more row lists it, lists its group, or lists nothing when the group is listed already. */
  lemma ConsumeRow(m: seq<Object>, group: GroupFunction, i: int, j: int, st: ListState)
    requires SortedByKey(m) && j < |m| && Consumed(m, group, i, j, st)
    ensures var g, st' := group(m[j].key), st.(next := m[j].key, afterKey := m[j].key);
            && (g.None? ==>
                 && Consumed(m, group, i, j + 1, st'.(objects := st.objects + [m[j]]))
                 && CleanCut(m, group, i, j + 1))
            && (g.Some? && g.value in st.seenPrefixes ==>
                 Consumed(m, group, i, j + 1, st'))
            && (g.Some? && g.value !in st.seenPrefixes ==>
                 Consumed(m, group, i, j + 1, st'.(commonPrefixes := st.commonPrefixes + [g.value],
                                                   seenPrefixes := st.seenPrefixes + {g.value})))
  {
    hide Lt, SortedByKey, Ungrouped, Groups;
    Snoc(m, i, j, group);
    BeyondRow(m, j);
  }

  lemma ConsumeRestOfGroup(m: seq<Object>, group: GroupFunction, i: int, j: int, n: int, g: ByteString,
                           lastKey: ByteString, st: ListState)
    requires Consumed(m, group, i, j, st)
    requires i < j <= n <= |m| && n == Beyond(m, lastKey) && lastKey == m[n - 1].key
    requires g in st.seenPrefixes && forall x :: j - 1 <= x < n ==> group(m[x].key) == Some(g)
    requires n < |m| ==> group(m[n].key) != Some(g)
    ensures Consumed(m, group, i, n, st.(next := lastKey, afterKey := lastKey))
    ensures CleanCut(m, group, i, n)
  {
    hide Beyond, Ungrouped, Groups;
    RestOfGroupIsSilent(m, group, g, i, j, n);
  }

  /** A page that stopped at a full count, or ran out of rows, meets its contract. */
  lemma PageDone(m: seq<Object>, group: GroupFunction, after: ByteString, limit: nat, j: int, st: ListState,
                 isTruncated: bool)
    requires Consumed(m, group, Beyond(m, after), j, st)
    requires forall x :: 0 <= x < |m| ==> m[x].key != []
    requires st.Count() <= limit
    requires j < |m| ==> st.Count() == limit && CleanCut(m, group, Beyond(m, after), j)
    requires isTruncated <==> Beyond(m, after) < j < |m|
    ensures IsPage(m, group, after, limit, ListObjectsResult(st.objects, st.commonPrefixes, st.next, isTruncated))
  {
    hide Beyond, Ungrouped, Groups;
  }

  lemma SelectedKeysAreNonempty(rows: seq<Object>, test: ByteString -> bool)
    ensures var m := Select(rows, test, []); forall x :: 0 <= x < |m| ==> m[x].key != []
  {
    SelectMembers(rows, test, []);
    var m := Select(rows, test, []);
    assert forall x :: 0 <= x < |m| ==> m[x] in m;
  }

  /** ObjectStore.advanceContinuationPastPrefix: skips the rest of one group. */
  method AdvanceContinuationPastPrefix(rows: seq<Object>, input: ListObjectsInput, prefix: ByteString,
                                       afterKey: ByteString)
    returns (cursor: ByteString, hasMore: bool)
    requires SortedByKey(rows)
    requires input.delimiter != []
    requires var m := Select(rows, PrefixTest(input.prefix), []);
             var j := Beyond(m, afterKey);
             && 0 < j && afterKey == m[j - 1].key
             && ByDelimiter(input.prefix, input.delimiter)(afterKey) == Some(prefix)
    ensures var m := Select(rows, PrefixTest(input.prefix), []);
            var group := ByDelimiter(input.prefix, input.delimiter);
            var j, n := Beyond(m, afterKey), Beyond(m, cursor);
            && j <= n && cursor == m[n - 1].key
            && (forall x :: j - 1 <= x < n ==> group(m[x].key) == Some(prefix))
            && (n < |m| ==> group(m[n].key) != Some(prefix))
            && (hasMore <==> n < |m|)
  {
    hide Lt, SortedByKey, Select, Query, Beyond, GroupOf, ByDelimiter, TrimPrefix, Index;
    SelectSorted(rows, PrefixTest(input.prefix), []);
    ghost var m := Select(rows, PrefixTest(input.prefix), []);
    ghost var group := ByDelimiter(input.prefix, input.delimiter);
    ghost var j := Beyond(m, afterKey);
    cursor := afterKey;
    ghost var n := j;
    while true
      invariant j <= n <= |m| && cursor == m[n - 1].key && n == Beyond(m, cursor)
      invariant forall x :: j - 1 <= x < n ==> group(m[x].key) == Some(prefix)
      decreases |m| - n
    {
      QueryIsWindow(rows, input.prefix, cursor, 32);
      var objects := Query(rows, input.prefix, cursor, 32);
      assert objects == m[n..n + |objects|];
      if |objects| == 0 {
        return cursor, false;
      }
      ghost var n0 := n;
      for x := 0 to |objects|
        invariant n == n0 + x && cursor == m[n - 1].key && n == Beyond(m, cursor)
        invariant forall y :: j - 1 <= y < n ==> group(m[y].key) == Some(prefix)
      {
        assert objects[x] == m[n];
        var remainder := TrimPrefix(objects[x].key, input.prefix);
        var idx := Index(remainder, input.delimiter);
        GroupByIndex(objects[x].key, input.prefix, input.delimiter, remainder, idx);
        if idx < 0 {
          return cursor, true;
        }
        var currentPrefix := input.prefix + remainder[..idx] + input.delimiter;
        if currentPrefix != prefix {
          return cursor, true;
        }
        BeyondRow(m, n);
        cursor := objects[x].key;
        n := n + 1;
      }
      if |objects| < 32 {
        return cursor, false;
      }
    }
  }

  /** The body of the fetch loop of ObjectStore.ListObjects: groups one fetched batch of rows, stopping when the page
      is full. Rows of a group already seen never stop it. */
  method GroupBatch(rows: seq<Object>, input: ListObjectsInput, limit: nat, batch: seq<Object>, before: ListState,
                    ghost i: int)
    returns (st: ListState, pageFull: bool, stopListing: bool, truncated: bool)
    requires SortedByKey(rows)
    requires before.Count() < limit
    requires var m := Select(rows, PrefixTest(input.prefix), []);
             var j0 := Beyond(m, before.afterKey);
             && Consumed(m, ByDelimiter(input.prefix, input.delimiter), i, j0, before)
             && j0 + |batch| <= |m| && batch == m[j0..j0 + |batch|]
    ensures var m := Select(rows, PrefixTest(input.prefix), []);
            var group := ByDelimiter(input.prefix, input.delimiter);
            var j0, j := Beyond(m, before.afterKey), Beyond(m, st.afterKey);
            && Consumed(m, group, i, j, st)
            && (pageFull || stopListing ==> st.Count() == limit && CleanCut(m, group, i, j))
            && (!pageFull && !stopListing ==> st.Count() < limit && j == j0 + |batch|)
            && (truncated ==> stopListing && j < |m|)
  {
    hide Lt, SortedByKey, Select, Beyond, GroupOf, ByDelimiter, TrimPrefix, Index, Ungrouped, Groups, CleanCut,
         Consumed;
    ghost var m := Select(rows, PrefixTest(input.prefix), []);
    ghost var group := ByDelimiter(input.prefix, input.delimiter);
    ghost var j0 := Beyond(m, before.afterKey);
    SelectSorted(rows, PrefixTest(input.prefix), []);
    SelectedKeysAreNonempty(rows, PrefixTest(input.prefix));
    ConsumedFacts(m, group, i, j0, before);
    st, pageFull, stopListing, truncated := before, false, false, false;
    for x := 0 to |batch|
      invariant j0 + x <= |m| && j0 + x == Beyond(m, st.afterKey) && Consumed(m, group, i, j0 + x, st)
      invariant st.Count() < limit
      invariant !pageFull && !stopListing && !truncated
    {
      var row := batch[x];
      assert row == m[j0 + x];
      var remainder := TrimPrefix(row.key, input.prefix);
      var idx := Index(remainder, input.delimiter);
      GroupByIndex(row.key, input.prefix, input.delimiter, remainder, idx);
      ConsumeRow(m, group, i, j0 + x, st);
      var emitCount := st.Count();
      if input.delimiter == [] || idx < 0 {
        if emitCount >= limit {
          pageFull := true;
          break;
        }
        st := st.(objects := st.objects + [row], next := row.key, afterKey := row.key);
        ConsumedFacts(m, group, i, j0 + x + 1, st);
        if st.Count() >= limit {
          pageFull := true;
          break;
        }
        continue;
      }

      var prefix := input.prefix + remainder[..idx] + input.delimiter;
      if prefix in st.seenPrefixes {
        st := st.(next := row.key, afterKey := row.key);
        ConsumedFacts(m, group, i, j0 + x + 1, st);
        continue;
      }
      if emitCount >= limit {
        pageFull := true;
        break;
      }
      st := st.(commonPrefixes := st.commonPrefixes + [prefix], seenPrefixes := st.seenPrefixes + {prefix},
                next := row.key, afterKey := row.key);
      ConsumedFacts(m, group, i, j0 + x + 1, st);
      if st.Count() >= limit {
        var lastKey, hasMore := AdvanceContinuationPastPrefix(rows, input, prefix, st.afterKey);
        ConsumeRestOfGroup(m, group, i, j0 + x + 1, Beyond(m, lastKey), prefix, lastKey, st);
        st := st.(next := lastKey, afterKey := lastKey);
        truncated := hasMore;
        stopListing := true;
        break;
      }
    }
  }

  /** ObjectStore.ListObjects: over-fetches, groups each batch, and probes for one more row at the end. */
  method ListObjects(rows: seq<Object>, input: ListObjectsInput) returns (result: ListObjectsResult)
    requires SortedByKey(rows)
    ensures IsPage(Select(rows, PrefixTest(input.prefix), []), ByDelimiter(input.prefix, input.delimiter),
                   input.afterKey, if input.limit < 0 then 1000 else input.limit, result)
  {
    hide Lt, SortedByKey, Select, Query, Beyond, ByDelimiter, Ungrouped, Groups, IsPage, CleanCut, Consumed;
    var limit := if input.limit < 0 then 1000 else input.limit;
    ghost var m := Select(rows, PrefixTest(input.prefix), []);
    ghost var group := ByDelimiter(input.prefix, input.delimiter);
    ghost var i := Beyond(m, input.afterKey);
    SelectedKeysAreNonempty(rows, PrefixTest(input.prefix));

    var st := ListState([], [], {}, [], input.afterKey);
    var truncated, stopListing, pageFull := false, false, false;
    NothingConsumed(m, group, input.afterKey);
    while st.Count() < limit
      invariant Consumed(m, group, i, Beyond(m, st.afterKey), st)
      invariant st.Count() <= limit
      invariant st.Count() == limit ==> CleanCut(m, group, i, Beyond(m, st.afterKey))
      invariant !stopListing && !pageFull && !truncated
      decreases |m| - Beyond(m, st.afterKey)
    {
      var remaining := limit - st.Count();
      var queryLimit := remaining * 4 + 1;
      if queryLimit < 2 {
        queryLimit := 2;
      }
      QueryIsWindow(rows, input.prefix, st.afterKey, queryLimit);
      var batch := Query(rows, input.prefix, st.afterKey, queryLimit);
      if |batch| == 0 {
        break;
      }
      st, pageFull, stopListing, truncated := GroupBatch(rows, input, limit, batch, st, i);
      if stopListing {
        break;
      }
      if pageFull {
        break;
      }
      if |batch| < queryLimit {
        break;
      }
    }

    ghost var j := Beyond(m, st.afterKey);
    ConsumedFacts(m, group, i, j, st);
    var isTruncated := false;
    if st.next != [] {
      if !truncated {
        QueryIsWindow(rows, input.prefix, st.next, 1);
        var more := Query(rows, input.prefix, st.next, 1);
        truncated := |more| > 0;
      }
      isTruncated := truncated;
    }
    PageDone(m, group, input.afterKey, limit, j, st, isTruncated);
    result := ListObjectsResult(st.objects, st.commonPrefixes, st.next, isTruncated);
  }

  // ----- Following the continuation until a page is not truncated -----

  /** Pages obtained by following NextContinuationAfter while IsTruncated. */
  predicate IsWalk(m: seq<Object>, group: GroupFunction, after: ByteString, limit: nat, pages: seq<ListObjectsResult>)
    decreases |pages|
  {
    && pages != []
    && IsPage(m, group, after, limit, pages[0])
    && (if pages[0].isTruncated then IsWalk(m, group, pages[0].nextContinuationAfter, limit, pages[1..])
        else |pages| == 1)
  }

  function AllObjects(pages: seq<ListObjectsResult>): seq<Object> {
    if pages == [] then [] else pages[0].objects + AllObjects(pages[1..])
  }

  function AllCommonPrefixes(pages: seq<ListObjectsResult>): seq<ByteString> {
    if pages == [] then [] else pages[0].commonPrefixes + AllCommonPrefixes(pages[1..])
  }

  /** A page never splits a group, so what follows it shares no group with it. */
  lemma PagesShareNoGroup(m: seq<Object>, group: GroupFunction, i: int, j: int)
    requires SortedByKey(m) && PrefixGroups(m, group)
    requires 0 <= i <= j <= |m| && CleanCut(m, group, i, j)
    ensures forall g :: !(HasGroup(m[i..j], group, g) && HasGroup(m[j..], group, g))
  {
    hide Lt, SortedByKey, PrefixGroups;
    forall g | HasGroup(m[i..j], group, g) && HasGroup(m[j..], group, g)
      ensures false
    {
      var a :| 0 <= a < j - i && group(m[i..j][a].key) == Some(g);
      var c :| 0 <= c < |m| - j && group(m[j..][c].key) == Some(g);
      assert m[i..j][a] == m[i + a] && m[j..][c] == m[j + c];
      GroupContiguous(m, group, i + a, j - 1, j + c);
      GroupContiguous(m, group, i + a, j, j + c);
    }
  }

  /** A page of a walk is the last one only when every matching row has been consumed. */
  lemma LastPage(m: seq<Object>, group: GroupFunction, after: ByteString, limit: nat, r: ListObjectsResult)
    requires limit >= 1 && IsPage(m, group, after, limit, r) && !r.isTruncated
    ensures PageEnd(m, after, r) == |m|
  {
    hide Beyond;
    NothingConsumed(m, group, after);
  }

  lemma PageFacts(m: seq<Object>, group: GroupFunction, after: ByteString, limit: nat, r: ListObjectsResult)
    requires IsPage(m, group, after, limit, r)
    ensures var i, j := Beyond(m, after), PageEnd(m, after, r);
            && i <= j <= |m|
            && r.objects == Ungrouped(m[i..j], group)
            && r.commonPrefixes == Groups(m[i..j], group)
            && CleanCut(m, group, i, j)
            && (r.isTruncated ==> i < j < |m| && r.nextContinuationAfter == m[j - 1].key)
  {
    hide Beyond, Ungrouped, Groups;
  }

  lemma {:induction false} WalkFrom(m: seq<Object>, group: GroupFunction, after: ByteString, limit: nat,
                                    pages: seq<ListObjectsResult>)
    requires SortedByKey(m) && PrefixGroups(m, group)
    requires limit >= 1 && IsWalk(m, group, after, limit, pages)
    ensures AllObjects(pages) == Ungrouped(m[Beyond(m, after)..], group)
    ensures AllCommonPrefixes(pages) == Groups(m[Beyond(m, after)..], group)
    ensures |pages| <= 1 || |pages| <= |m| - Beyond(m, after)
    decreases |pages|
  {
    hide Lt, SortedByKey, PrefixGroups, Ungrouped, Groups, Beyond, IsPage, PageEnd, CleanCut;
    var i, j := Beyond(m, after), PageEnd(m, after, pages[0]);
    PageFacts(m, group, after, limit, pages[0]);
    if pages[0].isTruncated {
      WalkFrom(m, group, pages[0].nextContinuationAfter, limit, pages[1..]);
      BeyondRow(m, j - 1);
      PagesShareNoGroup(m, group, i, j);
      Concat(m[i..j], m[j..], group);
      assert m[i..j] + m[j..] == m[i..];
    } else {
      LastPage(m, group, after, limit, pages[0]);
      assert pages[1..] == [];
      assert m[i..j] == m[i..];
    }
  }

  /** A client listing page after page, from where its input says on: it always comes to an end. */
  method Walk(rows: seq<Object>, input: ListObjectsInput) returns (pages: seq<ListObjectsResult>)
    requires SortedByKey(rows) && input.limit >= 1
    ensures IsWalk(Select(rows, PrefixTest(input.prefix), []), ByDelimiter(input.prefix, input.delimiter),
                   input.afterKey, input.limit, pages)
    decreases var m := Select(rows, PrefixTest(input.prefix), []); |m| - Beyond(m, input.afterKey)
  {
    hide Lt, SortedByKey, Select, Beyond, PrefixTest, ByDelimiter, IsPage, PageEnd, CleanCut;
    ghost var m := Select(rows, PrefixTest(input.prefix), []);
    ghost var group := ByDelimiter(input.prefix, input.delimiter);
    var page := ListObjects(rows, input);
    PageFacts(m, group, input.afterKey, input.limit, page);
    pages := [page];
    if page.isTruncated {
      SelectSorted(rows, PrefixTest(input.prefix), []);
      BeyondRow(m, PageEnd(m, input.afterKey, page) - 1);
      var rest := Walk(rows, input.(afterKey := page.nextContinuationAfter));
      pages := pages + rest;
      assert pages[1..] == rest;
    }
  }

  function ExactTest(prefix: ByteString): ByteString -> bool {
    (key: ByteString) => prefix <= key
  }

  lemma {:induction false} SelectSameTest(rows: seq<Object>, t: ByteString -> bool, u: ByteString -> bool)
    requires forall o :: o in rows ==> t(o.key) == u(o.key)
    ensures Select(rows, t, []) == Select(rows, u, [])
  {
    if rows != [] {
      SelectSameTest(rows[1..], t, u);
    }
  }

  /** The one-pass grouping of the rows under a prefix, spelled out. */
  lemma OnePassMeaning(rows: seq<Object>, prefix: ByteString, delimiter: ByteString)
    requires SortedByKey(rows)
    ensures var m := Select(rows, ExactTest(prefix), []);
            var group := ByDelimiter(prefix, delimiter);
            var us, ps := Ungrouped(m, group), Groups(m, group);
            && SortedByKey(m) && PrefixGroups(m, group)
            && SortedByKey(us)
            && (forall o :: o in us <==>
                 o in rows && prefix <= o.key && o.key != [] && GroupOf(o.key, prefix, delimiter).None?)
            && (forall i, j :: 0 <= i < j < |ps| ==> Lt(ps[i], ps[j]))
            && (forall p :: p in ps <==> SomeRowInGroup(rows, prefix, delimiter, p))
  {
    hide Lt, SortedByKey, GroupOf, Ungrouped, Groups, PrefixGroups;
    var m := Select(rows, ExactTest(prefix), []);
    var group := ByDelimiter(prefix, delimiter);
    SelectSorted(rows, ExactTest(prefix), []);
    SelectMembers(rows, ExactTest(prefix), []);
    forall o: Object ensures Lt([], o.key) <==> o.key != [] {
      LtEmpty(o.key);
    }
    assert forall i :: 0 <= i < |m| ==> m[i] in m;
    DelimiterGroupsArePrefixGroups(m, prefix, delimiter);
    UngroupedAreTheRest(m, group);
    GroupsAreTheGroups(m, group);
    GroupsAscend(m, group);
    forall p ensures HasGroup(m, group, p) <==> SomeRowInGroup(rows, prefix, delimiter, p) {
      if HasGroup(m, group, p) {
        var i :| 0 <= i < |m| && group(m[i].key) == Some(p);
        assert m[i] in m;
      }
      if SomeRowInGroup(rows, prefix, delimiter, p) {
        var o :| o in rows && prefix <= o.key && GroupOf(o.key, prefix, delimiter) == Some(p);
        GroupNeedsBytes(o.key, prefix, delimiter);
        assert o in m;
        var i :| 0 <= i < |m| && m[i] == o;
        assert group(m[i].key) == Some(p);
      }
    }
  }

  ghost predicate SomeRowInGroup(rows: seq<Object>, prefix: ByteString, delimiter: ByteString, p: ByteString) {
    exists o :: o in rows && prefix <= o.key && GroupOf(o.key, prefix, delimiter) == Some(p)
  }

  /** Without case variants the query's rows are the rows under the prefix. */
  lemma SelectWithoutVariants(rows: seq<Object>, prefix: ByteString)
    requires NoCaseVariants(rows, prefix)
    ensures Select(rows, PrefixTest(prefix), []) == Select(rows, ExactTest(prefix), [])
  {
    forall o | o in rows ensures PrefixTest(prefix)(o.key) == ExactTest(prefix)(o.key) {
      SqlPrefixMeaning(prefix, o.key);
    }
    SelectSameTest(rows, PrefixTest(prefix), ExactTest(prefix));
  }

  /** For every table without case variants of the prefix, every delimiter and every page size of at least 1,
      the pages of a walk concatenate to the one-pass grouping of the keys under the prefix:
      each ungrouped object once, ascending; each common prefix once, ascending. A walk ends after at most one
      page per matching row. */
  lemma WalkIsOnePass(rows: seq<Object>, prefix: ByteString, delimiter: ByteString, limit: nat,
                      pages: seq<ListObjectsResult>)
    requires SortedByKey(rows) && NoCaseVariants(rows, prefix)
    requires limit >= 1
    requires IsWalk(Select(rows, PrefixTest(prefix), []), ByDelimiter(prefix, delimiter), [], limit, pages)
    ensures var m := Select(rows, ExactTest(prefix), []);
            var group := ByDelimiter(prefix, delimiter);
            && AllObjects(pages) == Ungrouped(m, group)
            && AllCommonPrefixes(pages) == Groups(m, group)
            && (|pages| <= 1 || |pages| <= |m|)
    ensures SortedByKey(AllObjects(pages))
    ensures forall o :: o in AllObjects(pages) <==>
              o in rows && prefix <= o.key && o.key != [] && GroupOf(o.key, prefix, delimiter).None?
    ensures var ps := AllCommonPrefixes(pages); forall i, j :: 0 <= i < j < |ps| ==> Lt(ps[i], ps[j])
    ensures forall p :: p in AllCommonPrefixes(pages) <==> SomeRowInGroup(rows, prefix, delimiter, p)
  {
    hide Lt, SortedByKey, GroupOf, Ungrouped, Groups, PrefixGroups, IsWalk, SomeRowInGroup, AllObjects,
         AllCommonPrefixes;
    SelectWithoutVariants(rows, prefix);
    OnePassMeaning(rows, prefix, delimiter);
    var m := Select(rows, ExactTest(prefix), []);
    WalkFrom(m, ByDelimiter(prefix, delimiter), [], limit, pages);
    SelectMembers(rows, ExactTest(prefix), []);
    if m != [] {
      assert m[0] in m;
    }
    assert m[Beyond(m, [])..] == m;
  }

  /** Listing page after page from the start yields the one-pass grouping of the rows under the prefix. */
  method ListAll(rows: seq<Object>, prefix: ByteString, delimiter: ByteString, limit: nat)
    returns (objects: seq<Object>, commonPrefixes: seq<ByteString>)
    requires SortedByKey(rows) && NoCaseVariants(rows, prefix) && limit >= 1
    ensures var m := Select(rows, ExactTest(prefix), []);
            && objects == Ungrouped(m, ByDelimiter(prefix, delimiter))
            && commonPrefixes == Groups(m, ByDelimiter(prefix, delimiter))
  {
    hide Lt, SortedByKey, NoCaseVariants, Select, Beyond, PrefixTest, ExactTest, ByDelimiter, IsWalk, Ungrouped, Groups,
         AllObjects, AllCommonPrefixes, SomeRowInGroup;
    var pages := Walk(rows, ListObjectsInput(prefix, delimiter, [], limit));
    WalkIsOnePass(rows, prefix, delimiter, limit, pages);
    objects, commonPrefixes := AllObjects(pages), AllCommonPrefixes(pages);
  }

  lemma GroupNeedsBytes(key: ByteString, prefix: ByteString, delimiter: ByteString)
    requires prefix <= key && GroupOf(key, prefix, delimiter).Some?
    ensures key != []
  {
    var i := Index(key[|prefix|..], delimiter);
    GroupIsAPrefix(key, prefix, delimiter, i, i + |delimiter|);
  }

  /** SQLite's LIKE takes "A" for a key under the prefix "a", so a bucket that holds both cases lists both. */
  lemma CaseVariantExample(o: Object)
    requires o.key == Ascii("A")
    ensures !NoCaseVariants([o], Ascii("a"))
    ensures Select([o], PrefixTest(Ascii("a")), []) == [o]
  {
    SqlPrefixMeaning(Ascii("a"), o.key);
    assert CaseVariant(Ascii("a"), o.key);
  }
}
