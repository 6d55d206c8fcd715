/** The other direct-children listings: WebDAV's collectionChildren and the command line's lsd and ls. */
module Children {
  import opened ByteStrings
  import opened Metadata
  import opened Scan
  import opened Grouping
  import opened Listing
  import opened Sorting

  datatype Child = Dir(name: ByteString, modTime: int) | File(name: ByteString, info: Object)

  function Slashed(prefix: ByteString): GroupFunction {
    ByDelimiter(prefix, [SLASH])
  }

  // ----- Walking all rows under a prefix -----

  lemma StartOfWalk(rows: seq<Object>, prefix: ByteString)
    requires SortedByKey(rows)
    ensures var m := Select(rows, PrefixTest(prefix), []);
            Beyond(m, []) == 0 && SortedByKey(m) && forall i :: 0 <= i < |m| ==> m[i].key != []
  {
    hide Lt, PrefixTest;
    var m := Select(rows, PrefixTest(prefix), []);
    SelectSorted(rows, PrefixTest(prefix), []);
    SelectedKeysAreNonempty(rows, PrefixTest(prefix));
    if m != [] {
      LtEmpty(m[0].key);
    }
  }

  /** SQLiteStore.ListAllObjects */
  method ListAllObjects(rows: seq<Object>, prefix: ByteString) returns (all: seq<Object>)
    requires SortedByKey(rows)
    ensures all == Select(rows, PrefixTest(prefix), [])
  {
    hide Lt, SortedByKey, Select, Query, Beyond, PrefixTest;
    ghost var m := Select(rows, PrefixTest(prefix), []);
    StartOfWalk(rows, prefix);
    all := [];
    var afterKey: ByteString := [];
    while true
      invariant |all| <= |m| && all == m[..|all|] && Beyond(m, afterKey) == |all|
      decreases |m| - |all|
    {
      QueryIsWindow(rows, prefix, afterKey, 1000);
      var objects := Query(rows, prefix, afterKey, 1000);
      if |objects| == 0 {
        return;
      }
      all := all + objects;
      afterKey := objects[|objects| - 1].key;
      BeyondRow(m, |all| - 1);
    }
  }

  // ----- WebDAV -----

  /** The children one by one, before they are sorted. */
  function ChildrenOf(m: seq<Object>, prefix: ByteString): seq<Child> {
    if m == [] then []
    else
      var init := ChildrenOf(m[..|m| - 1], prefix);
      var o := m[|m| - 1];
      var remainder := TrimPrefix(o.key, prefix);
      var idx := Index(remainder, [SLASH]);
      if remainder == [] then init
      else if idx < 0 then init + [File(remainder, o)]
      else if HasDir(init, remainder[..idx + 1]) then init
      else init + [Dir(remainder[..idx + 1], o.lastModified)]
  }

  predicate HasDir(children: seq<Child>, name: ByteString) {
    exists i :: 0 <= i < |children| && children[i].Dir? && children[i].name == name
  }

  predicate ByName(a: Child, b: Child) {
    Lt(a.name, b.name)
  }

  lemma ByNameIsAnOrder()
    ensures IsOrder(ByName)
  {
    hide Lt;
    forall a, b ensures ByName(a, b) ==> !ByName(b, a) {
      if ByName(a, b) && ByName(b, a) {
        LtTransitive(a.name, b.name, a.name);
        LtIrreflexive(a.name);
      }
    }
    forall a, b, c ensures !ByName(b, a) && !ByName(c, b) ==> !ByName(c, a) {
      LtTotal(a.name, b.name);
      LtTotal(b.name, c.name);
      if ByName(a, b) && ByName(b, c) {
        LtTransitive(a.name, b.name, c.name);
        if ByName(c, a) {
          LtTransitive(a.name, c.name, a.name);
          LtIrreflexive(a.name);
        }
      }
    }
  }

  lemma ChildOneMore(m: seq<Object>, i: nat, prefix: ByteString)
    requires i < |m|
    ensures var init := ChildrenOf(m[..i], prefix);
            var remainder := TrimPrefix(m[i].key, prefix);
            var idx := Index(remainder, [SLASH]);
            && idx + 1 <= |remainder|
            && ChildrenOf(m[..i + 1], prefix)
               == (if remainder == [] then init
                   else if idx < 0 then init + [File(remainder, m[i])]
                   else if HasDir(init, remainder[..idx + 1]) then init
                   else init + [Dir(remainder[..idx + 1], m[i].lastModified)])
  {
    assert m[..i + 1][..i] == m[..i];
    var remainder := TrimPrefix(m[i].key, prefix);
    var idx := Index(remainder, [SLASH]);
    assert idx >= 0 ==> OccursAt(remainder, [SLASH], idx);
  }

  lemma DirOneMore(children: seq<Child>, c: Child)
    ensures forall name :: HasDir(children + [c], name) <==> HasDir(children, name) || (c.Dir? && c.name == name)
  {
    var all := children + [c];
    forall name ensures HasDir(all, name) <==> HasDir(children, name) || (c.Dir? && c.name == name) {
      if HasDir(children, name) {
        var i :| 0 <= i < |children| && children[i].Dir? && children[i].name == name;
        assert all[i] == children[i];
      }
      if c.Dir? && c.name == name {
        assert all[|children|] == c;
      }
      if HasDir(all, name) {
        var i :| 0 <= i < |all| && all[i].Dir? && all[i].name == name;
        assert i < |children| ==> children[i] == all[i];
      }
    }
  }

  /** FileSystem.collectionChildren */
  method CollectionChildren(rows: seq<Object>, prefix: ByteString) returns (children: seq<Child>)
    requires SortedByKey(rows)
    ensures multiset(children) == multiset(ChildrenOf(Select(rows, PrefixTest(prefix), []), prefix))
    ensures IsSorted(children, ByName)
  {
    hide Lt, SortedByKey, Select, PrefixTest, ChildrenOf, HasDir, Index, TrimPrefix, ByName;
    var objects := ListAllObjects(rows, prefix);
    var seen: set<ByteString> := {};
    children := [];
    NoChildren(prefix);
    for i := 0 to |objects|
      invariant children == ChildrenOf(objects[..i], prefix)
      invariant forall name :: name in seen <==> HasDir(children, name)
    {
      var o := objects[i];
      var remainder := TrimPrefix(o.key, prefix);
      ChildOneMore(objects, i, prefix);
      if remainder == [] {
        continue;
      }
      var idx := Index(remainder, [SLASH]);
      if idx >= 0 {
        var name := remainder[..idx + 1];
        if name in seen {
          continue;
        }
        seen := seen + {name};
        DirOneMore(children, Dir(name, o.lastModified));
        children := children + [Dir(name, o.lastModified)];
        continue;
      }
      DirOneMore(children, File(remainder, o));
      children := children + [File(remainder, o)];
    }
    assert objects[..|objects|] == objects;
    ByNameIsAnOrder();
    children := Sort(children, ByName);
  }

  lemma NoChildren(prefix: ByteString)
    ensures ChildrenOf([], prefix) == [] && forall name :: !HasDir([], name)
  {
  }

  // ----- The command line -----

  /** Common prefixes but for the one with an empty segment. */
  function WithSegment(ps: seq<ByteString>, prefix: ByteString): seq<ByteString> {
    if ps == [] then []
    else
      var init := WithSegment(ps[..|ps| - 1], prefix);
      if ps[|ps| - 1] == prefix + [SLASH] then init else init + [ps[|ps| - 1]]
  }

  /** What lsd has printed and remembered after the first `j` matching rows. */
  ghost predicate PrintedUpTo(m: seq<Object>, prefix: ByteString, j: nat, printed: seq<ByteString>,
                              seen: set<ByteString>)
    requires j <= |m|
  {
    && printed == WithSegment(Groups(m[..j], Slashed(prefix)), prefix)
    && forall p :: p in seen <==> p in printed
  }

  lemma {:induction false} SegmentsKept(ps: seq<ByteString>, prefix: ByteString)
    ensures forall p :: p in WithSegment(ps, prefix) <==> p in ps && p != prefix + [SLASH]
  {
    if ps != [] {
      SegmentsKept(ps[..|ps| - 1], prefix);
      assert ps == ps[..|ps| - 1] + [ps[|ps| - 1]];
    }
  }

  ghost predicate Ascend(ps: seq<ByteString>) {
    forall i, j :: 0 <= i < j < |ps| ==> Lt(ps[i], ps[j])
  }

  /** What is left keeps its order. */
  lemma {:induction false} SegmentsAscend(ps: seq<ByteString>, prefix: ByteString)
    requires Ascend(ps)
    ensures Ascend(WithSegment(ps, prefix))
  {
    if ps != [] {
      var n := |ps| - 1;
      SegmentsAscend(ps[..n], prefix);
      SegmentsKept(ps[..n], prefix);
      var init := WithSegment(ps[..n], prefix);
      forall x | 0 <= x < |init| ensures Lt(init[x], ps[n]) {
        assert init[x] in init;
        var i :| 0 <= i < n && ps[..n][i] == init[x];
        assert ps[i] == init[x];
      }
    }
  }

  /** A row adds its group, unless the group is listed already or has an empty segment. */
  lemma PrintOneMore(m: seq<Object>, j: nat, prefix: ByteString, printed: seq<ByteString>, seen: set<ByteString>,
                     idx: int)
    requires j < |m| && PrintedUpTo(m, prefix, j, printed, seen)
    requires idx == Index(TrimPrefix(m[j].key, prefix), [SLASH])
    ensures idx + 1 <= |TrimPrefix(m[j].key, prefix)|
    ensures idx <= 0 ==> PrintedUpTo(m, prefix, j + 1, printed, seen)
    ensures idx > 0 ==>
      var g := prefix + TrimPrefix(m[j].key, prefix)[..idx] + [SLASH];
      if g in seen then PrintedUpTo(m, prefix, j + 1, printed, seen)
      else PrintedUpTo(m, prefix, j + 1, printed + [g], seen + {g})
  {
    hide Index, TrimPrefix, Groups, Lt;
    var remainder := TrimPrefix(m[j].key, prefix);
    assert idx >= 0 ==> OccursAt(remainder, [SLASH], idx);
    GroupByIndex(m[j].key, prefix, [SLASH], remainder, idx);
    Snoc(m, 0, j, Slashed(prefix));
    assert m[0..j] == m[..j] && m[0..j + 1] == m[..j + 1];
    var gs := Groups(m[..j], Slashed(prefix));
    SegmentsKept(gs, prefix);
    if idx == 0 {
      assert prefix + remainder[..0] + [SLASH] == prefix + [SLASH];
    }
    if idx > 0 {
      var g := prefix + remainder[..idx] + [SLASH];
      assert |g| > |prefix + [SLASH]|;
      assert (gs + [g])[..|gs|] == gs;
    }
    assert idx == 0 ==> (gs + [prefix + [SLASH]])[..|gs|] == gs;
  }

  /** writeCommonPrefixes, for any page size. */
  method WriteCommonPrefixes(rows: seq<Object>, prefix: ByteString, pageSize: nat) returns (printed: seq<ByteString>)
    requires SortedByKey(rows) && pageSize > 0
    ensures printed == WithSegment(Groups(Select(rows, PrefixTest(prefix), []), Slashed(prefix)), prefix)
  {
    hide Lt, SortedByKey, Select, Query, Beyond, PrefixTest, Groups, Index, TrimPrefix, PrintedUpTo, WithSegment;
    ghost var m := Select(rows, PrefixTest(prefix), []);
    StartOfWalk(rows, prefix);
    var afterKey: ByteString := [];
    var seen: set<ByteString> := {};
    printed := [];
    ghost var j := 0;
    NothingPrinted(m, prefix);
    while true
      invariant 0 <= j <= |m| && Beyond(m, afterKey) == j && PrintedUpTo(m, prefix, j, printed, seen)
      decreases |m| - j
    {
      QueryIsWindow(rows, prefix, afterKey, pageSize);
      var objects := Query(rows, prefix, afterKey, pageSize);
      ghost var j0 := j;
      if |objects| == 0 {
        AllPrinted(m, prefix, j, printed, seen);
        return;
      }
      for x := 0 to |objects|
        invariant j == j0 + x && Beyond(m, afterKey) == j && PrintedUpTo(m, prefix, j, printed, seen)
      {
        var o := objects[x];
        assert o == m[j];
        afterKey := o.key;
        BeyondRow(m, j);
        var remainder := TrimPrefix(o.key, prefix);
        var idx := Index(remainder, [SLASH]);
        PrintOneMore(m, j, prefix, printed, seen, idx);
        j := j + 1;
        if idx < 0 || remainder[..idx] == [] {
          continue;
        }
        var commonPrefix := prefix + remainder[..idx] + [SLASH];
        if commonPrefix in seen {
          continue;
        }
        seen := seen + {commonPrefix};
        printed := printed + [commonPrefix];
      }
      if |objects| < pageSize {
        AllPrinted(m, prefix, j, printed, seen);
        return;
      }
    }
  }

  lemma NothingPrinted(m: seq<Object>, prefix: ByteString)
    ensures PrintedUpTo(m, prefix, 0, [], {})
  {
    assert m[..0] == [];
  }

  lemma AllPrinted(m: seq<Object>, prefix: ByteString, j: nat, printed: seq<ByteString>, seen: set<ByteString>)
    requires j == |m| && PrintedUpTo(m, prefix, j, printed, seen)
    ensures printed == WithSegment(Groups(m, Slashed(prefix)), prefix)
  {
    assert m[..j] == m;
  }

  function KeysOf(m: seq<Object>): (ks: seq<ByteString>)
    ensures |ks| == |m|
  {
    seq(|m|, i requires 0 <= i < |m| => m[i].key)
  }

  /** writeObjectKeys: the keys under a prefix in order, cut at a positive limit. */
  method WriteObjectKeys(rows: seq<Object>, prefix: ByteString, limit: int, pageSize: nat)
    returns (printed: seq<ByteString>)
    requires SortedByKey(rows) && pageSize > 0
    ensures var m := Select(rows, PrefixTest(prefix), []);
            && |printed| == (if 0 < limit < |m| then limit else |m|)
            && forall i :: 0 <= i < |printed| ==> printed[i] == m[i].key
  {
    hide Lt, SortedByKey, Select, Query, Beyond, PrefixTest;
    ghost var m := Select(rows, PrefixTest(prefix), []);
    StartOfWalk(rows, prefix);
    var afterKey: ByteString := [];
    var written := 0;
    printed := [];
    while true
      invariant 0 <= written <= |m| && written == |printed| && printed == KeysOf(m)[..written]
      invariant Beyond(m, afterKey) == written && (limit > 0 ==> written <= limit)
      decreases |m| - written
    {
      var pageLimit := pageSize;
      if limit > 0 {
        var remaining := limit - written;
        if remaining <= 0 {
          return;
        }
        if remaining < pageLimit {
          pageLimit := remaining;
        }
      }
      QueryIsWindow(rows, prefix, afterKey, pageLimit);
      var objects := Query(rows, prefix, afterKey, pageLimit);
      if |objects| == 0 {
        return;
      }
      ghost var start := written;
      for x := 0 to |objects|
        invariant written == start + x == |printed| && written <= |m| && printed == KeysOf(m)[..written]
        invariant Beyond(m, afterKey) == written && (limit > 0 ==> written < limit || x == |objects|)
      {
        assert objects[x] == m[written];
        BeyondRow(m, written);
        printed := printed + [objects[x].key];
        written := written + 1;
        afterKey := objects[x].key;
        if limit > 0 && written >= limit {
          return;
        }
      }
      if |objects| < pageLimit {
        return;
      }
    }
  }

  // ----- Agreement with the S3 listing -----

  function Stripped(ps: seq<ByteString>, prefix: ByteString): (names: seq<ByteString>)
    ensures |names| == |ps|
  {
    seq(|ps|, i requires 0 <= i < |ps| => TrimPrefix(ps[i], prefix))
  }

  function DirNames(children: seq<Child>): seq<ByteString> {
    if children == [] then []
    else
      var c := children[|children| - 1];
      DirNames(children[..|children| - 1]) + (if c.Dir? then [c.name] else [])
  }

  /** The file children of the objects outside every group; the marker of the collection itself is none of them. */
  function FilesOf(us: seq<Object>, prefix: ByteString): seq<Child> {
    if us == [] then []
    else
      var o := us[|us| - 1];
      FilesOf(us[..|us| - 1], prefix) + (if o.key == prefix then [] else [File(TrimPrefix(o.key, prefix), o)])
  }

  function OnlyFiles(children: seq<Child>): seq<Child> {
    if children == [] then []
    else
      var c := children[|children| - 1];
      OnlyFiles(children[..|children| - 1]) + (if c.File? then [c] else [])
  }

  lemma ChildSnoc(children: seq<Child>, c: Child)
    ensures DirNames(children + [c]) == DirNames(children) + (if c.Dir? then [c.name] else [])
    ensures OnlyFiles(children + [c]) == OnlyFiles(children) + (if c.File? then [c] else [])
  {
    assert (children + [c])[..|children|] == children;
  }

  lemma {:induction false} HasDirName(children: seq<Child>)
    ensures forall name :: HasDir(children, name) <==> name in DirNames(children)
  {
    if children != [] {
      var init, c := children[..|children| - 1], children[|children| - 1];
      HasDirName(init);
      DirOneMore(init, c);
      assert children == init + [c];
    }
  }

  lemma StrippedGroup(g: ByteString, prefix: ByteString, name: ByteString)
    requires g == prefix + name
    ensures TrimPrefix(g, prefix) == name
  {
  }

  lemma InStripped(ps: seq<ByteString>, prefix: ByteString, name: ByteString)
    requires forall i :: 0 <= i < |ps| ==> prefix <= ps[i]
    ensures name in Stripped(ps, prefix) <==> prefix + name in ps
  {
    var names := Stripped(ps, prefix);
    if name in names {
      var i :| 0 <= i < |names| && names[i] == name;
      assert ps[i] == prefix + name;
    }
    if prefix + name in ps {
      var i :| 0 <= i < |ps| && ps[i] == prefix + name;
      StrippedGroup(ps[i], prefix, name);
      assert names[i] == name;
    }
  }

  /** One row goes the same way in both listings. */
  lemma RowAgrees(key: ByteString, prefix: ByteString, remainder: ByteString, idx: int)
    requires key != [] && remainder == TrimPrefix(key, prefix) && idx == Index(remainder, [SLASH])
    ensures idx + 1 <= |remainder|
    ensures Slashed(prefix)(key) == if idx < 0 then None else Some(prefix + remainder[..idx + 1])
    ensures remainder == [] <==> key == prefix
    ensures remainder == [] ==> idx < 0
  {
    hide Index;
    assert idx >= 0 ==> OccursAt(remainder, [SLASH], idx);
    GroupByIndex(key, prefix, [SLASH], remainder, idx);
    if idx >= 0 {
      assert remainder[idx..idx + 1] == [SLASH];
      assert remainder[..idx + 1] == remainder[..idx] + [SLASH];
      assert prefix + remainder[..idx] + [SLASH] == prefix + (remainder[..idx] + [SLASH]);
    }
  }

  /** Grouping and children, row by row: the directories are the groups with the prefix stripped, the files are the
      ungrouped objects without the marker. */
  lemma {:induction false} ChildrenAreGroups(m: seq<Object>, prefix: ByteString)
    requires forall i :: 0 <= i < |m| ==> m[i].key != []
    ensures var gs := Groups(m, Slashed(prefix));
            && DirNames(ChildrenOf(m, prefix)) == Stripped(gs, prefix)
            && (forall i :: 0 <= i < |gs| ==> prefix <= gs[i])
    ensures OnlyFiles(ChildrenOf(m, prefix)) == FilesOf(Ungrouped(m, Slashed(prefix)), prefix)
  {
    hide ChildrenOf, DirNames, OnlyFiles, FilesOf, Groups, Ungrouped, Slashed, Stripped;
    if m == [] {
      NothingAgrees(prefix);
    } else {
      var n := |m| - 1;
      ChildrenAreGroups(m[..n], prefix);
      ChildAgrees(m[..n], m[n], prefix);
      assert m == m[..n] + [m[n]];
    }
  }

  lemma NothingAgrees(prefix: ByteString)
    ensures ChildrenOf([], prefix) == [] && DirNames([]) == [] && OnlyFiles([]) == []
    ensures Groups([], Slashed(prefix)) == [] && Ungrouped([], Slashed(prefix)) == []
    ensures Stripped([], prefix) == [] && FilesOf([], prefix) == []
  {
  }

  lemma ChildAgrees(m: seq<Object>, o: Object, prefix: ByteString)
    requires o.key != []
    requires var gs := Groups(m, Slashed(prefix));
             && DirNames(ChildrenOf(m, prefix)) == Stripped(gs, prefix)
             && (forall i :: 0 <= i < |gs| ==> prefix <= gs[i])
    requires OnlyFiles(ChildrenOf(m, prefix)) == FilesOf(Ungrouped(m, Slashed(prefix)), prefix)
    ensures var gs := Groups(m + [o], Slashed(prefix));
            && DirNames(ChildrenOf(m + [o], prefix)) == Stripped(gs, prefix)
            && (forall i :: 0 <= i < |gs| ==> prefix <= gs[i])
    ensures OnlyFiles(ChildrenOf(m + [o], prefix)) == FilesOf(Ungrouped(m + [o], Slashed(prefix)), prefix)
  {
    hide ChildrenOf, DirNames, OnlyFiles, FilesOf, Groups, Ungrouped, HasDir, Index, TrimPrefix, Slashed, Stripped;
    var all, group := m + [o], Slashed(prefix);
    var children, gs, us := ChildrenOf(m, prefix), Groups(m, group), Ungrouped(m, group);
    var remainder := TrimPrefix(o.key, prefix);
    var idx := Index(remainder, [SLASH]);
    assert all[..|m|] == m && all[..|m| + 1] == all && all[0..|m|] == m && all[0..|m| + 1] == all && all[|m|] == o;
    ChildOneMore(all, |m|, prefix);
    Snoc(all, 0, |m|, group);
    RowAgrees(o.key, prefix, remainder, idx);
    if idx >= 0 {
      var name := remainder[..idx + 1];
      HasDirName(children);
      InStripped(gs, prefix, name);
      ChildSnoc(children, Dir(name, o.lastModified));
      StrippedSnoc(gs, prefix, name);
    } else {
      ChildSnoc(children, File(remainder, o));
      FilesSnoc(us, o, prefix);
    }
  }

  /** A directory bears the time of the first row in it. */
  ghost predicate TimedByFirst(m: seq<Object>, prefix: ByteString, c: Child) {
    c.Dir? ==> exists i ::
      && 0 <= i < |m| && c.modTime == m[i].lastModified
      && Slashed(prefix)(m[i].key) == Some(prefix + c.name)
      && forall j :: 0 <= j < i ==> Slashed(prefix)(m[j].key) != Some(prefix + c.name)
  }

  lemma {:induction false} DirectoryTimes(m: seq<Object>, prefix: ByteString)
    requires forall i :: 0 <= i < |m| ==> m[i].key != []
    ensures forall c :: c in ChildrenOf(m, prefix) ==> TimedByFirst(m, prefix, c)
  {
    if m != [] {
      var n := |m| - 1;
      DirectoryTimes(m[..n], prefix);
      ChildOneMore(m, n, prefix);
      assert m[..n + 1] == m;
      var remainder := TrimPrefix(m[n].key, prefix);
      RowAgrees(m[n].key, prefix, remainder, Index(remainder, [SLASH]));
      hide ChildrenOf, Slashed, Index, TrimPrefix;
      var before, after := ChildrenOf(m[..n], prefix), ChildrenOf(m, prefix);
      forall c | c in before ensures TimedByFirst(m, prefix, c) {
        TimedAmongMore(m, n, prefix, c);
      }
      forall c | c in after && c !in before ensures TimedByFirst(m, prefix, c) {
        NewDirectory(m, prefix, c);
      }
    }
  }

  lemma TimedAmongMore(m: seq<Object>, n: nat, prefix: ByteString, c: Child)
    requires n <= |m| && TimedByFirst(m[..n], prefix, c)
    ensures TimedByFirst(m, prefix, c)
  {
    hide Slashed;
    if c.Dir? {
      var i :| && 0 <= i < n && c.modTime == m[..n][i].lastModified
               && Slashed(prefix)(m[..n][i].key) == Some(prefix + c.name)
               && forall j :: 0 <= j < i ==> Slashed(prefix)(m[..n][j].key) != Some(prefix + c.name);
      forall j | 0 <= j < i ensures Slashed(prefix)(m[j].key) != Some(prefix + c.name) {
        assert m[..n][j] == m[j];
      }
      assert m[..n][i] == m[i];
    }
  }

  /** A directory is new when no earlier row is in its group. */
  lemma NewDirectory(m: seq<Object>, prefix: ByteString, c: Child)
    requires m != [] && forall i :: 0 <= i < |m| ==> m[i].key != []
    requires c in ChildrenOf(m, prefix) && c !in ChildrenOf(m[..|m| - 1], prefix)
    ensures TimedByFirst(m, prefix, c)
  {
    hide ChildrenOf, Slashed, HasDir;
    if c.Dir? {
      var n := |m| - 1;
      AddedDirectory(m, prefix, c);
      NoEarlierRow(m[..n], prefix, c.name);
      assert forall j :: 0 <= j < n ==> m[..n][j] == m[j];
    }
  }

  lemma AddedDirectory(m: seq<Object>, prefix: ByteString, c: Child)
    requires m != [] && m[|m| - 1].key != [] && c.Dir?
    requires c in ChildrenOf(m, prefix) && c !in ChildrenOf(m[..|m| - 1], prefix)
    ensures c.modTime == m[|m| - 1].lastModified && Slashed(prefix)(m[|m| - 1].key) == Some(prefix + c.name)
    ensures !HasDir(ChildrenOf(m[..|m| - 1], prefix), c.name)
  {
    var n := |m| - 1;
    ChildOneMore(m, n, prefix);
    assert m[..n + 1] == m;
    var remainder := TrimPrefix(m[n].key, prefix);
    RowAgrees(m[n].key, prefix, remainder, Index(remainder, [SLASH]));
    hide ChildrenOf, Slashed, Index, TrimPrefix, HasDir;
  }

  lemma NoEarlierRow(m: seq<Object>, prefix: ByteString, name: ByteString)
    requires forall i :: 0 <= i < |m| ==> m[i].key != []
    requires !HasDir(ChildrenOf(m, prefix), name)
    ensures forall j :: 0 <= j < |m| ==> Slashed(prefix)(m[j].key) != Some(prefix + name)
  {
    hide ChildrenOf, Slashed, DirNames, Groups, Stripped, OnlyFiles, FilesOf, Ungrouped, HasDir, HasGroup;
    ChildrenAreGroups(m, prefix);
    HasDirName(ChildrenOf(m, prefix));
    GroupsAreTheGroups(m, Slashed(prefix));
    InStripped(Groups(m, Slashed(prefix)), prefix, name);
    NoRowInGroup(m, Slashed(prefix), prefix + name);
  }

  lemma NoRowInGroup(m: seq<Object>, group: GroupFunction, g: ByteString)
    requires !HasGroup(m, group, g)
    ensures forall j :: 0 <= j < |m| ==> group(m[j].key) != Some(g)
  {
  }

  lemma StrippedSnoc(ps: seq<ByteString>, prefix: ByteString, name: ByteString)
    ensures Stripped(ps + [prefix + name], prefix) == Stripped(ps, prefix) + [name]
  {
    StrippedGroup(prefix + name, prefix, name);
  }

  lemma FilesSnoc(us: seq<Object>, o: Object, prefix: ByteString)
    ensures FilesOf(us + [o], prefix)
         == FilesOf(us, prefix) + (if o.key == prefix then [] else [File(TrimPrefix(o.key, prefix), o)])
  {
    assert (us + [o])[..|us|] == us;
  }

  lemma {:induction false} FilesAreObjects(us: seq<Object>, prefix: ByteString)
    ensures forall c :: c in FilesOf(us, prefix) <==>
              c.File? && c.info in us && c.info.key != prefix && c.name == TrimPrefix(c.info.key, prefix)
  {
    hide TrimPrefix;
    if us != [] {
      FilesAreObjects(us[..|us| - 1], prefix);
      assert us == us[..|us| - 1] + [us[|us| - 1]];
    }
  }

  lemma {:induction false} FilesAmong(children: seq<Child>)
    ensures forall c :: c in OnlyFiles(children) <==> c in children && c.File?
  {
    if children != [] {
      FilesAmong(children[..|children| - 1]);
      assert children == children[..|children| - 1] + [children[|children| - 1]];
    }
  }

  /** The same children in another order. */
  lemma Rearranged(a: seq<Child>, b: seq<Child>)
    requires multiset(a) == multiset(b)
    ensures forall c :: c in a <==> c in b
    ensures forall name :: HasDir(a, name) <==> HasDir(b, name)
  {
    forall c ensures c in a <==> c in b {
      assert c in multiset(a) <==> c in multiset(b);
    }
    forall name ensures HasDir(a, name) <==> HasDir(b, name) {
      if HasDir(a, name) {
        var i :| 0 <= i < |a| && a[i].Dir? && a[i].name == name;
        assert a[i] in b;
        var j :| 0 <= j < |b| && b[j] == a[i];
      }
      if HasDir(b, name) {
        var i :| 0 <= i < |b| && b[i].Dir? && b[i].name == name;
        assert b[i] in a;
        var j :| 0 <= j < |a| && a[j] == b[i];
      }
    }
  }

  // ----- No name is listed twice -----

  ghost predicate NamesDiffer(children: seq<Child>) {
    forall i, j :: 0 <= i < j < |children| ==> children[i].name != children[j].name
  }

  /** A file's name is its key without the prefix, and only directories' names hold a slash. */
  ghost predicate Named(m: seq<Object>, prefix: ByteString, c: Child) {
    match c
    case Dir(name, _) => SLASH in name
    case File(name, o) => o in m && name == TrimPrefix(o.key, prefix) && SLASH !in name
  }

  ghost predicate AllNamed(m: seq<Object>, prefix: ByteString, children: seq<Child>) {
    NamesDiffer(children) && forall i :: 0 <= i < |children| ==> Named(m, prefix, children[i])
  }

  lemma {:induction false} ChildNames(m: seq<Object>, prefix: ByteString)
    requires SortedByKey(m) && AllUnder(m, prefix)
    ensures AllNamed(m, prefix, ChildrenOf(m, prefix))
  {
    if m == [] {
      NoChildren(prefix);
    } else {
      var n := |m| - 1;
      assert m == m[..n] + [m[n]];
      assert forall i :: 0 <= i < n ==> m[..n][i] == m[i];
      ChildNames(m[..n], prefix);
      hide ChildrenOf, AllNamed, TrimPrefix, Index;
      ChildIsNamed(m[..n], m[n], prefix, ChildrenOf(m[..n], prefix));
      ChildOneMore(m, n, prefix);
      assert m[..n + 1] == m;
    }
  }

  /** The child a row adds, if any, is named after it and unlike those before it. */
  lemma ChildIsNamed(m: seq<Object>, o: Object, prefix: ByteString, cs: seq<Child>)
    requires SortedByKey(m + [o]) && AllUnder(m + [o], prefix) && AllNamed(m, prefix, cs)
    ensures var remainder := TrimPrefix(o.key, prefix);
            var idx := Index(remainder, [SLASH]);
            && AllNamed(m + [o], prefix, cs)
            && (idx < 0 ==> AllNamed(m + [o], prefix, cs + [File(remainder, o)]))
            && idx + 1 <= |remainder|
            && (idx >= 0 && !HasDir(cs, remainder[..idx + 1]) ==>
                 AllNamed(m + [o], prefix, cs + [Dir(remainder[..idx + 1], o.lastModified)]))
  {
    hide Lt, SortedByKey, AllUnder, Index, TrimPrefix, Named, HasDir;
    var remainder := TrimPrefix(o.key, prefix);
    var idx := Index(remainder, [SLASH]);
    forall i | 0 <= i < |cs| ensures Named(m + [o], prefix, cs[i]) {
      NamedAmongMore(m, o, prefix, cs[i]);
    }
    if idx < 0 {
      NoSlash(remainder);
      FileIsNamed(m, o, prefix);
      forall i | 0 <= i < |cs| ensures cs[i].name != remainder {
        FileNamesDiffer(m, o, prefix, cs[i]);
      }
    } else {
      var name := remainder[..idx + 1];
      SlashedName(remainder, idx);
      DirIsNamed(m + [o], prefix, name, o.lastModified);
      forall i | 0 <= i < |cs| && !HasDir(cs, name) ensures cs[i].name != name {
        DirNamesDiffer(m, prefix, cs, i, name);
      }
    }
  }

  lemma NamedAmongMore(m: seq<Object>, o: Object, prefix: ByteString, c: Child)
    requires Named(m, prefix, c)
    ensures Named(m + [o], prefix, c)
  {
  }

  lemma NoSlash(s: ByteString)
    requires Index(s, [SLASH]) < 0
    ensures SLASH !in s
  {
    hide Index;
    ByteOccurrences(s, SLASH);
    assert forall i :: 0 <= i < |s| ==> s[i] != SLASH by {
      forall i | 0 <= i < |s| ensures s[i] != SLASH {
        assert OccursAt(s, [SLASH], i) <==> s[i] == SLASH;
      }
    }
  }

  lemma SlashedName(s: ByteString, idx: int)
    requires idx == Index(s, [SLASH]) && idx >= 0
    ensures idx + 1 <= |s| && SLASH in s[..idx + 1]
  {
    hide Index;
    assert OccursAt(s, [SLASH], idx);
    assert s[idx..idx + 1][0] == SLASH && s[..idx + 1][idx] == SLASH;
  }

  lemma FileIsNamed(m: seq<Object>, o: Object, prefix: ByteString)
    requires SLASH !in TrimPrefix(o.key, prefix)
    ensures Named(m + [o], prefix, File(TrimPrefix(o.key, prefix), o))
  {
    assert (m + [o])[|m|] == o;
  }

  lemma DirIsNamed(m: seq<Object>, prefix: ByteString, name: ByteString, modTime: int)
    requires SLASH in name
    ensures Named(m, prefix, Dir(name, modTime))
  {
  }

  lemma FileNamesDiffer(m: seq<Object>, o: Object, prefix: ByteString, c: Child)
    requires SortedByKey(m + [o]) && AllUnder(m + [o], prefix)
    requires Named(m, prefix, c) && SLASH !in TrimPrefix(o.key, prefix)
    ensures c.name != TrimPrefix(o.key, prefix)
  {
    hide Lt;
    assert (m + [o])[|m|] == o;
    if c.File? {
      var i :| 0 <= i < |m| && m[i] == c.info;
      assert (m + [o])[i] == c.info && Lt(c.info.key, o.key);
      LtIrreflexive(o.key);
      assert prefix + c.info.key[|prefix|..] == c.info.key && prefix + o.key[|prefix|..] == o.key;
    }
  }

  lemma DirNamesDiffer(m: seq<Object>, prefix: ByteString, cs: seq<Child>, i: nat, name: ByteString)
    requires i < |cs| && Named(m, prefix, cs[i]) && SLASH in name && !HasDir(cs, name)
    ensures cs[i].name != name
  {
  }

  lemma {:induction false} OnceEach(children: seq<Child>, c: Child)
    requires NamesDiffer(children)
    ensures multiset(children)[c] <= 1
  {
    if children != [] {
      var n := |children| - 1;
      OnceEach(children[..n], c);
      assert children == children[..n] + [children[n]];
      assert forall i :: 0 <= i < n ==> children[..n][i].name != children[n].name;
      assert children[n] !in children[..n];
    }
  }

  lemma TwiceCounts(children: seq<Child>, i: nat, j: nat)
    requires i < j < |children| && children[i] == children[j]
    ensures multiset(children)[children[i]] >= 2
  {
    var a, b := children[..j], children[j..];
    assert children == a + b;
    assert a[i] == children[i] && b[0] == children[j];
    assert children[i] in multiset(a) && children[i] in multiset(b);
  }

  /** A sorted rearrangement of children with different names ascends strictly. */
  lemma SortedStrictly(children: seq<Child>, unsorted: seq<Child>)
    requires multiset(children) == multiset(unsorted) && IsSorted(children, ByName) && NamesDiffer(unsorted)
    ensures forall i, j :: 0 <= i < j < |children| ==> Lt(children[i].name, children[j].name)
  {
    hide Lt;
    Rearranged(children, unsorted);
    forall i, j | 0 <= i < j < |children| ensures Lt(children[i].name, children[j].name) {
      var c, d := children[i], children[j];
      assert c in unsorted && d in unsorted;
      var a :| 0 <= a < |unsorted| && unsorted[a] == c;
      var b :| 0 <= b < |unsorted| && unsorted[b] == d;
      if c == d {
        TwiceCounts(children, i, j);
        OnceEach(unsorted, c);
      } else {
        assert a != b && c.name != d.name;
        assert !ByName(d, c);
        LtTotal(c.name, d.name);
      }
    }
  }

  /** A collection lists each child once, by name, when its keys are all under the prefix. */
  lemma ChildrenAscend(rows: seq<Object>, prefix: ByteString, children: seq<Child>)
    requires SortedByKey(rows) && NoCaseVariants(rows, prefix)
    requires multiset(children) == multiset(ChildrenOf(Select(rows, PrefixTest(prefix), []), prefix))
    requires IsSorted(children, ByName)
    ensures forall i, j :: 0 <= i < j < |children| ==> Lt(children[i].name, children[j].name)
  {
    hide Lt, SortedByKey, NoCaseVariants, Select, PrefixTest, ChildrenOf, ByName;
    var m := Select(rows, PrefixTest(prefix), []);
    StartOfWalk(rows, prefix);
    SelectIsExact(rows, prefix);
    assert forall i :: 0 <= i < |m| ==> m[i] in m;
    ChildNames(m, prefix);
    SortedStrictly(children, ChildrenOf(m, prefix));
  }

  // ----- All three together -----

  /** For every table without case variants of the prefix, every page size of the S3 walk and of lsd: WebDAV's
      directories are the S3 common prefixes with the prefix stripped, its files are the S3 objects other than the
      marker key, and lsd prints the S3 common prefixes, in the same order, but for the one with an empty segment. */
  lemma ListingsAgree(rows: seq<Object>, prefix: ByteString, limit: nat, pages: seq<ListObjectsResult>,
                      children: seq<Child>, printed: seq<ByteString>)
    requires SortedByKey(rows) && NoCaseVariants(rows, prefix)
    requires limit >= 1
    requires IsWalk(Select(rows, PrefixTest(prefix), []), Slashed(prefix), [], limit, pages)
    requires multiset(children) == multiset(ChildrenOf(Select(rows, PrefixTest(prefix), []), prefix))
    requires printed == WithSegment(Groups(Select(rows, PrefixTest(prefix), []), Slashed(prefix)), prefix)
    ensures forall name :: HasDir(children, name) <==> prefix + name in AllCommonPrefixes(pages)
    ensures forall p :: p in AllCommonPrefixes(pages) ==> prefix <= p
    ensures forall c :: c in children && c.File? <==>
              c.File? && c.info in AllObjects(pages) && c.info.key != prefix && c.name == TrimPrefix(c.info.key, prefix)
    ensures printed == WithSegment(AllCommonPrefixes(pages), prefix)
  {
    hide Lt, SortedByKey, NoCaseVariants, Select, PrefixTest, IsWalk, ChildrenOf, HasDir, Groups, Ungrouped, Slashed,
         AllCommonPrefixes, AllObjects, GroupOf, SomeRowInGroup, TrimPrefix, DirNames, OnlyFiles, FilesOf, WithSegment;
    var m := Select(rows, PrefixTest(prefix), []);
    StartOfWalk(rows, prefix);
    SlashedIsByDelimiter(prefix);
    WalkIsOnePass(rows, prefix, [SLASH], limit, pages);
    SelectWithoutVariants(rows, prefix);
    ChildrenAreGroups(m, prefix);
    var unsorted := ChildrenOf(m, prefix);
    Rearranged(children, unsorted);
    HasDirName(unsorted);
    forall name ensures HasDir(children, name) <==> prefix + name in AllCommonPrefixes(pages) {
      InStripped(Groups(m, Slashed(prefix)), prefix, name);
    }
    FilesAmong(unsorted);
    FilesAreObjects(Ungrouped(m, Slashed(prefix)), prefix);
  }

  lemma SlashedIsByDelimiter(prefix: ByteString)
    ensures Slashed(prefix) == ByDelimiter(prefix, [SLASH])
  {
  }
}
