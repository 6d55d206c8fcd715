/** Listings of the store itself: a walk over a bucket's table rows shows exactly the objects the store means. */
module BucketListing {
  import opened ByteStrings
  import opened Like
  import opened Metadata
  import opened Scan
  import opened Grouping
  import opened Listing
  import opened Tables
  import opened SQLite
  import opened PrefixCopy
  import opened Ownership
  import opened Gateway
  import opened GatewayRuns

  /** The object rows of one bucket in key order. */
  function BucketRows(db: Db, bucket: ByteString): seq<Object> {
    Snapshot(db, bucket, [])
  }

  lemma EmptyPrefixMatches(key: ByteString)
    ensures SqlPrefix([], key) && !CaseVariant([], key)
  {
    SqlPrefixMeaning([], key);
  }

  lemma BucketRowsMeaning(db: Db, bucket: ByteString)
    requires Keyed(db)
    ensures var rows := BucketRows(db, bucket);
            && SortedByKey(rows)
            && forall o :: o in rows <==>
                 && o.bucket == bucket
                 && ObjectKey(bucket, o.key) in db.objects && db.objects[ObjectKey(bucket, o.key)] == o
  {
    hide Snapshot, SqlPrefix, CaseVariant, Lt;
    forall key ensures !CaseVariant([], key) {
      EmptyPrefixMatches(key);
    }
    SnapshotIsExact(db, bucket, []);
    var rows := BucketRows(db, bucket);
    forall o ensures o in rows <==>
        o.bucket == bucket && ObjectKey(bucket, o.key) in db.objects && db.objects[ObjectKey(bucket, o.key)] == o
    {
      if o.bucket == bucket && ObjectKey(bucket, o.key) in db.objects && db.objects[ObjectKey(bucket, o.key)] == o {
        var i :| 0 <= i < |rows| && rows[i].key == o.key;
        assert rows[i] == o;
      }
    }
  }

  /** `o` is the row of an object the store holds under this bucket and prefix. */
  ghost predicate Shows(s: System, bucket: ByteString, prefix: ByteString, o: Object) {
    var k := ObjectKey(bucket, o.key);
    && prefix <= o.key && o.key != []
    && k in MeaningOf(s).bodies && k in s.db.objects && s.db.objects[k] == o
    && o.size == |MeaningOf(s).bodies[k]|
  }

  lemma RowShows(s: System, bucket: ByteString, prefix: ByteString, o: Object)
    requires Inv(s)
    ensures o in BucketRows(s.db, bucket) && prefix <= o.key && o.key != [] <==> Shows(s, bucket, prefix, o)
  {
    hide BucketRows, Owned, MeaningOf, PartsAddUp, GoodEntry;
    var k := ObjectKey(bucket, o.key);
    BucketRowsMeaning(s.db, bucket);
    if k in s.db.objects {
      RowHasItsSize(s, k);
      assert KeyOfObject(s.db.objects[k]) == k;
    }
  }

  /** In a sound store whose bucket holds no case variant of the prefix, the pages of a walk list exactly the objects
      the store means, each with the size of its body: outside every group as objects, the others by their common
      prefix. */
  lemma WalkShowsTheBucket(s: System, bucket: ByteString, prefix: ByteString, delimiter: ByteString, limit: nat,
                           pages: seq<ListObjectsResult>)
    requires Inv(s) && NoCaseVariants(BucketRows(s.db, bucket), prefix) && limit >= 1
    requires IsWalk(Select(BucketRows(s.db, bucket), PrefixTest(prefix), []), ByDelimiter(prefix, delimiter), [], limit,
                    pages)
    ensures forall o :: o in AllObjects(pages) <==>
              Shows(s, bucket, prefix, o) && GroupOf(o.key, prefix, delimiter).None?
    ensures forall p :: p in AllCommonPrefixes(pages) <==>
              exists o :: Shows(s, bucket, prefix, o) && GroupOf(o.key, prefix, delimiter) == Some(p)
  {
    hide BucketRows, Inv, Shows, NoCaseVariants, IsWalk, Select, PrefixTest, ByDelimiter, GroupOf, AllObjects,
         AllCommonPrefixes,
         SortedByKey, Lt, Groups, Ungrouped;
    SortedRows(s, bucket);
    WalkIsOnePass(BucketRows(s.db, bucket), prefix, delimiter, limit, pages);
    forall o ensures o in BucketRows(s.db, bucket) && prefix <= o.key && o.key != [] <==> Shows(s, bucket, prefix, o) {
      RowShows(s, bucket, prefix, o);
    }
    forall p ensures SomeRowInGroup(BucketRows(s.db, bucket), prefix, delimiter, p)
        <==> exists o :: Shows(s, bucket, prefix, o) && GroupOf(o.key, prefix, delimiter) == Some(p)
    {
      GroupShows(s, bucket, prefix, delimiter, p);
    }
  }

  lemma SortedRows(s: System, bucket: ByteString)
    requires Inv(s)
    ensures SortedByKey(BucketRows(s.db, bucket))
  {
    BucketRowsMeaning(s.db, bucket);
  }

  lemma GroupShows(s: System, bucket: ByteString, prefix: ByteString, delimiter: ByteString, p: ByteString)
    requires Inv(s)
    ensures SomeRowInGroup(BucketRows(s.db, bucket), prefix, delimiter, p)
       <==> exists o :: Shows(s, bucket, prefix, o) && GroupOf(o.key, prefix, delimiter) == Some(p)
  {
    hide BucketRows, Inv, Shows, GroupOf;
    var rows := BucketRows(s.db, bucket);
    if SomeRowInGroup(rows, prefix, delimiter, p) {
      var o :| o in rows && prefix <= o.key && GroupOf(o.key, prefix, delimiter) == Some(p);
      GroupNeedsBytes(o.key, prefix, delimiter);
      RowShows(s, bucket, prefix, o);
    }
    if exists o :: Shows(s, bucket, prefix, o) && GroupOf(o.key, prefix, delimiter) == Some(p) {
      var o :| Shows(s, bucket, prefix, o) && GroupOf(o.key, prefix, delimiter) == Some(p);
      RowShows(s, bucket, prefix, o);
    }
  }
}
