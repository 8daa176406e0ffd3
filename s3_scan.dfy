/** The S3 helpers: `get_buckets`, which sorts buckets into empty ones and
    old ones by their listed objects, and `get_bucket_cost`, which prices a
    bucket's stored bytes. A bucket arrives as its name and the objects of
    its first list_objects_v2 response in listing order (S3 lists by key); a
    response without "Contents" is an empty list. Times are whole seconds. */
module S3Scan {
  import opened Common

  datatype S3Object = S3Object(key: string, lastModified: int, size: nat)

  datatype BucketListing = BucketListing(name: Id, contents: seq<S3Object>)

  /** The "old" and "empty" lists of the result. */
  datatype S3Buckets = S3Buckets(oldList: seq<Id>, emptyList: seq<Id>)

  /** The latest modification time among the objects. */
  function Newest(objects: seq<S3Object>): int
    requires objects != []
  {
    if |objects| == 1 then objects[0].lastModified
    else
      var m := Newest(objects[..|objects| - 1]);
      if objects[|objects| - 1].lastModified > m then objects[|objects| - 1].lastModified else m
  }

  /** The time the age test looks at: as written, that of the first listed
      object (the variable is called `newest_object`); `byNewest` selects the
      latest modification time instead. */
  function AgeOf(b: BucketListing, byNewest: bool): int
    requires b.contents != []
  {
    if byNewest then Newest(b.contents) else b.contents[0].lastModified
  }

  predicate IsOld(b: BucketListing, cutoff: int, byNewest: bool) {
    b.contents != [] && AgeOf(b, byNewest) < cutoff
  }

  function OldBuckets(bs: seq<BucketListing>, cutoff: int, byNewest: bool): seq<Id> {
    if bs == [] then []
    else OldBuckets(bs[..|bs| - 1], cutoff, byNewest) + (if IsOld(bs[|bs| - 1], cutoff, byNewest) then [bs[|bs| - 1].name] else [])
  }

  function EmptyBuckets(bs: seq<BucketListing>): seq<Id> {
    if bs == [] then []
    else EmptyBuckets(bs[..|bs| - 1]) + (if bs[|bs| - 1].contents == [] then [bs[|bs| - 1].name] else [])
  }

  function Names(bs: seq<BucketListing>): seq<Id> {
    if bs == [] then [] else Names(bs[..|bs| - 1]) + [bs[|bs| - 1].name]
  }

  /** The loop of `get_buckets`, with the age test chosen by `byNewest`. */
  method GetBucketsWith(buckets: seq<BucketListing>, cutoff: int, byNewest: bool) returns (s3Buckets: S3Buckets)
    ensures s3Buckets == S3Buckets(OldBuckets(buckets, cutoff, byNewest), EmptyBuckets(buckets))
  {
    var oldList: seq<Id> := [];
    var emptyList: seq<Id> := [];
    for i := 0 to |buckets|
      invariant oldList == OldBuckets(buckets[..i], cutoff, byNewest)
      invariant emptyList == EmptyBuckets(buckets[..i])
    {
      assert buckets[..i + 1][..i] == buckets[..i];
      var bucket := buckets[i];
      if bucket.contents == [] {
        emptyList := emptyList + [bucket.name];
        continue;
      }
      var newestObjectTime := AgeOf(bucket, byNewest);
      if newestObjectTime < cutoff {
        oldList := oldList + [bucket.name];
      }
    }
    assert buckets[..|buckets|] == buckets;
    s3Buckets := S3Buckets(oldList, emptyList);
  }

  /** `get_buckets` as written. */
  method GetBuckets(buckets: seq<BucketListing>, now: int, days: int) returns (s3Buckets: S3Buckets)
    ensures s3Buckets == S3Buckets(OldBuckets(buckets, Cutoff(now, days), false), EmptyBuckets(buckets))
  {
    s3Buckets := GetBucketsWith(buckets, Cutoff(now, days), false);
  }

  /** `get_buckets` judging age by the newest object. */
  method GetBucketsByNewest(buckets: seq<BucketListing>, now: int, days: int) returns (s3Buckets: S3Buckets)
    ensures s3Buckets == S3Buckets(OldBuckets(buckets, Cutoff(now, days), true), EmptyBuckets(buckets))
  {
    s3Buckets := GetBucketsWith(buckets, Cutoff(now, days), true);
  }

  /** A bucket name is in `empty` exactly when a listed bucket of that name
      has no objects. */
  lemma {:induction false} EmptyMember(bs: seq<BucketListing>, n: Id)
    ensures n in EmptyBuckets(bs) <==> exists i | 0 <= i < |bs| :: bs[i].name == n && bs[i].contents == []
  {
    if bs != [] {
      var p := bs[..|bs| - 1];
      EmptyMember(p, n);
      if n in EmptyBuckets(p) {
        var i :| 0 <= i < |p| && p[i].name == n && p[i].contents == [];
        assert bs[i] == p[i];
      }
      if exists i | 0 <= i < |bs| :: bs[i].name == n && bs[i].contents == [] {
        var i :| 0 <= i < |bs| && bs[i].name == n && bs[i].contents == [];
        if i < |p| {
          assert p[i] == bs[i];
        }
      }
    }
  }

  /** A bucket name is in `old` exactly when a listed bucket of that name has
      objects and passes the age test. */
  lemma {:induction false} OldMember(bs: seq<BucketListing>, cutoff: int, byNewest: bool, n: Id)
    ensures n in OldBuckets(bs, cutoff, byNewest) <==>
      exists i | 0 <= i < |bs| :: bs[i].name == n && bs[i].contents != [] && AgeOf(bs[i], byNewest) < cutoff
  {
    if bs != [] {
      var p := bs[..|bs| - 1];
      OldMember(p, cutoff, byNewest, n);
      if n in OldBuckets(p, cutoff, byNewest) {
        var i :| 0 <= i < |p| && p[i].name == n && p[i].contents != [] && AgeOf(p[i], byNewest) < cutoff;
        assert bs[i] == p[i];
      }
      if exists i | 0 <= i < |bs| :: bs[i].name == n && bs[i].contents != [] && AgeOf(bs[i], byNewest) < cutoff {
        var i :| 0 <= i < |bs| && bs[i].name == n && bs[i].contents != [] && AgeOf(bs[i], byNewest) < cutoff;
        if i < |p| {
          assert p[i] == bs[i];
        }
      }
    }
  }

  /** No listed bucket is counted in both lists, so a name occurs in the two
      together at most as often as it is listed. */
  lemma {:induction false} BucketsCount(bs: seq<BucketListing>, cutoff: int, byNewest: bool, n: Id)
    ensures Count(OldBuckets(bs, cutoff, byNewest), n) + Count(EmptyBuckets(bs), n) <= Count(Names(bs), n)
  {
    if bs != [] {
      var p, b := bs[..|bs| - 1], bs[|bs| - 1];
      BucketsCount(p, cutoff, byNewest, n);
      CountAppend(OldBuckets(p, cutoff, byNewest), if IsOld(b, cutoff, byNewest) then [b.name] else [], n);
      CountAppend(EmptyBuckets(p), if b.contents == [] then [b.name] else [], n);
      CountAppend(Names(p), [b.name], n);
    }
  }

  /** Bucket names are unique, so when the listing names each bucket once no
      bucket is both old and empty. */
  lemma BucketsDisjoint(bs: seq<BucketListing>, cutoff: int, byNewest: bool, n: Id)
    requires Count(Names(bs), n) <= 1
    ensures !(n in OldBuckets(bs, cutoff, byNewest) && n in EmptyBuckets(bs))
  {
    BucketsCount(bs, cutoff, byNewest, n);
    if n in OldBuckets(bs, cutoff, byNewest) {
      CountPositive(OldBuckets(bs, cutoff, byNewest), n);
    }
    if n in EmptyBuckets(bs) {
      CountPositive(EmptyBuckets(bs), n);
    }
  }

  /** The "old" list follows the listing order: the old buckets of a longer
      listing are those of its first part followed by those of the rest. */
  lemma {:induction false} OldBucketsAppend(a: seq<BucketListing>, b: seq<BucketListing>, cutoff: int, byNewest: bool)
    ensures OldBuckets(a + b, cutoff, byNewest) == OldBuckets(a, cutoff, byNewest) + OldBuckets(b, cutoff, byNewest)
  {
    if b == [] {
      assert a + b == a;
    } else {
      var p := b[..|b| - 1];
      assert (a + b)[..|a + b| - 1] == a + p;
      OldBucketsAppend(a, p, cutoff, byNewest);
    }
  }

  /** The "empty" list follows the listing order in the same way. */
  lemma {:induction false} EmptyBucketsAppend(a: seq<BucketListing>, b: seq<BucketListing>)
    ensures EmptyBuckets(a + b) == EmptyBuckets(a) + EmptyBuckets(b)
  {
    if b == [] {
      assert a + b == a;
    } else {
      var p := b[..|b| - 1];
      assert (a + b)[..|a + b| - 1] == a + p;
      EmptyBucketsAppend(a, p);
    }
  }

  lemma {:induction false} NewestIsMax(objects: seq<S3Object>)
    requires objects != []
    ensures forall i | 0 <= i < |objects| :: objects[i].lastModified <= Newest(objects)
    ensures exists i | 0 <= i < |objects| :: objects[i].lastModified == Newest(objects)
  {
    if |objects| == 1 {
      assert objects[0].lastModified == Newest(objects);
    } else {
      var p := objects[..|objects| - 1];
      NewestIsMax(p);
      assert forall i | 0 <= i < |p| :: p[i] == objects[i];
      var j :| 0 <= j < |p| && p[j].lastModified == Newest(p);
      if objects[|objects| - 1].lastModified > Newest(p) {
        assert objects[|objects| - 1].lastModified == Newest(objects);
      } else {
        assert objects[j].lastModified == Newest(objects);
      }
    }
  }

  /** Judged by the newest object, a bucket is old exactly when every one of
      its objects was last modified before the cutoff. */
  lemma OldByNewestIff(b: BucketListing, cutoff: int)
    ensures IsOld(b, cutoff, true) <==>
      b.contents != [] && forall i | 0 <= i < |b.contents| :: b.contents[i].lastModified < cutoff
  {
    if b.contents != [] {
      NewestIsMax(b.contents);
    }
  }

  /** As written, a bucket whose first-listed object is old but whose other
      object was modified just now is reported as old. */
  lemma FirstObjectNotNewest()
    ensures var b := BucketListing("logs", [S3Object("a.txt", 0, 1), S3Object("b.txt", 10 * SECONDS_PER_DAY, 1)]);
      && OldBuckets([b], Cutoff(10 * SECONDS_PER_DAY, 1), false) == ["logs"]
      && OldBuckets([b], Cutoff(10 * SECONDS_PER_DAY, 1), true) == []
  {
    var b := BucketListing("logs", [S3Object("a.txt", 0, 1), S3Object("b.txt", 10 * SECONDS_PER_DAY, 1)]);
    assert [b][..0] == [];
    assert b.contents[..1] == [S3Object("a.txt", 0, 1)];
    assert Newest(b.contents) == 10 * SECONDS_PER_DAY;
  }

  /** The checks of the test: a fresh empty bucket is empty, and after an
      object is written now it is not old at a 365-day limit. */
  lemma GetBucketsTestScenario(name: Id, now: int)
    ensures EmptyBuckets([BucketListing(name, [])]) == [name]
    ensures name !in OldBuckets([BucketListing(name, [S3Object("test.txt", now, 4)])], Cutoff(now, 365), false)
  {
    assert [BucketListing(name, [])][..0] == [];
    assert [BucketListing(name, [S3Object("test.txt", now, 4)])][..0] == [];
  }

  // get_bucket_cost

  /** Dollars per GB-month of standard storage. */
  const PRICE_PER_GB_MONTH: real := 0.023

  const BYTES_PER_GB: nat := 1024 * 1024 * 1024

  /** The object sizes of one list_objects_v2 page, none for a page without
      "Contents". */
  type Page = seq<nat>

  function PageBytes(page: Page): nat {
    SumNat(page)
  }

  function TotalBytes(pages: seq<Page>): nat {
    if pages == [] then 0 else TotalBytes(pages[..|pages| - 1]) + PageBytes(pages[|pages| - 1])
  }

  function StorageCost(bytes: nat): real {
    (bytes as real / BYTES_PER_GB as real) * PRICE_PER_GB_MONTH
  }

  /** Sums the sizes of one page onto `size`. */
  method AddPage(size0: nat, page: Page) returns (size: nat)
    ensures size == size0 + PageBytes(page)
  {
    size := size0;
    for i := 0 to |page|
      invariant size == size0 + SumNat(page[..i])
    {
      assert page[..i + 1][..i] == page[..i];
      size := size + page[i];
    }
    assert page[..|page|] == page;
  }

  /** `get_bucket_cost`: the sizes of every object on every page, priced. */
  method GetBucketCost(pages: seq<Page>) returns (cost: real)
    ensures cost == StorageCost(TotalBytes(pages))
  {
    var size: nat := 0;
    for k := 0 to |pages|
      invariant size == TotalBytes(pages[..k])
    {
      assert pages[..k + 1][..k] == pages[..k];
      if pages[k] == [] {
        continue;
      }
      size := AddPage(size, pages[k]);
    }
    assert pages[..|pages|] == pages;
    cost := (size as real / BYTES_PER_GB as real) * PRICE_PER_GB_MONTH;
  }

  lemma {:induction false} PageBytesPositive(page: Page)
    ensures PageBytes(page) > 0 <==> exists i | 0 <= i < |page| :: page[i] > 0
  {
    if page != [] {
      var p := page[..|page| - 1];
      PageBytesPositive(p);
      assert forall i | 0 <= i < |p| :: p[i] == page[i];
      if PageBytes(p) > 0 {
        var i :| 0 <= i < |p| && p[i] > 0;
        assert page[i] == p[i];
      }
    }
  }

  /** The byte total is zero exactly when no object on any page has a byte;
      the total of two runs of pages is the sum of their totals. */
  lemma {:induction false} TotalBytesPositive(pages: seq<Page>)
    ensures TotalBytes(pages) > 0 <==> exists k, i | 0 <= k < |pages| && 0 <= i < |pages[k]| :: pages[k][i] > 0
  {
    if pages != [] {
      var p := pages[..|pages| - 1];
      TotalBytesPositive(p);
      PageBytesPositive(pages[|pages| - 1]);
      assert forall k | 0 <= k < |p| :: p[k] == pages[k];
      if TotalBytes(p) > 0 {
        var k, i :| 0 <= k < |p| && 0 <= i < |p[k]| && p[k][i] > 0;
        assert pages[k] == p[k];
      }
      if PageBytes(pages[|pages| - 1]) > 0 {
        var i :| 0 <= i < |pages[|pages| - 1]| && pages[|pages| - 1][i] > 0;
      }
    }
  }

  lemma {:induction false} TotalBytesAppend(a: seq<Page>, b: seq<Page>)
    ensures TotalBytes(a + b) == TotalBytes(a) + TotalBytes(b)
  {
    if b == [] {
      assert a + b == a;
    } else {
      assert (a + b)[..|a + b| - 1] == a + b[..|b| - 1];
      TotalBytesAppend(a, b[..|b| - 1]);
    }
  }

  /** A bucket costs nothing exactly when it stores no byte, and any stored
      byte makes the cost positive; pages without objects change nothing. */
  lemma BucketCostSpec(pages: seq<Page>)
    ensures StorageCost(TotalBytes(pages)) >= 0.0
    ensures StorageCost(TotalBytes(pages)) == 0.0 <==> !exists k, i | 0 <= k < |pages| && 0 <= i < |pages[k]| :: pages[k][i] > 0
    ensures StorageCost(TotalBytes(pages)) == StorageCost(TotalBytes(pages + [[]]))
  {
    TotalBytesPositive(pages);
    var none: seq<Page> := [[]];
    TotalBytesAppend(pages, none);
    assert none[..0] == [];
    assert TotalBytes(none) == 0;
  }
}
