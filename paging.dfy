/** The pagination arithmetic every listing endpoint shares: query-string
    defaults, `skip = (page - 1) * limit`, `pages = Math.ceil(total / limit)`,
    and MongoDB's `skip(..).limit(..)` on the sorted result. */
module Paging {
  import opened Basics
  import opened Sorting

  /** `parseInt(x) || d`: a missing, unparsable or zero value falls back to d.
      (A query value that `parseInt` reads as NaN is `None` here.) */
  function OrDefault(x: Option<int>, d: int): (r: int)
    ensures r == d || (x.Some? && r == x.value)
    ensures d != 0 ==> r != 0
  {
    if x.None? || x.value == 0 then d else x.value
  }

  /** A destructuring default (`const { page = 1 } = req.query`) followed by
      `parseInt`: only a missing value falls back; zero is kept. `None` is an
      absent value here; a given value `parseInt` reads as NaN is not
      modelled. */
  function IfMissing(x: Option<int>, d: int): (r: int)
    ensures x.Some? ==> r == x.value
  {
    if x.None? then d else x.value
  }

  /** `Math.ceil(total / limit)` for a non-zero limit. For a positive limit it
      is the least number of pages of that size that hold every item. */
  function CeilDiv(total: nat, limit: int): (r: int)
    requires limit != 0
    ensures limit > 0 ==> r >= 0 && (r - 1) * limit < total <= r * limit
    ensures limit > 0 ==> (r == 0 <==> total == 0)
  {
    if limit > 0 then (total + limit - 1) / limit else -(total / -limit)
  }

  /** MongoDB's `find().skip(skip).limit(limit)`: drop `skip` items, then keep
      at most |limit| of them (0 keeps everything, a negative limit counts as
      its absolute value). */
  function Window<T>(all: seq<T>, skip: nat, limit: int): (r: seq<T>)
    ensures limit != 0 ==> |r| <= if limit > 0 then limit else -limit
    ensures |r| <= Max(0, |all| - skip)
    ensures skip <= |all| ==> r == all[skip..skip + |r|]
    ensures skip >= |all| ==> r == []
  {
    Limit(Drop(all, skip), if limit >= 0 then limit else -limit)
  }

  /** The `count`, `total`, `page`, `pages` envelope of a listing response;
      `pages` is `None` where JavaScript computes Infinity or NaN (a zero
      limit), which JSON renders as null. */
  datatype Listing<T> = Listing(items: seq<T>, count: nat, total: nat, page: int, pages: Option<int>)

  /** One page of a sorted, filtered result, or `None` when the skip is
      negative (MongoDB rejects it and the handler answers 500). */
  function Paginate<T>(all: seq<T>, page: int, limit: int): Option<Listing<T>>
  {
    var skip := (page - 1) * limit;
    if skip < 0 then None
    else
      var items := Window(all, skip, limit);
      Some(Listing(items, |items|, |all|, page, if limit == 0 then None else Some(CeilDiv(|all|, limit))))
  }

  /** For a positive limit and a page from 1 on: the page exists, holds the
      items from index (page - 1) * limit on, at most `limit` of them, and
      `total` counts the same filtered result the page was cut from; it is
      empty exactly when the page number is beyond `pages`. */
  lemma PaginateProperties<T>(all: seq<T>, page: int, limit: int)
    requires page >= 1 && limit > 0
    ensures Paginate(all, page, limit).Some?
    ensures var l := Paginate(all, page, limit).value;
      && l.count == |l.items| <= limit
      && l.total == |all|
      && l.pages == Some(CeilDiv(|all|, limit))
      && ((page - 1) * limit <= |all| ==> l.items == all[(page - 1) * limit..(page - 1) * limit + l.count])
      && (l.items == [] <==> page > CeilDiv(|all|, limit))
  {
    var pages := CeilDiv(|all|, limit);
    MulMonotone(0, page - 1, limit);
    if page > pages {
      MulMonotone(pages, page - 1, limit);
    } else {
      MulMonotone(page - 1, pages - 1, limit);
    }
  }

  /** A window of a result sorted by `key` holds elements of the result
      only, still in descending order. */
  lemma SortedWindow<T>(s: seq<T>, key: T -> SortKey, skip: nat, limit: int)
    ensures var w := Window(SortDesc(s, key), skip, limit);
      && (forall x | x in w :: x in s)
      && SortedDesc(w, key)
  {
    var sorted := SortDesc(s, key);
    var w := Window(sorted, skip, limit);
    if skip <= |sorted| {
      SliceSorted(sorted, key, skip, skip + |w|);
      forall x | x in w ensures x in s {
        assert x in multiset(sorted);
      }
    }
  }

  /** A page of a result sorted by `key` holds elements of the result only,
      still in descending order. */
  lemma SortedPageProperties<T>(s: seq<T>, key: T -> SortKey, page: int, limit: int)
    requires page >= 1 && limit > 0
    ensures Paginate(SortDesc(s, key), page, limit).Some?
    ensures var items := Paginate(SortDesc(s, key), page, limit).value.items;
      && (forall x | x in items :: x in s)
      && SortedDesc(items, key)
  {
    MulMonotone(0, page - 1, limit);
    SortedWindow(s, key, (page - 1) * limit, limit);
  }

  /** The items of pages p..last, one page after the other. */
  function PagesFrom<T>(all: seq<T>, limit: int, p: int, last: int): seq<T>
    requires limit > 0 && p >= 1
    decreases last + 1 - p
  {
    if p > last then [] else Window(all, (p - 1) * limit, limit) + PagesFrom(all, limit, p + 1, last)
  }

  lemma {:induction false} PagesFromRest<T>(all: seq<T>, limit: int, p: int, last: int)
    requires limit > 0 && p >= 1 && |all| <= last * limit
    ensures PagesFrom(all, limit, p, last) == Drop(all, (p - 1) * limit)
    decreases last + 1 - p
  {
    var skip := (p - 1) * limit;
    MulMonotone(0, p - 1, limit);
    if p > last {
      MulMonotone(last, p - 1, limit);
    } else {
      PagesFromRest(all, limit, p + 1, last);
      assert p * limit == skip + limit;
      WindowThenRest(all, skip, limit);
    }
  }

  /** One window followed by everything after it is everything from its start. */
  lemma WindowThenRest<T>(all: seq<T>, skip: nat, limit: int)
    requires limit > 0
    ensures Window(all, skip, limit) + Drop(all, skip + limit) == Drop(all, skip)
  {
    if skip + limit <= |all| {
      assert all[skip..] == all[skip..skip + limit] + all[skip + limit..];
    }
  }

  /** Walking the pages 1..pages of a listing with a positive limit visits
      every item exactly once and in order: the pages partition the result. */
  lemma PagesCoverResult<T>(all: seq<T>, limit: int)
    requires limit > 0
    ensures PagesFrom(all, limit, 1, CeilDiv(|all|, limit)) == all
  {
    PagesFromRest(all, limit, 1, CeilDiv(|all|, limit));
  }
}
