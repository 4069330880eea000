/**
 * The paging arithmetic and the reduction of sub-page results shared by both
 * GetLadder snapshots (ladder.go and ladders.go): a first page of 200 entries
 * tells the ladder's size, and the rest is fetched 200 entries at a time.
 */
module Pagination {
  import opened Errors
  import opened Types

  /** maxLadderLimit (maxLimit in the older snapshot): entries per page. */
  const PageSize: int := 200

  /** maxLadderPages (maxPages): the capacity of the error channel. */
  const MaxPages: int := 75

  /** How many pages GetLadder requests after the first one. */
  function SubPageCount(total: int): (n: nat)
    ensures total <= PageSize ==> n == 0
    ensures total > PageSize ==> PageSize * n < total <= PageSize * (n + 1)
  {
    if total <= PageSize then 0 else (total - 1) / PageSize
  }

  /** The offsets of the pages after the first: 200, 400, ... */
  function SubPageOffsets(total: int): (offs: seq<int>)
    ensures |offs| == SubPageCount(total)
    ensures forall k :: 0 <= k < |offs| ==> offs[k] == PageSize * (k + 1)
  {
    seq(SubPageCount(total), k => PageSize * (k + 1))
  }

  /**
   * The sub-page offsets are exactly the positive multiples of the page size
   * that lie strictly below the ladder's size.
   */
  lemma OffsetsAreMultiplesBelow(total: int, x: int)
    ensures x in SubPageOffsets(total) <==> PageSize <= x < total && x % PageSize == 0
  {
    var offs := SubPageOffsets(total);
    if x in offs {
      var k :| 0 <= k < |offs| && offs[k] == x;
      assert x == PageSize * (k + 1);
    }
    if PageSize <= x < total && x % PageSize == 0 {
      var m := x / PageSize;
      assert x == PageSize * m;
      assert 1 <= m;
      assert PageSize * (m - 1) < PageSize * SubPageCount(total) by {
        assert PageSize * m < total <= PageSize * (SubPageCount(total) + 1);
      }
      assert offs[m - 1] == x;
    }
  }

  /** One request per page after the first: the ceiling of total/200, less one. */
  lemma SubPageCountIsCeilingLessOne(total: int)
    requires total > PageSize
    ensures SubPageCount(total) == (total + PageSize - 1) / PageSize - 1
  {
  }

  /** Ladders of up to 15200 entries need no more sub-pages than the error channel holds. */
  lemma SubPagesFitChannel(total: int)
    requires total <= PageSize * (MaxPages + 1)
    ensures SubPageCount(total) <= MaxPages
  {
  }

  /** The result of fetching every sub-page, in offset order. */
  function SubPages(total: int, page: int -> Result<Ladder>): (pages: seq<Result<Ladder>>)
    ensures |pages| == SubPageCount(total)
    ensures forall k :: 0 <= k < |pages| ==> pages[k] == page(PageSize * (k + 1))
  {
    var offs := SubPageOffsets(total);
    seq(|offs|, k requires 0 <= k < |offs| => page(offs[k]))
  }

  /**
   * How GetLadder reduces the sub-page results, page by page in offset order:
   * the first failure is kept; otherwise the entries of each page are appended.
   */
  function Collect(pages: seq<Result<Ladder>>): Result<seq<LadderEntry>>
  {
    if pages == [] then Success([])
    else
      var last := pages[|pages| - 1];
      match Collect(pages[..|pages| - 1])
      case Failure(e) => Failure(e)
      case Success(entries) =>
        if last.Failure? then Failure(last.error) else Success(entries + last.value.entries)
  }

  /** One more page: Collect keeps an earlier failure, else records this page. */
  lemma CollectPrefixStep(pages: seq<Result<Ladder>>, k: int)
    requires 0 <= k < |pages|
    ensures Collect(pages[..k + 1]) ==
              match Collect(pages[..k])
              case Failure(e) => Failure(e)
              case Success(entries) =>
                if pages[k].Failure? then Failure(pages[k].error) else Success(entries + pages[k].value.entries)
  {
    assert pages[..k + 1][..k] == pages[..k];
  }

  /** The entries of all pages, front to back (a reference definition for Collect). */
  function Flatten(pages: seq<Result<Ladder>>): seq<LadderEntry>
    requires forall i :: 0 <= i < |pages| ==> pages[i].Success?
  {
    if pages == [] then [] else pages[0].value.entries + Flatten(pages[1..])
  }

  lemma {:induction false} FlattenSnoc(pages: seq<Result<Ladder>>, last: Ladder)
    requires forall i :: 0 <= i < |pages| ==> pages[i].Success?
    ensures forall i :: 0 <= i < |pages + [Success(last)]| ==> (pages + [Success(last)])[i].Success?
    ensures Flatten(pages + [Success(last)]) == Flatten(pages) + last.entries
  {
    var ext := pages + [Success(last)];
    assert forall i :: 0 <= i < |ext| ==> ext[i].Success?;
    if pages != [] {
      assert ext[1..] == pages[1..] + [Success(last)];
      FlattenSnoc(pages[1..], last);
    } else {
      assert ext[1..] == [];
    }
  }

  /** With no failed page, the result is every page's entries in offset order. */
  lemma {:induction false} CollectAllSucceed(pages: seq<Result<Ladder>>)
    requires forall i :: 0 <= i < |pages| ==> pages[i].Success?
    ensures Collect(pages) == Success(Flatten(pages))
  {
    if pages != [] {
      var init := pages[..|pages| - 1];
      var last := pages[|pages| - 1];
      CollectAllSucceed(init);
      FlattenSnoc(init, last.value);
      assert init + [Success(last.value)] == pages;
    }
  }

  /** With a failed page, the result is the error of the first one, and nothing else. */
  lemma {:induction false} CollectFirstFailure(pages: seq<Result<Ladder>>, i: int)
    requires 0 <= i < |pages| && pages[i].Failure?
    requires forall j :: 0 <= j < i ==> pages[j].Success?
    ensures Collect(pages) == Failure(pages[i].error)
  {
    var init := pages[..|pages| - 1];
    if i == |pages| - 1 {
      CollectAllSucceed(init);
    } else {
      CollectFirstFailure(init, i);
    }
  }

  /** Collect fails exactly when some page failed. */
  lemma CollectFails(pages: seq<Result<Ladder>>)
    ensures Collect(pages).Failure? <==> exists i :: 0 <= i < |pages| && pages[i].Failure?
  {
    if exists i :: 0 <= i < |pages| && pages[i].Failure? {
      var i := FirstFailure(pages);
      CollectFirstFailure(pages, i);
    } else {
      CollectAllSucceed(pages);
    }
  }

  /** The index of the first failed page. */
  function FirstFailure(pages: seq<Result<Ladder>>): (i: int)
    requires exists i :: 0 <= i < |pages| && pages[i].Failure?
    ensures 0 <= i < |pages| && pages[i].Failure?
    ensures forall j :: 0 <= j < i ==> pages[j].Success?
  {
    if pages[0].Failure? then 0
    else
      assert exists i :: 0 <= i < |pages[1..]| && pages[1..][i].Failure? by {
        var i :| 0 <= i < |pages| && pages[i].Failure?;
        assert pages[1..][i - 1] == pages[i];
      }
      1 + FirstFailure(pages[1..])
  }

  /** How many entries the page at `offset` holds in a ladder of `total` entries. */
  function PageLength(total: int, offset: int): int
  {
    if total - offset < PageSize then total - offset else PageSize
  }

  /** Every page succeeded and holds as many entries as its place in the ladder allows. */
  predicate FullPages(pages: seq<Result<Ladder>>, total: int)
  {
    forall k :: 0 <= k < |pages| ==>
      pages[k].Success? && |pages[k].value.entries| == PageLength(total, PageSize * (k + 1))
  }

  lemma {:induction false} FlattenFullPrefix(pages: seq<Result<Ladder>>, total: int, k: int)
    requires |pages| == SubPageCount(total) && FullPages(pages, total)
    requires 0 <= k < |pages|
    ensures forall i :: 0 <= i < k ==> pages[..k][i].Success?
    ensures |Flatten(pages[..k])| == PageSize * k
  {
    assert forall i :: 0 <= i < k ==> pages[..k][i].Success?;
    if k > 0 {
      FlattenFullPrefix(pages, total, k - 1);
      assert pages[..k] == pages[..k - 1] + [Success(pages[k - 1].value)];
      FlattenSnoc(pages[..k - 1], pages[k - 1].value);
      assert PageSize * (k + 1) <= PageSize * |pages|;
    }
  }

  /** Full sub-pages together hold every entry after the first page. */
  lemma FlattenFullPages(pages: seq<Result<Ladder>>, total: int)
    requires total > PageSize
    requires |pages| == SubPageCount(total) && FullPages(pages, total)
    ensures forall i :: 0 <= i < |pages| ==> pages[i].Success?
    ensures |Flatten(pages)| == total - PageSize
  {
    var n := |pages|;
    FlattenFullPrefix(pages, total, n - 1);
    assert pages == pages[..n - 1] + [Success(pages[n - 1].value)];
    FlattenSnoc(pages[..n - 1], pages[n - 1].value);
  }

  /**
   * How GetLadder assembles its result from the probe page and the page at
   * each offset: the probe's error; the probe itself when it holds the whole
   * ladder; otherwise the first failure among the sub-pages, or the probe's
   * metadata with only the sub-pages' entries.
   */
  function Assemble(first: Result<Ladder>, page: int -> Result<Ladder>): Result<Ladder>
  {
    match first
    case Failure(e) => Failure(e)
    case Success(probe) =>
      if probe.totalEntries <= PageSize then first
      else
        match Collect(SubPages(probe.totalEntries, page))
        case Failure(e) => Failure(e)
        case Success(entries) => Success(probe.(entries := entries))
  }

  /** Assemble with the probe page's entries kept in front of the sub-pages' entries. */
  function AssembleCorrected(first: Result<Ladder>, page: int -> Result<Ladder>): Result<Ladder>
  {
    match first
    case Failure(e) => Failure(e)
    case Success(probe) =>
      if probe.totalEntries <= PageSize then first
      else
        match Collect(SubPages(probe.totalEntries, page))
        case Failure(e) => Failure(e)
        case Success(entries) => Success(probe.(entries := probe.entries + entries))
  }

  /**
   * When every sub-page succeeds, the result is the probe's metadata with the
   * sub-pages' entries in offset order; otherwise it is the error of the first
   * sub-page that failed, and no partial ladder.
   */
  lemma AssembleFromSubPages(probe: Ladder, page: int -> Result<Ladder>)
    requires probe.totalEntries > PageSize
    ensures var pages := SubPages(probe.totalEntries, page);
            && ((forall k :: 0 <= k < |pages| ==> pages[k].Success?) ==>
                  Assemble(Success(probe), page) == Success(probe.(entries := Flatten(pages))))
            && (forall i :: 0 <= i < |pages| && pages[i].Failure? && (forall j :: 0 <= j < i ==> pages[j].Success?) ==>
                  Assemble(Success(probe), page) == Failure(pages[i].error))
  {
    var pages := SubPages(probe.totalEntries, page);
    if forall k :: 0 <= k < |pages| ==> pages[k].Success? {
      CollectAllSucceed(pages);
    }
    forall i | 0 <= i < |pages| && pages[i].Failure? && (forall j :: 0 <= j < i ==> pages[j].Success?)
      ensures Assemble(Success(probe), page) == Failure(pages[i].error)
    {
      CollectFirstFailure(pages, i);
    }
  }

  /**
   * As written, a complete ladder of more than 200 entries comes back 200
   * entries short: the probe page's entries are dropped.
   */
  lemma AssembleDropsProbe(probe: Ladder, page: int -> Result<Ladder>)
    requires probe.totalEntries > PageSize && |probe.entries| == PageSize
    requires FullPages(SubPages(probe.totalEntries, page), probe.totalEntries)
    ensures Assemble(Success(probe), page).Success?
    ensures |Assemble(Success(probe), page).value.entries| == probe.totalEntries - PageSize
  {
    var pages := SubPages(probe.totalEntries, page);
    FlattenFullPages(pages, probe.totalEntries);
    CollectAllSucceed(pages);
  }

  /**
   * Corrected, the same ladder comes back whole: the probe page's entries
   * first, then the sub-pages' in offset order, as many as the ladder's size.
   */
  lemma AssembleCorrectedComplete(probe: Ladder, page: int -> Result<Ladder>)
    requires probe.totalEntries > PageSize && |probe.entries| == PageSize
    requires FullPages(SubPages(probe.totalEntries, page), probe.totalEntries)
    ensures AssembleCorrected(Success(probe), page).Success?
    ensures var r := AssembleCorrected(Success(probe), page).value;
            && |r.entries| == r.totalEntries
            && r.entries[..PageSize] == probe.entries
            && r.entries[PageSize..] == Flatten(SubPages(probe.totalEntries, page))
  {
    var pages := SubPages(probe.totalEntries, page);
    FlattenFullPages(pages, probe.totalEntries);
    CollectAllSucceed(pages);
    assert (probe.entries + Flatten(pages))[..PageSize] == probe.entries;
    assert (probe.entries + Flatten(pages))[PageSize..] == Flatten(pages);
  }

  /**
   * The sub-page requests of GetLadder (`page` fetches the page at an
   * offset), made one after another in offset
   * order instead of concurrently: the entries of the successful pages are
   * appended in offset order and the first failure is kept.
   */
  method FetchSubPages(size: int, page: int -> Result<Ladder>)
    returns (r: Result<seq<LadderEntry>>, ghost requested: seq<int>)
    ensures r == Collect(SubPages(size, page))
    ensures requested == SubPageOffsets(size)
  {
    ghost var pages := SubPages(size, page);
    ghost var offs := SubPageOffsets(size);
    ghost var k := 0;
    var entries: seq<LadderEntry> := [];
    var failure: Option<Error> := None;
    requested := [];
    var i := PageSize;
    while i < size
      invariant 0 <= k <= |pages| && i == PageSize * (k + 1)
      invariant PageSize * k < size || k == 0
      invariant requested == offs[..k]
      invariant failure.None? ==> Collect(pages[..k]) == Success(entries)
      invariant failure.Some? ==> Collect(pages[..k]) == Failure(failure.value)
      decreases size - i
    {
      var result := page(i);
      CollectPrefixStep(pages, k);
      if result.Failure? {
        if failure.None? {
          failure := Some(result.error);
        }
      } else {
        entries := entries + result.value.entries;
      }
      assert offs[k] == i;
      assert offs[..k + 1] == offs[..k] + [offs[k]];
      requested := requested + [i];
      i := i + PageSize;
      k := k + 1;
    }
    assert pages[..k] == pages;
    assert offs[..k] == offs;
    if failure.Some? {
      return Failure(failure.value), requested;
    }
    return Success(entries), requested;
  }
}
