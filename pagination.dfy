/** Paging over the lead list: a fixed page size of five, the slice shown for
    the current (1-based) page, the number of page buttons, and when the Prev
    and Next buttons are disabled. */
module Pagination {
  import opened JsValues

  const PostsPerPage: nat := 5

  /** `leads.slice(indexOfFirstPost, indexOfLastPost)` for the given page. */
  function PageSlice<T>(leads: seq<T>, currentPage: int): (r: seq<T>)
    ensures |r| <= PostsPerPage
    ensures currentPage >= 1 ==>
      r == leads[Min((currentPage - 1) * PostsPerPage, |leads|)..Min(currentPage * PostsPerPage, |leads|)]
  {
    var indexOfLastPost := currentPage * PostsPerPage;
    var indexOfFirstPost := indexOfLastPost - PostsPerPage;
    Slice(leads, indexOfFirstPost, indexOfLastPost)
  }

  /** `Math.ceil(totalPosts / postsPerPage)`: the number of page buttons. */
  function PageCount(totalPosts: nat): (r: nat)
    ensures (r - 1) * PostsPerPage < totalPosts <= r * PostsPerPage
  {
    (totalPosts + PostsPerPage - 1) / PostsPerPage
  }

  /** The current page names one of the page buttons: equivalently, it is a
      page from 1 on whose first index still holds a lead. */
  predicate PageInRange(currentPage: int, totalPosts: nat)
    ensures PageInRange(currentPage, totalPosts) <==>
      1 <= currentPage && (currentPage - 1) * PostsPerPage < totalPosts
  {
    1 <= currentPage <= PageCount(totalPosts)
  }

  /** `disabled={currentPage === 1}` on Prev: from an in-range page, Prev is
      disabled exactly when the page before would be out of range. */
  predicate PrevDisabled(currentPage: int)
    ensures forall totalPosts: nat {:trigger PageInRange(currentPage - 1, totalPosts)} ::
      PageInRange(currentPage, totalPosts) ==>
        (PrevDisabled(currentPage) <==> !PageInRange(currentPage - 1, totalPosts))
  {
    currentPage == 1
  }

  /** `disabled={currentPage === Math.ceil(totalPosts / postsPerPage)}` on
      Next: disabled exactly on the page that holds the last lead (page 0 when
      there are none), and, from an in-range page, exactly when the page after
      would be out of range. */
  predicate NextDisabled(currentPage: int, totalPosts: nat)
    ensures NextDisabled(currentPage, totalPosts) <==>
      (currentPage - 1) * PostsPerPage < totalPosts <= currentPage * PostsPerPage
    ensures PageInRange(currentPage, totalPosts) ==>
      (NextDisabled(currentPage, totalPosts) <==> !PageInRange(currentPage + 1, totalPosts))
  {
    currentPage == PageCount(totalPosts)
  }

  /** The slices of pages 1..count, one after the other. */
  function Pages<T>(leads: seq<T>, count: nat): seq<T> {
    if count == 0 then [] else Pages(leads, count - 1) + PageSlice(leads, count)
  }

  lemma {:induction false} PagesPrefix<T>(leads: seq<T>, count: nat)
    ensures Pages(leads, count) == leads[..Min(count * PostsPerPage, |leads|)]
  {
    if count > 0 {
      PagesPrefix(leads, count - 1);
      var a, b := Min((count - 1) * PostsPerPage, |leads|), Min(count * PostsPerPage, |leads|);
      assert leads[..b] == leads[..a] + leads[a..b];
    }
  }

  /** Concatenating the pages named by the page buttons rebuilds the list
      exactly: nothing dropped, repeated or reordered. */
  lemma PagesRebuildLeads<T>(leads: seq<T>)
    ensures Pages(leads, PageCount(|leads|)) == leads
  {
    PagesPrefix(leads, PageCount(|leads|));
  }

  /** Every page that has a button shows at least one lead; the pages after it
      are empty. */
  lemma PageSliceOccupancy<T>(leads: seq<T>, currentPage: int)
    ensures currentPage >= 1 ==> (PageInRange(currentPage, |leads|) <==> |PageSlice(leads, currentPage)| >= 1)
    ensures 1 <= currentPage < PageCount(|leads|) ==> |PageSlice(leads, currentPage)| == PostsPerPage
  {
  }

  /** Enabled buttons keep the page in range: Prev from an in-range page other
      than the first, Next from one other than the last, and any numbered
      button. */
  lemma NavigationInRange(currentPage: int, totalPosts: nat, index: nat)
    requires PageInRange(currentPage, totalPosts)
    ensures !PrevDisabled(currentPage) ==> PageInRange(currentPage - 1, totalPosts)
    ensures !NextDisabled(currentPage, totalPosts) ==> PageInRange(currentPage + 1, totalPosts)
    ensures index < PageCount(totalPosts) ==> PageInRange(index + 1, totalPosts)
  {
  }

  /** Twelve leads make three pages: the first holds leads 1 to 5, the third
      only leads 11 and 12. */
  lemma TwelveLeads<T>(leads: seq<T>)
    requires |leads| == 12
    ensures PageCount(|leads|) == 3
    ensures PageSlice(leads, 1) == leads[..5]
    ensures PageSlice(leads, 3) == leads[10..]
  {
  }
}
