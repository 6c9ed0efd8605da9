/**
 * The vendor table of the admin dashboard: the fetched list shown in the
 * reverse of the server's order, the "Apply Filter" search over name, email and contact number,
 * ten rows per page with running row numbers, and the status badge and
 * action button of each row.
 */
module VendorList {
  import opened Wrappers
  import opened Text
  import Seqs
  import opened VendorRecords
  import AuthController

  /** Rows per page; the component never changes it. */
  const ItemsPerPage: nat := 10

  // ---------------------------------------------------------------------
  // Display order

  /** The fetched list as the table keeps it: the server's order reversed. */
  function DisplayOrder(vendors: seq<Listing>): seq<Listing>
  {
    Seqs.Reverse(vendors)
  }

  /**
   * The table shows the last row the server returned first, and so on: the
   * same rows, each once, in the opposite order.
   */
  lemma DisplayOrderIsReversed(vendors: seq<Listing>)
    ensures |DisplayOrder(vendors)| == |vendors|
    ensures forall k :: 0 <= k < |vendors| ==> DisplayOrder(vendors)[k] == vendors[|vendors| - 1 - k]
    ensures multiset(DisplayOrder(vendors)) == multiset(vendors)
    ensures Seqs.Reverse(DisplayOrder(vendors)) == vendors
  {
    forall k | 0 <= k < |vendors|
      ensures DisplayOrder(vendors)[k] == vendors[|vendors| - 1 - k]
    {
      Seqs.ReverseAt(vendors, k);
    }
    Seqs.ReverseSameElements(vendors);
    Seqs.ReverseInvolutive(vendors);
  }

  // ---------------------------------------------------------------------
  // Filtering

  /** A non-empty name or email whose lower case includes the lower-cased filter. */
  predicate MatchesNameOrEmail(v: Listing, filter: string)
  {
    var needle := LowerAscii(filter);
    || (v.profile.name != "" && Contains(LowerAscii(v.profile.name), needle))
    || (v.profile.email != "" && Contains(LowerAscii(v.profile.email), needle))
  }

  /** A non-empty contact number that includes the filter as typed. */
  predicate MatchesContact(v: Listing, filter: string)
  {
    v.profile.contactNumber != "" && Contains(v.profile.contactNumber, filter)
  }

  /** The row test of the filter. */
  predicate MatchesFilter(v: Listing, filter: string)
  {
    MatchesNameOrEmail(v, filter) || MatchesContact(v, filter)
  }

  /** The rows the filter keeps, in their order. */
  function FilterVendors(users: seq<Listing>, filter: string): seq<Listing>
  {
    Seqs.Filter((v: Listing) => MatchesFilter(v, filter), users)
  }

  /**
   * The filter keeps exactly the matching rows, each as often as it occurs,
   * and in their relative order.
   */
  lemma FilterVendorsKeepsExactlyMatches(users: seq<Listing>, filter: string)
    ensures forall v :: v in FilterVendors(users, filter) <==> v in users && MatchesFilter(v, filter)
    ensures forall v :: multiset(FilterVendors(users, filter))[v] ==
                        if MatchesFilter(v, filter) then multiset(users)[v] else 0
    ensures Seqs.IsSubsequence(FilterVendors(users, filter), users)
  {
    var p := (v: Listing) => MatchesFilter(v, filter);
    Seqs.FilterCounts(p, users);
    forall v
      ensures v in FilterVendors(users, filter) <==> v in users && MatchesFilter(v, filter)
    {
      Seqs.FilterMembership(p, users, v);
    }
    Seqs.FilterIsSubsequence(p, users);
  }

  /**
   * Name and email are matched without regard to ASCII case: typing the
   * filter in upper case finds the same names and emails.
   */
  lemma NameAndEmailMatchIgnoresCase(v: Listing, filter: string)
    ensures MatchesNameOrEmail(v, UpperAscii(filter)) <==> MatchesNameOrEmail(v, filter)
  {
    LowerAsciiIgnoresCase(filter);
  }

  /**
   * An empty filter keeps every row with a non-empty name, email or contact
   * number, and only those.
   */
  lemma EmptyFilterKeepsFilledRows(v: Listing)
    ensures MatchesFilter(v, "") <==> v.profile.name != "" || v.profile.email != "" || v.profile.contactNumber != ""
  {
    assert LowerAscii("") == "";
    ContainsTrivially(LowerAscii(v.profile.name));
    ContainsTrivially(LowerAscii(v.profile.email));
    ContainsTrivially(v.profile.contactNumber);
  }

  // ---------------------------------------------------------------------
  // Paging

  /** Where a JavaScript `slice` bound lands in a sequence of length `len`. */
  function ClampIndex(i: int, len: nat): (r: nat)
    ensures r <= len
    ensures 0 <= i <= len ==> r == i
    ensures i > len ==> r == len
    ensures i < 0 ==> r == if len + i < 0 then 0 else len + i
  {
    if i < 0 then (if len + i < 0 then 0 else len + i)
    else if i > len then len
    else i
  }

  /** JavaScript's `s.slice(start, end)`. */
  function JsSlice<T>(s: seq<T>, start: int, end: int): seq<T>
  {
    var b := ClampIndex(start, |s|);
    var e := ClampIndex(end, |s|);
    if b < e then s[b..e] else []
  }

  /** The index of the first row of page `page`. */
  function PageStart(page: int): int
  {
    page * ItemsPerPage - ItemsPerPage
  }

  /** The rows page `page` shows. */
  function PageItems<T>(data: seq<T>, page: int): seq<T>
  {
    JsSlice(data, PageStart(page), page * ItemsPerPage)
  }

  /** The number of pages, `Math.ceil(n / 10)`. */
  function TotalPages(n: nat): nat
  {
    (n + ItemsPerPage - 1) / ItemsPerPage
  }

  /** The page count is the ceiling of `n / 10`: enough pages, and no page to spare. */
  lemma TotalPagesIsCeiling(n: nat)
    ensures TotalPages(n) * ItemsPerPage >= n
    ensures TotalPages(n) == 0 <==> n == 0
    ensures TotalPages(n) > 0 ==> (TotalPages(n) - 1) * ItemsPerPage < n
  {
  }

  /**
   * Page `page` shows the window of at most ten rows starting at
   * `(page - 1) * 10`, cut short by the end of the list.
   */
  lemma PageItemsWindow<T>(data: seq<T>, page: int)
    requires page >= 1
    ensures |PageItems(data, page)| <= ItemsPerPage
    ensures |PageItems(data, page)| ==
            if |data| <= PageStart(page) then 0
            else if |data| - PageStart(page) < ItemsPerPage then |data| - PageStart(page)
            else ItemsPerPage
    ensures forall k :: 0 <= k < |PageItems(data, page)| ==> PageItems(data, page)[k] == data[PageStart(page) + k]
  {
  }

  /**
   * Every row of the list is on exactly one page, page `i / 10 + 1`, which is
   * one of the pages counted, at position `i % 10`.
   */
  lemma EveryRowOnExactlyOnePage<T>(data: seq<T>, i: int)
    requires 0 <= i < |data|
    ensures 1 <= i / ItemsPerPage + 1 <= TotalPages(|data|)
    ensures forall page :: page >= 1 ==>
              (PageStart(page) <= i < PageStart(page) + |PageItems(data, page)| <==> page == i / ItemsPerPage + 1)
    ensures PageItems(data, i / ItemsPerPage + 1)[i % ItemsPerPage] == data[i]
  {
    var p := i / ItemsPerPage + 1;
    PageItemsWindow(data, p);
    assert PageStart(p) + i % ItemsPerPage == i;
    forall page | page >= 1
      ensures PageStart(page) <= i < PageStart(page) + |PageItems(data, page)| <==> page == p
    {
      PageItemsWindow(data, page);
    }
  }

  /** Pages from 1 up to the page count are never empty; the pages after them always are. */
  lemma WhichPagesHaveRows<T>(data: seq<T>, page: int)
    requires page >= 1
    ensures PageItems(data, page) == [] <==> page > TotalPages(|data|)
  {
    PageItemsWindow(data, page);
  }

  /** The number in the "Sr No" column of the row at `index` on page `page`. */
  function RowNumber(page: int, index: int): int
  {
    PageStart(page) + index + 1
  }

  /**
   * Row numbers count the rows of the filtered list from 1: the row numbered
   * `n` is the list's `n`-th row, so numbers on a page run consecutively from
   * `(page - 1) * 10 + 1`.
   */
  lemma RowNumbersCountRows<T>(data: seq<T>, page: int, index: int)
    requires page >= 1
    requires 0 <= index < |PageItems(data, page)|
    ensures 1 <= RowNumber(page, index) <= |data|
    ensures data[RowNumber(page, index) - 1] == PageItems(data, page)[index]
    ensures RowNumber(page, index) == (page - 1) * ItemsPerPage + 1 + index
  {
    PageItemsWindow(data, page);
  }

  // ---------------------------------------------------------------------
  // Status badge and row action

  /** The text of the status badge. */
  function StatusLabel(v: Listing): string
  {
    if v.isActive then "Active" else "Inactive"
  }

  /** The status button a row offers besides "Edit". */
  datatype RowAction = OfferDeactivation | OfferReactivation

  function ActionFor(v: Listing): RowAction
  {
    if v.isActive then OfferDeactivation else OfferReactivation
  }

  /** A row offers deactivation exactly when its badge says "Active", and that is exactly `is_active`. */
  lemma BadgeAndActionAgree(v: Listing)
    ensures StatusLabel(v) == "Active" <==> v.isActive
    ensures StatusLabel(v) == "Inactive" <==> !v.isActive
    ensures ActionFor(v) == OfferDeactivation <==> v.isActive
    ensures ActionFor(v) == OfferReactivation <==> !v.isActive
  {
    assert "Active" != "Inactive";
  }

  /**
   * For a row the handlers keep coherent, the offered deactivation is always
   * accepted by the server, and the offered reactivation is accepted unless
   * one is already pending.
   */
  lemma OfferedActionMatchesServer(id: int, v: Vendor)
    requires Coherent(v)
    ensures ActionFor(ListingOf(id, v)) == OfferDeactivation ==> DeactivationRefusal(v) == None
    ensures ActionFor(ListingOf(id, v)) == OfferReactivation ==>
              (ReactivationRefusal(v) == None <==> v.status != PendingActivation)
  {
  }

  // ---------------------------------------------------------------------
  // Pagination buttons

  /** "Previous" is disabled on the first page. */
  predicate PreviousDisabled(currentPage: int)
  {
    currentPage == 1
  }

  /** "Next" as the component writes it: disabled only when on the last page exactly. */
  predicate NextDisabledAsWritten(currentPage: int, totalPages: nat)
  {
    currentPage == totalPages
  }

  /** The page number after pressing "Previous" or "Next" as the component writes the buttons. */
  function AfterPressAsWritten(currentPage: int, totalPages: nat, next: bool): int
  {
    if next then (if NextDisabledAsWritten(currentPage, totalPages) then currentPage else currentPage + 1)
    else (if PreviousDisabled(currentPage) then currentPage else currentPage - 1)
  }

  /**
   * With an empty list there are no pages, so "Next" as written is never
   * disabled and pages past the end can be reached.
   */
  lemma NextAsWrittenLeavesEmptyList()
    ensures !NextDisabledAsWritten(1, TotalPages(0))
    ensures PageItems<Listing>([], 2) == []
    ensures 2 > TotalPages(0)
  {
  }

  /**
   * On an empty list every press of "Next" as written advances the page,
   * each time to an empty page beyond the page count.
   */
  lemma NextAsWrittenRunsPastEnd(currentPage: int)
    requires currentPage >= 1
    ensures AfterPressAsWritten(currentPage, TotalPages(0), true) == currentPage + 1
    ensures currentPage + 1 > TotalPages(0)
    ensures PageItems<Listing>([], currentPage + 1) == []
  {
  }

  /** "Next" disabled on the last page and on every page after it. */
  predicate NextDisabled(currentPage: int, totalPages: nat)
  {
    currentPage >= totalPages
  }

  /** The page number after pressing "Previous" or "Next" with the corrected rule. */
  function AfterPress(currentPage: int, totalPages: nat, next: bool): int
  {
    if next then (if NextDisabled(currentPage, totalPages) then currentPage else currentPage + 1)
    else (if PreviousDisabled(currentPage) then currentPage else currentPage - 1)
  }

  /**
   * With the corrected rule the buttons keep the page between 1 and the
   * last page (page 1 when there are none), whatever is pressed.
   */
  lemma PressKeepsPageInRange(currentPage: int, totalPages: nat, next: bool)
    requires 1 <= currentPage
    requires currentPage <= totalPages || currentPage == 1
    ensures 1 <= AfterPress(currentPage, totalPages, next)
    ensures AfterPress(currentPage, totalPages, next) <= totalPages || AfterPress(currentPage, totalPages, next) == 1
  {
  }

  /** With the corrected rule, a press from a page in range lands on page 1 or on a page with rows. */
  lemma PressedPageShowsRowsOrIsFirst<T>(data: seq<T>, currentPage: int, next: bool)
    requires 1 <= currentPage
    requires currentPage <= TotalPages(|data|) || currentPage == 1
    ensures var p := AfterPress(currentPage, TotalPages(|data|), next);
            p == 1 || PageItems(data, p) != []
  {
    var p := AfterPress(currentPage, TotalPages(|data|), next);
    PressKeepsPageInRange(currentPage, TotalPages(|data|), next);
    WhichPagesHaveRows(data, p);
  }

  // ---------------------------------------------------------------------
  // Live refresh

  /** The socket event the component subscribes to. */
  const ListenedEventAsWritten := "vendorUpdated"

  /** No event the server emits has the name the component listens for. */
  lemma NoServerEventIsHeard(e: AuthController.Event)
    ensures AuthController.EventName(e) != ListenedEventAsWritten
  {
    assert AuthController.EventName(e)[6] == '_';
  }

  /** The names the table refreshes on: the ones the server emits. */
  predicate RefreshesOn(name: string)
  {
    name == "vendor_added" || name == "vendor_updated" || name == "vendor_status_changed"
  }

  /** Every event the server emits makes the table refresh. */
  lemma EveryServerEventIsHeard(e: AuthController.Event)
    ensures RefreshesOn(AuthController.EventName(e))
  {
  }

  // ---------------------------------------------------------------------
  // The component's state

  /** The state of the vendor table and the effect of each user action on it. */
  class VendorTable {
    var usersData: seq<Listing>
    var filteredData: seq<Listing>
    var currentPage: int
    var filter: string

    /** The page is at least 1, and the shown list is drawn from the fetched one in order. */
    ghost predicate Valid()
      reads this
    {
      1 <= currentPage && Seqs.IsSubsequence(filteredData, usersData)
    }

    constructor ()
      ensures Valid()
      ensures usersData == [] && filteredData == [] && currentPage == 1 && filter == ""
    {
      usersData, filteredData, currentPage, filter := [], [], 1, "";
    }

    /** The rows on the current page. */
    function CurrentUsers(): seq<Listing>
      reads this
    {
      PageItems(filteredData, currentPage)
    }

    /**
     * A completed fetch: on success both lists become the fetched list in
     * display order (the filter is not re-applied); on failure nothing changes.
     */
    method Fetched(response: Option<seq<Listing>>)
      requires Valid()
      modifies this
      ensures Valid()
      ensures response.Some? ==> usersData == DisplayOrder(response.value) && filteredData == usersData
      ensures response.None? ==> usersData == old(usersData) && filteredData == old(filteredData)
      ensures currentPage == old(currentPage) && filter == old(filter)
    {
      if response.Some? {
        usersData := DisplayOrder(response.value);
        filteredData := usersData;
        Seqs.SubsequenceReflexive(usersData);
      }
    }

    /** A socket event: the table refetches only on the event name it subscribes to. */
    method Notified(name: string, response: Option<seq<Listing>>)
      requires Valid()
      modifies this
      ensures Valid()
      ensures name == ListenedEventAsWritten && response.Some? ==>
                usersData == DisplayOrder(response.value) && filteredData == usersData
      ensures name != ListenedEventAsWritten || response.None? ==>
                usersData == old(usersData) && filteredData == old(filteredData)
      ensures currentPage == old(currentPage) && filter == old(filter)
    {
      if name == ListenedEventAsWritten {
        Fetched(response);
      }
    }

    /** Typing in the filter box only changes the filter text. */
    method Typed(text: string)
      requires Valid()
      modifies this
      ensures Valid()
      ensures filter == text
      ensures usersData == old(usersData) && filteredData == old(filteredData) && currentPage == old(currentPage)
    {
      filter := text;
    }

    /** "Apply Filter": the shown list becomes the matching fetched rows, from page 1. */
    method ApplyFilter()
      requires Valid()
      modifies this
      ensures Valid()
      ensures filteredData == FilterVendors(usersData, filter)
      ensures currentPage == 1
      ensures usersData == old(usersData) && filter == old(filter)
    {
      filteredData := FilterVendors(usersData, filter);
      currentPage := 1;
      FilterVendorsKeepsExactlyMatches(usersData, filter);
    }

    /** "Previous" or "Next" as the component writes them; a disabled button does nothing. */
    method Pressed(next: bool)
      requires Valid()
      modifies this
      ensures Valid()
      ensures currentPage == AfterPressAsWritten(old(currentPage), TotalPages(|filteredData|), next)
      ensures usersData == old(usersData) && filteredData == old(filteredData) && filter == old(filter)
    {
      var totalPages := TotalPages(|filteredData|);
      if next && !NextDisabledAsWritten(currentPage, totalPages) {
        currentPage := currentPage + 1;
      } else if !next && !PreviousDisabled(currentPage) {
        currentPage := currentPage - 1;
      }
    }
  }
}
