/**
 * The table of src/components/ui/datatable.tsx: a search over one column,
 * the page of rows shown, the page count, and the clamped page buttons.
 */
module DataTable {
  import opened Wrappers
  import Strings
  import Seqs

  /**
   * A row: its id and `String(row[key])` for each of its keys. A key the row
   * lacks reads as "undefined", as `String(undefined)` does.
   */
  datatype Row = Row(id: string, text: map<string, string>)

  function TextOf(row: Row, key: string): string
  {
    if key in row.text then row.text[key] else "undefined"
  }

  /** `String(row[searchKey]).toLowerCase().includes(search.toLowerCase())` */
  predicate Matches(row: Row, key: string, search: string)
  {
    Strings.Contains(Strings.Lower(TextOf(row, key)), Strings.Lower(search))
  }

  /** `filtered`: all rows without a search or a search key, otherwise the matching rows in order. */
  function Filtered(data: seq<Row>, search: string, searchKey: Option<string>): (r: seq<Row>)
    ensures search == "" || searchKey.None? || searchKey.value == "" ==> r == data
    ensures !(search == "" || searchKey.None? || searchKey.value == "") ==>
              forall row :: row in r <==> row in data && Matches(row, searchKey.value, search)
    ensures |r| <= |data|
  {
    if search == "" || searchKey.None? || searchKey.value == "" then data
    else Seqs.Filter(data, (row: Row) => Matches(row, searchKey.value, search))
  }

  /** A search never reorders: the rows it keeps from two halves come in the halves' order. */
  lemma FilteredKeepsOrder(a: seq<Row>, b: seq<Row>, search: string, searchKey: Option<string>)
    ensures Filtered(a + b, search, searchKey) == Filtered(a, search, searchKey) + Filtered(b, search, searchKey)
  {
    if !(search == "" || searchKey.None? || searchKey.value == "") {
      Seqs.FilterAppend(a, b, (row: Row) => Matches(row, searchKey.value, search));
    }
  }

  /** `filtered.slice(page * pageSize, (page + 1) * pageSize)` for a page that is not negative. */
  function Paged(filtered: seq<Row>, page: nat, pageSize: nat): (r: seq<Row>)
    ensures |r| <= pageSize
    ensures page * pageSize < |filtered| ==> r == filtered[page * pageSize..Min((page + 1) * pageSize, |filtered|)]
    ensures page * pageSize >= |filtered| ==> r == []
  {
    var start := page * pageSize;
    var end := (page + 1) * pageSize;
    if start >= |filtered| then [] else filtered[start..Min(end, |filtered|)]
  }

  function Min(a: int, b: int): int
  {
    if a < b then a else b
  }

  function Max(a: int, b: int): int
  {
    if a < b then b else a
  }

  /** `Math.ceil(n / pageSize)`: the fewest pages of `pageSize` rows that hold `n` rows. */
  function TotalPages(n: nat, pageSize: nat): (t: nat)
    requires pageSize >= 1
    ensures t * pageSize >= n
    ensures t > 0 ==> (t - 1) * pageSize < n
    ensures t == 0 <==> n == 0
  {
    (n + pageSize - 1) / pageSize
  }

  /** Every page before the last is full. */
  lemma FullPages(filtered: seq<Row>, page: nat, pageSize: nat)
    requires pageSize >= 1
    requires page + 1 < TotalPages(|filtered|, pageSize)
    ensures |Paged(filtered, page, pageSize)| == pageSize
  {
    var t := TotalPages(|filtered|, pageSize);
    assert (page + 1) * pageSize <= (t - 1) * pageSize by {
      MulMono(page + 1, t - 1, pageSize);
    }
  }

  lemma MulMono(a: nat, b: nat, k: nat)
    requires a <= b
    ensures a * k <= b * k
  {
  }

  /** "Showing from-to of n": the first and last row numbers shown. */
  function ShownRange(page: nat, pageSize: nat, n: nat): (r: (int, int))
  {
    (page * pageSize + 1, Min((page + 1) * pageSize, n))
  }

  /** On a page that holds rows, the range counts exactly the rows on it. */
  lemma RangeMatchesPage(filtered: seq<Row>, page: nat, pageSize: nat)
    requires pageSize >= 1 && page * pageSize < |filtered|
    ensures ShownRange(page, pageSize, |filtered|).1 - ShownRange(page, pageSize, |filtered|).0 + 1 == |Paged(filtered, page, pageSize)|
    ensures 1 <= ShownRange(page, pageSize, |filtered|).0 <= ShownRange(page, pageSize, |filtered|).1 <= |filtered|
  {
    assert (page + 1) * pageSize == page * pageSize + pageSize;
  }

  /** The table's state: `search` and `page`, over the rows and settings it is given. */
  class Table {
    var data: seq<Row>
    var search: string
    var page: int
    const searchKey: Option<string>
    const pageSize: nat

    ghost predicate Valid()
      reads this
    {
      page >= 0 && pageSize >= 1
    }

    /** `pageSize = 10` unless given; the table starts on page 0 with no search. */
    constructor(data: seq<Row>, searchKey: Option<string>, pageSize: nat)
      requires pageSize >= 1
      ensures Valid()
      ensures this.data == data && this.searchKey == searchKey && this.pageSize == pageSize
      ensures search == "" && page == 0
    {
      this.data := data;
      this.searchKey := searchKey;
      this.pageSize := pageSize;
      search := "";
      page := 0;
    }

    function Rows(): seq<Row>
      reads this
    {
      Filtered(data, search, searchKey)
    }

    function Pages(): nat
      reads this
      requires Valid()
    {
      TotalPages(|Rows()|, pageSize)
    }

    /** The pagination controls appear only when there is more than one page. */
    predicate ShowsControls()
      reads this
      requires Valid()
    {
      Pages() > 1
    }

    /** The search box's onChange: `setSearch(value)` then `setPage(0)`. */
    method SetSearch(value: string)
      requires Valid()
      modifies this
      ensures Valid()
      ensures search == value && page == 0 && data == old(data)
    {
      search := value;
      page := 0;
    }

    /** The previous button: disabled on page 0, otherwise `Math.max(0, p - 1)`. */
    method Previous()
      requires Valid()
      modifies this
      ensures Valid()
      ensures old(ShowsControls()) && old(page) > 0 ==> page == old(page) - 1
      ensures !(old(ShowsControls()) && old(page) > 0) ==> page == old(page)
      ensures search == old(search) && data == old(data)
    {
      if ShowsControls() && page != 0 {
        page := Max(0, page - 1);
      }
    }

    /** The next button: disabled from page `totalPages - 1` on, otherwise `Math.min(totalPages - 1, p + 1)`. */
    method Next()
      requires Valid()
      modifies this
      ensures Valid()
      ensures old(ShowsControls()) && old(page) < old(Pages()) - 1 ==> page == old(page) + 1 && page <= Pages() - 1
      ensures !(old(ShowsControls()) && old(page) < old(Pages()) - 1) ==> page == old(page)
      ensures search == old(search) && data == old(data)
    {
      if ShowsControls() && !(page >= Pages() - 1) {
        page := Min(Pages() - 1, page + 1);
      }
    }

    /** New rows from the parent; the page is kept. */
    method SetData(rows: seq<Row>)
      requires Valid()
      modifies this
      ensures Valid()
      ensures data == rows && search == old(search) && page == old(page)
    {
      data := rows;
    }
  }

  /** Previous and Next keep the page within 0 to `totalPages - 1` once it is there. */
  lemma ButtonsStayInRange(page: int, pages: nat)
    requires 0 <= page <= pages - 1
    ensures 0 <= Max(0, page - 1) <= pages - 1
    ensures page < pages - 1 ==> 0 <= Min(pages - 1, page + 1) <= pages - 1
  {
  }

  /** When the rows shrink under a later page, that page shows nothing until the search changes. */
  lemma StalePageEmpty(filtered: seq<Row>, page: nat, pageSize: nat)
    requires pageSize >= 1 && page >= TotalPages(|filtered|, pageSize)
    ensures Paged(filtered, page, pageSize) == []
  {
    var t := TotalPages(|filtered|, pageSize);
    MulMono(t, page, pageSize);
  }
}
