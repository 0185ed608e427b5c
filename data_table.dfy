/**
 * The generic table component of the frontend: the client-side search over
 * chosen keys, the sort-direction toggle, the "showing a to b of n" range,
 * the enabled state of the page buttons, and which of the error box, the
 * loading row, the empty message or the rows it shows.
 */
module DataTable {
  import opened Wrappers
  import opened Strings
  import opened Js
  import opened Seqs

  /** A row of `data`: its keys and their values; a missing key is `undefined`. */
  type Item = map<string, Json>

  // ---------------------------------------------------------------- search

  /** `value === null || value === undefined ? false : String(value).toLowerCase().includes(searchTerm.toLowerCase())`. */
  predicate ValueMatches(v: Option<Json>, term: string) {
    match v
    case None => false
    case Some(JNull) => false
    case Some(x) => Contains(ToLower(ToJsString(x)), ToLower(term))
  }

  /** `searchKeys.some(key => ...)`: whether the value under some key matches. */
  function SomeKeyMatches(item: Item, keys: seq<string>, term: string): (b: bool)
    ensures b <==> exists i :: 0 <= i < |keys| && ValueMatches(Field(item, keys[i]), term)
    decreases |keys|
  {
    if |keys| == 0 then false
    else if ValueMatches(Field(item, keys[0]), term) then
      assert ValueMatches(Field(item, keys[0]), term);
      true
    else
      var rest := SomeKeyMatches(item, keys[1..], term);
      assert forall i :: 1 <= i < |keys| ==> keys[i] == keys[1..][i - 1];
      rest
  }

  function Matches(keys: seq<string>, term: string): Item -> bool {
    (item: Item) => SomeKeyMatches(item, keys, term)
  }

  /**
   * `filteredData`: `data` itself for an empty term or no search keys,
   * otherwise the items, in their order, some key of which matches.
   */
  function FilteredData(data: seq<Item>, term: string, keys: seq<string>): (r: seq<Item>)
    ensures term == "" || |keys| == 0 ==> r == data
    ensures |r| <= |data|
  {
    if term == "" || |keys| == 0 then data else Filter(data, Matches(keys, term))
  }

  /** With a term and keys, an item is shown exactly when it is in `data` and some key's value contains the term, case aside. */
  lemma FilteredMembership(data: seq<Item>, term: string, keys: seq<string>, x: Item)
    requires term != "" && |keys| > 0
    ensures x in FilteredData(data, term, keys) <==>
      x in data && exists i :: 0 <= i < |keys| && ValueMatches(Field(x, keys[i]), term)
  {
    var r := FilteredData(data, term, keys);
    if x in data && SomeKeyMatches(x, keys, term) {
      var j :| 0 <= j < |data| && data[j] == x;
      assert Matches(keys, term)(data[j]);
    }
    if x in r {
      var j :| 0 <= j < |r| && r[j] == x;
      assert Matches(keys, term)(r[j]);
    }
  }

  /** The shown items are `data` with some items left out and the others in their order. */
  lemma FilteredIsSubsequence(data: seq<Item>, term: string, keys: seq<string>)
    ensures Subsequence(FilteredData(data, term, keys), data)
  {
    if term == "" || |keys| == 0 {
      SubsequenceRefl(data);
    } else {
      FilterSubsequence(data, Matches(keys, term));
    }
  }

  lemma {:induction false} SubsequenceRefl<T>(s: seq<T>)
    ensures Subsequence(s, s)
    decreases |s|
  {
    if |s| > 0 {
      SubsequenceRefl(s[1..]);
    }
  }

  /** An item whose searched values are all `null` or `undefined` is never shown once there is a term. */
  lemma NullsNeverMatch(data: seq<Item>, term: string, keys: seq<string>, x: Item)
    requires term != "" && |keys| > 0
    requires forall i :: 0 <= i < |keys| ==> Field(x, keys[i]) in {None, Some(JNull)}
    ensures x !in FilteredData(data, term, keys)
  {
    FilteredMembership(data, term, keys, x);
    forall i | 0 <= i < |keys| ensures !ValueMatches(Field(x, keys[i]), term) {
    }
  }

  /** The search ignores the case of the term: lower-casing it first changes nothing. */
  lemma SearchIgnoresTermCase(data: seq<Item>, term: string, keys: seq<string>)
    ensures FilteredData(data, ToLower(term), keys) == FilteredData(data, term, keys)
  {
    ToLowerIdempotent(term);
    if term != "" && |keys| > 0 {
      assert ToLower(term) != "" by { assert |ToLower(term)| == |term|; }
      forall i | 0 <= i < |data| ensures Matches(keys, ToLower(term))(data[i]) == Matches(keys, term)(data[i]) {
        forall j | 0 <= j < |keys| ensures ValueMatches(Field(data[i], keys[j]), ToLower(term)) == ValueMatches(Field(data[i], keys[j]), term) {
        }
      }
      FilterCongruent(data, Matches(keys, ToLower(term)), Matches(keys, term));
    } else if term == "" {
      assert ToLower(term) == "";
    }
  }

  // ---------------------------------------------------------------- sorting

  datatype SortOrder = Asc | Desc

  /** The `sorting` prop without its callback: the current key and direction. */
  datatype Sorting = Sorting(sortBy: string, sortOrder: SortOrder)

  /** `sortBy === key && sortOrder === 'asc' ? 'desc' : 'asc'`. */
  function NewOrder(s: Sorting, key: string): (o: SortOrder)
    ensures o == Desc <==> s.sortBy == key && s.sortOrder == Asc
  {
    if s.sortBy == key && s.sortOrder == Asc then Desc else Asc
  }

  /** `handleSort(key)`: the `onSort(key, order)` call it makes, none without a `sorting` prop. */
  function HandleSort(sorting: Option<Sorting>, key: string): (call: Option<Sorting>)
    ensures call.None? <==> sorting.None?
    ensures call.Some? ==> call.value.sortBy == key && call.value.sortOrder == NewOrder(sorting.value, key)
  {
    if sorting.None? then None else Some(Sorting(key, NewOrder(sorting.value, key)))
  }

  /**
   * When the parent stores what `onSort` hands it, clicking the sorted column
   * twice restores the direction, and clicking another column twice ends
   * descending on it.
   */
  lemma ClickTwice(s: Sorting, key: string)
    ensures var twice := HandleSort(HandleSort(Some(s), key), key).value;
      if s.sortBy == key then twice == s else twice == Sorting(key, Desc)
  {
  }

  /** The icon beside a sortable header. */
  datatype SortIcon = IdleUp | ActiveUp | ActiveDown

  /** `getSortIcon(key)`: grey for an unsorted column, else the direction. */
  function SortIconOf(sorting: Option<Sorting>, key: string): (i: SortIcon)
    ensures i == IdleUp <==> sorting.None? || sorting.value.sortBy != key
    ensures i == ActiveDown <==> sorting.Some? && sorting.value.sortBy == key && sorting.value.sortOrder == Desc
  {
    if sorting.None? || sorting.value.sortBy != key then IdleUp
    else match sorting.value.sortOrder
      case Asc => ActiveUp
      case Desc => ActiveDown
  }

  /** After a click is stored, the clicked column's icon shows the direction handed to `onSort`. */
  lemma IconFollowsClick(s: Sorting, key: string)
    ensures SortIconOf(HandleSort(Some(s), key), key) == if NewOrder(s, key) == Asc then ActiveUp else ActiveDown
  {
  }

  // ---------------------------------------------------------------- pagination

  function Min(a: int, b: int): int { if a <= b then a else b }

  /** `Math.min((page - 1) * pageSize + 1, total)`. */
  function RangeStart(page: int, pageSize: int, total: int): int {
    Min((page - 1) * pageSize + 1, total)
  }

  /** `Math.min(page * pageSize, total)`. */
  function RangeEnd(page: int, pageSize: int, total: int): int {
    Min(page * pageSize, total)
  }

  /** With a positive page size the range never runs backwards, on any page. */
  lemma RangeOrdered(page: int, pageSize: int, total: int)
    requires pageSize >= 1
    ensures RangeStart(page, pageSize, total) <= RangeEnd(page, pageSize, total)
  {
    assert (page - 1) * pageSize + 1 == page * pageSize - pageSize + 1;
  }

  /** `disabled={page <= 1}`. */
  predicate PreviousDisabled(page: int) { page <= 1 }

  /**
   * `disabled={page >= Math.ceil(total / pageSize)}`. A zero page size makes
   * the quotient `Infinity` or `NaN`, and the comparison is then false.
   */
  predicate NextDisabled(page: int, pageSize: nat, total: nat) {
    pageSize >= 1 && page >= CeilDiv(total, pageSize)
  }

  /**
   * Against the server's listing of the same rows: Next is enabled exactly
   * when the following page has rows.
   */
  lemma NextEnabledIffMoreRows<T>(matching: seq<T>, page: nat, limit: nat)
    requires page >= 1 && limit >= 1
    ensures !NextDisabled(page, limit, |matching|) <==> |ListPage(matching, page + 1, limit).data| > 0
  {
    ListPageNonEmptyIff(matching, page + 1, limit);
  }

  /** On a page that has rows, the range counts exactly the rows the server sends for it. */
  lemma RangeCountsPageRows<T>(matching: seq<T>, page: nat, limit: nat)
    requires page >= 1 && limit >= 1
    requires |ListPage(matching, page, limit).data| > 0
    ensures RangeEnd(page, limit, |matching|) - RangeStart(page, limit, |matching|) + 1 == |ListPage(matching, page, limit).data|
    ensures RangeStart(page, limit, |matching|) == Skip(page, limit) + 1
  {
    var skip := Skip(page, limit);
    assert ListPage(matching, page, limit).data == Page(Reverse(matching), skip, limit);
    assert skip < |matching|;
    assert page * limit == skip + limit;
  }

  // ---------------------------------------------------------------- what is shown

  /** The body of the table. */
  datatype Body = LoadingRow | EmptyRow(message: string) | Rows(items: seq<Item>)

  /** The whole component: the error box alone, or the table with its optional search bar and pager. */
  datatype View = ErrorBox(message: string) | Table(searchBar: bool, body: Body, pager: bool)

  /**
   * The component's output: a truthy `error` replaces everything; otherwise
   * the table shows the spinner row while loading, the empty message when
   * nothing is left after the search, and the remaining rows otherwise.
   */
  function Render(data: seq<Item>, term: string, keys: seq<string>, loading: bool, error: Option<string>,
                  searchable: bool, hasPagination: bool, emptyMessage: string): (v: View)
    ensures v.ErrorBox? <==> TruthyStr(error)
    ensures v.ErrorBox? ==> v.message == error.value
    ensures v.Table? ==> v.searchBar == searchable && v.pager == hasPagination
    ensures v.Table? ==> (v.body.LoadingRow? <==> loading)
    ensures v.Table? && v.body.EmptyRow? ==> v.body.message == emptyMessage && FilteredData(data, term, keys) == []
    ensures v.Table? && v.body.Rows? ==> v.body.items == FilteredData(data, term, keys) && |v.body.items| > 0
  {
    if TruthyStr(error) then ErrorBox(error.value)
    else
      var filtered := FilteredData(data, term, keys);
      Table(searchable, if loading then LoadingRow else if |filtered| == 0 then EmptyRow(emptyMessage) else Rows(filtered), hasPagination)
  }

  /** Loading wins over the empty message and over the rows, whatever the data. */
  lemma LoadingHidesData(data1: seq<Item>, data2: seq<Item>, term: string, keys: seq<string>, searchable: bool,
                         hasPagination: bool, emptyMessage: string)
    ensures Render(data1, term, keys, true, None, searchable, hasPagination, emptyMessage)
         == Render(data2, term, keys, true, None, searchable, hasPagination, emptyMessage)
  {
  }

  /** Without a search term every row of `data` is shown. */
  lemma NoTermShowsAll(data: seq<Item>, keys: seq<string>, searchable: bool, hasPagination: bool, emptyMessage: string)
    requires |data| > 0
    ensures Render(data, "", keys, false, None, searchable, hasPagination, emptyMessage).body == Rows(data)
  {
  }
}
