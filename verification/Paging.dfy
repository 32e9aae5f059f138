/**
 * Listing notifications page by page, newest first. The cursor carries a timestamp
 * cut to milliseconds, while the rows are stamped in microseconds; which rows that
 * can lose, and that nothing is ever listed twice, is settled here.
 */
module Paging {
  import opened Wrappers
  import opened Lifecycle

  /** What the list looks at; instants are microseconds. */
  datatype Row = Row(application: nat, createdAt: nat, status: Status, recipient: string, templateId: Option<nat>)

  type Table = map<nat, Row>

  /** An application lists its own; absent filters match everything, an empty set of statuses counts as absent. */
  datatype Filters = Filters(
    application: nat,
    statuses: set<Status>,
    recipient: Option<string>,
    templateId: Option<nat>,
    createdBefore: Option<nat>)

  datatype Key = Key(createdAt: nat, id: nat)

  datatype Page = Page(items: seq<Key>, nextCursor: Option<Key>)

  predicate Matches(row: Row, filters: Filters) {
    && row.application == filters.application
    && (filters.statuses != {} ==> row.status in filters.statuses)
    && (filters.recipient.Some? ==> row.recipient == filters.recipient.value)
    && (filters.templateId.Some? ==> row.templateId == filters.templateId)
    && (filters.createdBefore.Some? ==> row.createdAt < filters.createdBefore.value)
  }

  function View(table: Table, filters: Filters): set<Key> {
    set id | id in table && Matches(table[id], filters) :: Key(table[id].createdAt, id)
  }

  /** Newest first, the identifier breaking ties. */
  predicate Precedes(a: Key, b: Key) {
    a.createdAt > b.createdAt || (a.createdAt == b.createdAt && a.id > b.id)
  }

  /** A cursor keeps whole milliseconds only. */
  function CursorOf(last: Key): Key {
    last.(createdAt := last.createdAt - last.createdAt % 1000)
  }

  predicate IsAfter(cursor: Option<Key>, key: Key) {
    cursor.Some? ==> Precedes(cursor.value, key)
  }

  function After(view: set<Key>, cursor: Option<Key>): set<Key> {
    set key | key in view && IsAfter(cursor, key)
  }

  // ----- ordering a view -----

  predicate IsFirst(key: Key, keys: set<Key>) {
    key in keys && forall other :: other in keys && other != key ==> Precedes(key, other)
  }

  lemma {:induction false} FirstExists(keys: set<Key>)
    requires keys != {}
    ensures exists key :: IsFirst(key, keys)
    decreases |keys|
  {
    var some :| some in keys;
    var rest := keys - {some};
    if rest == {} {
      assert forall other :: other in keys ==> other == some || other in rest;
      assert IsFirst(some, keys);
    } else {
      FirstExists(rest);
      var key :| IsFirst(key, rest);
      var first := if Precedes(key, some) then key else some;
      assert forall other :: other in keys ==> other == some || other in rest;
      assert IsFirst(first, keys);
    }
  }

  function First(keys: set<Key>): (first: Key)
    requires keys != {}
    ensures IsFirst(first, keys)
  {
    FirstExists(keys);
    var key :| key in keys && IsFirst(key, keys);
    key
  }

  /** All of a view in list order. */
  function Listing(keys: set<Key>): seq<Key>
    decreases |keys|
  {
    if keys == {} then [] else [First(keys)] + Listing(keys - {First(keys)})
  }

  ghost predicate IsDescending(items: seq<Key>) {
    forall i, j :: 0 <= i < j < |items| ==> Precedes(items[i], items[j])
  }

  function KeysOf(items: seq<Key>): set<Key> {
    set key | key in items
  }

  lemma Prepend(first: Key, items: seq<Key>)
    requires IsDescending(items) && forall key :: key in KeysOf(items) ==> Precedes(first, key)
    ensures IsDescending([first] + items) && KeysOf([first] + items) == {first} + KeysOf(items)
  {
    assert forall i :: 0 <= i < |items| ==> items[i] in KeysOf(items);
  }

  lemma {:induction false} ListingIsSorted(keys: set<Key>)
    ensures IsDescending(Listing(keys)) && KeysOf(Listing(keys)) == keys && |Listing(keys)| == |keys|
    decreases |keys|
  {
    if keys != {} {
      var rest := keys - {First(keys)};
      ListingIsSorted(rest);
      Prepend(First(keys), Listing(rest));
    }
  }

  lemma FirstOfSorted(items: seq<Key>)
    requires items != [] && IsDescending(items)
    ensures KeysOf(items) != {} && First(KeysOf(items)) == items[0]
    ensures KeysOf(items) - {items[0]} == KeysOf(items[1..])
  {
    var keys := KeysOf(items);
    assert items[0] in keys;
    assert keys == {items[0]} + KeysOf(items[1..]);
    assert IsFirst(items[0], keys);
  }

  /** Only one list holds a view in order. */
  lemma {:induction false} SortedIsListing(items: seq<Key>)
    requires IsDescending(items)
    ensures items == Listing(KeysOf(items))
    decreases |items|
  {
    if items == [] {
      assert KeysOf(items) == {};
    } else {
      FirstOfSorted(items);
      SortedIsListing(items[1..]);
    }
  }

  // ----- pages -----

  /** One query: a row more than the limit tells whether a further page exists. */
  function PageOf(view: set<Key>, cursor: Option<Key>, limit: nat): Page
    requires limit >= 1
  {
    var listing := Listing(After(view, cursor));
    var rows := if |listing| <= limit + 1 then listing else listing[..limit + 1];
    if |rows| > limit then Page(rows[..limit], Some(CursorOf(rows[limit - 1]))) else Page(rows, None)
  }

  /** Following cursors while the views last, the table changing between one page and the next. */
  function Browse(views: seq<set<Key>>, cursor: Option<Key>, limit: nat): seq<Page>
    requires limit >= 1
  {
    if views == [] then []
    else
      var page := PageOf(views[0], cursor, limit);
      [page] + if page.nextCursor.Some? then Browse(views[1..], page.nextCursor, limit) else []
  }

  function Items(pages: seq<Page>): seq<Key> {
    if pages == [] then [] else pages[0].items + Items(pages[1..])
  }

  predicate IsExhausted(pages: seq<Page>) {
    pages != [] && pages[|pages| - 1].nextCursor.None?
  }

  lemma PageFacts(view: set<Key>, cursor: Option<Key>, limit: nat)
    requires limit >= 1
    ensures var page := PageOf(view, cursor, limit);
            var listing := Listing(After(view, cursor));
            && page.items == listing[..if |listing| <= limit then |listing| else limit]
            && (page.nextCursor.Some? <==> |listing| > limit)
            && (page.nextCursor.Some?
                ==> |page.items| == limit && page.nextCursor == Some(CursorOf(page.items[limit - 1])))
  {
  }

  /** What a cursor admits comes after the row the cursor was cut from. */
  lemma CursorAdmitsLater(last: Key, key: Key)
    requires Precedes(CursorOf(last), key)
    ensures Precedes(last, key)
  {
  }

  /** Rows of the cursor's millisecond that it passes over, though they come after the last row shown. */
  predicate IsPassedOver(last: Key, key: Key) {
    && Precedes(last, key)
    && (key.createdAt > CursorOf(last).createdAt || (key.createdAt == CursorOf(last).createdAt && key.id >= last.id))
  }

  lemma PassedOverExactly(last: Key, key: Key)
    ensures Precedes(last, key) ==> (Precedes(CursorOf(last), key) <==> !IsPassedOver(last, key))
    ensures last.createdAt % 1000 == 0 ==> !IsPassedOver(last, key)
  {
  }

  // ----- nothing is listed twice -----

  lemma {:induction false} ItemsComeAfter(views: seq<set<Key>>, cursor: Option<Key>, limit: nat, key: Key)
    requires limit >= 1 && key in Items(Browse(views, cursor, limit))
    ensures IsAfter(cursor, key)
    decreases |views|
  {
    var page := PageOf(views[0], cursor, limit);
    var all := After(views[0], cursor);
    ListingIsSorted(all);
    PageFacts(views[0], cursor, limit);
    BrowseUnfolds(views, cursor, limit);
    if key in page.items {
      assert key in KeysOf(Listing(all));
    } else {
      ItemsComeAfter(views[1..], page.nextCursor, limit, key);
      var last := page.items[limit - 1];
      CursorAdmitsLater(last, key);
      assert last in KeysOf(Listing(all));
    }
  }

  /** The pages after the first. */
  function Later(views: seq<set<Key>>, cursor: Option<Key>, limit: nat): seq<Page>
    requires limit >= 1 && views != []
  {
    if PageOf(views[0], cursor, limit).nextCursor.Some?
    then Browse(views[1..], PageOf(views[0], cursor, limit).nextCursor, limit)
    else []
  }

  lemma BrowseUnfolds(views: seq<set<Key>>, cursor: Option<Key>, limit: nat)
    requires limit >= 1 && views != []
    ensures Browse(views, cursor, limit) == [PageOf(views[0], cursor, limit)] + Later(views, cursor, limit)
    ensures Items(Browse(views, cursor, limit)) == PageOf(views[0], cursor, limit).items
      + Items(Later(views, cursor, limit))
    ensures IsExhausted(Browse(views, cursor, limit)) <==>
            PageOf(views[0], cursor, limit).nextCursor.None? || IsExhausted(Later(views, cursor, limit))
  {
    FirstPage(PageOf(views[0], cursor, limit), Later(views, cursor, limit));
  }

  lemma FirstPage(page: Page, later: seq<Page>)
    ensures Items([page] + later) == page.items + Items(later)
    ensures later != [] ==> (IsExhausted([page] + later) <==> IsExhausted(later))
  {
    assert ([page] + later)[1..] == later;
  }

  lemma JoinDescending(a: seq<Key>, b: seq<Key>)
    requires IsDescending(a) && IsDescending(b)
    requires forall key :: key in b ==> a != [] && Precedes(a[|a| - 1], key)
    ensures IsDescending(a + b)
  {
    forall i, j | 0 <= i < j < |a + b| ensures Precedes((a + b)[i], (a + b)[j]) {
      if i < |a| <= j {
        assert b[j - |a|] in b;
        assert i == |a| - 1 || Precedes(a[i], a[|a| - 1]);
      }
    }
  }

  lemma PageDescends(view: set<Key>, cursor: Option<Key>, limit: nat)
    requires limit >= 1
    ensures IsDescending(PageOf(view, cursor, limit).items)
    ensures forall key :: key in PageOf(view, cursor, limit).items ==> key in view && IsAfter(cursor, key)
  {
    ListingIsSorted(After(view, cursor));
    PageFacts(view, cursor, limit);
    forall key | key in PageOf(view, cursor, limit).items ensures key in view && IsAfter(cursor, key) {
      assert key in KeysOf(Listing(After(view, cursor)));
    }
  }

  /** Whatever happens between the pages, they list strictly downwards. */
  lemma {:induction false} PagesDescend(views: seq<set<Key>>, cursor: Option<Key>, limit: nat)
    requires limit >= 1
    ensures IsDescending(Items(Browse(views, cursor, limit)))
    decreases |views|
  {
    if views != [] {
      var page := PageOf(views[0], cursor, limit);
      PageDescends(views[0], cursor, limit);
      PageFacts(views[0], cursor, limit);
      BrowseUnfolds(views, cursor, limit);
      if page.nextCursor.Some? {
        PagesDescend(views[1..], page.nextCursor, limit);
        var later := Items(Later(views, cursor, limit));
        forall key | key in later ensures Precedes(page.items[limit - 1], key) {
          ItemsComeAfter(views[1..], page.nextCursor, limit, key);
          CursorAdmitsLater(page.items[limit - 1], key);
        }
        JoinDescending(page.items, later);
      }
    }
  }

  function Views(tables: seq<Table>, filters: Filters): seq<set<Key>> {
    seq(|tables|, i requires 0 <= i < |tables| => View(tables[i], filters))
  }

  /** A row that a page may show: it meets every filter given, and comes after the cursor in the order of the list. */
  predicate IsAsked(table: Table, filters: Filters, cursor: Option<Key>, id: nat) {
    && id in table && table[id].application == filters.application
    && (filters.statuses == {} || table[id].status in filters.statuses)
    && (filters.recipient.None? || filters.recipient == Some(table[id].recipient))
    && (filters.templateId.None? || (table[id].templateId.Some? && filters.templateId == table[id].templateId))
    && (filters.createdBefore.None? || table[id].createdAt < filters.createdBefore.value)
    && (match cursor
        case None => true
        case Some(at) =>
          table[id].createdAt < at.createdAt || (table[id].createdAt == at.createdAt && id < at.id))
  }

  /** `items` are distinct, later stamps first and of equal stamps the higher identifier first. */
  ghost predicate IsNewestFirst(items: seq<Key>) {
    forall i, j :: 0 <= i < j < |items| ==>
      items[i].createdAt > items[j].createdAt
      || (items[i].createdAt == items[j].createdAt && items[i].id > items[j].id)
  }

  lemma AskedIsInView(table: Table, filters: Filters, cursor: Option<Key>, key: Key)
    ensures key in After(View(table, filters), cursor)
            <==> IsAsked(table, filters, cursor, key.id) && key.createdAt == table[key.id].createdAt
  {
  }

  lemma ListingHoldsWhatWasAsked(table: Table, filters: Filters, cursor: Option<Key>)
    ensures forall key :: key in Listing(After(View(table, filters), cursor)) <==>
              IsAsked(table, filters, cursor, key.id) && key.createdAt == table[key.id].createdAt
  {
    var keys := After(View(table, filters), cursor);
    ListingIsSorted(keys);
    forall key ensures key in Listing(keys) <==>
      IsAsked(table, filters, cursor, key.id) && key.createdAt == table[key.id].createdAt
    {
      AskedIsInView(table, filters, cursor, key);
      assert key in Listing(keys) <==> key in KeysOf(Listing(keys));
    }
  }

  /** A page shows only what was asked for, newest first, and no more than the limit. */
  lemma PageShowsWhatWasAsked(table: Table, filters: Filters, cursor: Option<Key>, limit: nat)
    requires limit >= 1
    ensures var page := PageOf(View(table, filters), cursor, limit);
            && |page.items| <= limit && IsNewestFirst(page.items)
            && forall key :: key in page.items ==>
                 IsAsked(table, filters, cursor, key.id) && key.createdAt == table[key.id].createdAt
  {
    PageDescends(View(table, filters), cursor, limit);
    PageFacts(View(table, filters), cursor, limit);
    ListingHoldsWhatWasAsked(table, filters, cursor);
  }

  /** Whatever the page leaves out comes after all of it. */
  lemma LeftOutComesAfter(view: set<Key>, cursor: Option<Key>, limit: nat, left: Key, shown: Key)
    requires limit >= 1 && left in Listing(After(view, cursor))
    requires left !in PageOf(view, cursor, limit).items && shown in PageOf(view, cursor, limit).items
    ensures Precedes(shown, left)
  {
    var listing, items := Listing(After(view, cursor)), PageOf(view, cursor, limit).items;
    ListingIsSorted(After(view, cursor));
    PageFacts(view, cursor, limit);
    var i :| 0 <= i < |listing| && listing[i] == left;
    var k :| 0 <= k < |items| && items[k] == shown;
    assert items == listing[..|items|] && forall n :: 0 <= n < |items| ==> items[n] == listing[n];
    assert i >= |items|;
  }

  /** What was asked for and is not shown is older than all that is. */
  lemma PageLeavesTheOldest(table: Table, filters: Filters, cursor: Option<Key>, limit: nat, id: nat, key: Key)
    requires limit >= 1 && IsAsked(table, filters, cursor, id)
    requires var items := PageOf(View(table, filters), cursor, limit).items;
             Key(table[id].createdAt, id) !in items && key in items
    ensures key.createdAt > table[id].createdAt || (key.createdAt == table[id].createdAt && key.id > id)
  {
    ListingHoldsWhatWasAsked(table, filters, cursor);
    LeftOutComesAfter(View(table, filters), cursor, limit, Key(table[id].createdAt, id), key);
  }

  /** The cursor names the last item, its stamp cut to the millisecond, and the page is as long as the limit. */
  lemma CursorNamesTheLast(view: set<Key>, cursor: Option<Key>, limit: nat)
    requires limit >= 1 && PageOf(view, cursor, limit).nextCursor.Some?
    ensures var page := PageOf(view, cursor, limit);
            && |page.items| == limit
            && page.nextCursor.value.id == page.items[limit - 1].id
            && page.nextCursor.value.createdAt % 1000 == 0
            && page.nextCursor.value.createdAt <= page.items[limit - 1].createdAt
               < page.nextCursor.value.createdAt + 1000
  {
    PageFacts(view, cursor, limit);
  }

  lemma SomethingIsLeft(view: set<Key>, cursor: Option<Key>, limit: nat)
    requires limit >= 1
    ensures var page, listing := PageOf(view, cursor, limit), Listing(After(view, cursor));
            page.nextCursor.Some? <==> exists key :: key in listing && key !in page.items
  {
    var listing, page := Listing(After(view, cursor)), PageOf(view, cursor, limit);
    ListingIsSorted(After(view, cursor));
    PageFacts(view, cursor, limit);
    if page.nextCursor.Some? {
      var left := listing[limit];
      assert left in listing && left !in page.items;
    } else {
      assert page.items == listing;
    }
  }

  /** There is a cursor exactly when something asked for is not shown. */
  lemma CursorExactlyWhenMoreIsLeft(table: Table, filters: Filters, cursor: Option<Key>, limit: nat)
    requires limit >= 1
    ensures var page := PageOf(View(table, filters), cursor, limit);
            page.nextCursor.Some? <==>
              exists id :: IsAsked(table, filters, cursor, id) && Key(table[id].createdAt, id) !in page.items
  {
    var view := View(table, filters);
    var listing, page := Listing(After(view, cursor)), PageOf(view, cursor, limit);
    ListingHoldsWhatWasAsked(table, filters, cursor);
    SomethingIsLeft(view, cursor, limit);
    forall id | IsAsked(table, filters, cursor, id) ensures Key(table[id].createdAt, id) in listing {
    }
    if key :| key in listing && key !in page.items {
      assert Key(table[key.id].createdAt, key.id) == key;
    }
  }

  /** Rows are inserted and updated, but never deleted and never stamped anew. */
  ghost predicate KeepsItsRows(tables: seq<Table>) {
    forall i, j, id :: 0 <= i < j < |tables| && id in tables[i] ==>
      id in tables[j] && tables[j][id].createdAt == tables[i][id].createdAt
  }

  lemma {:induction false} ItemsAreRows(views: seq<set<Key>>, cursor: Option<Key>, limit: nat, key: Key)
    requires limit >= 1 && key in Items(Browse(views, cursor, limit))
    ensures exists view :: view in views && key in view
    decreases |views|
  {
    PageDescends(views[0], cursor, limit);
    BrowseUnfolds(views, cursor, limit);
    if key !in PageOf(views[0], cursor, limit).items {
      ItemsAreRows(views[1..], PageOf(views[0], cursor, limit).nextCursor, limit, key);
    }
  }

  lemma ItemHasRow(tables: seq<Table>, filters: Filters, limit: nat, key: Key) returns (t: nat)
    requires limit >= 1 && key in Items(Browse(Views(tables, filters), None, limit))
    ensures t < |tables| && key.id in tables[t] && tables[t][key.id].createdAt == key.createdAt
  {
    var views := Views(tables, filters);
    ItemsAreRows(views, None, limit, key);
    var view: set<Key> :| view in views && key in view;
    t :| 0 <= t < |views| && views[t] == view;
  }

  /** No notification is ever returned twice, under any inserts and status changes between pages. */
  lemma NothingListedTwice(tables: seq<Table>, filters: Filters, limit: nat)
    requires limit >= 1 && KeepsItsRows(tables)
    ensures var items := Items(Browse(Views(tables, filters), None, limit));
            forall i, j :: 0 <= i < j < |items| ==> items[i].id != items[j].id
  {
    var items := Items(Browse(Views(tables, filters), None, limit));
    PagesDescend(Views(tables, filters), None, limit);
    forall i, j | 0 <= i < j < |items| ensures items[i].id != items[j].id {
      var a := ItemHasRow(tables, filters, limit, items[i]);
      var b := ItemHasRow(tables, filters, limit, items[j]);
      assert Precedes(items[i], items[j]);
    }
  }

  // ----- nothing is left out -----

  /** A boundary between two pages that passes the row over. */
  ghost predicate IsLostAt(pages: seq<Page>, key: Key) {
    exists i :: 0 <= i < |pages| && pages[i].nextCursor.Some? && pages[i].items != []
             && IsPassedOver(pages[i].items[|pages[i].items| - 1], key)
  }

  lemma LostFurtherOn(page: Page, later: seq<Page>, key: Key)
    requires IsLostAt(later, key)
    ensures IsLostAt([page] + later, key)
  {
    var i :| 0 <= i < |later| && later[i].nextCursor.Some? && later[i].items != []
          && IsPassedOver(later[i].items[|later[i].items| - 1], key);
    assert ([page] + later)[i + 1] == later[i];
  }

  /** A row of the view is on the page, or the page goes on and the row comes after its last one. */
  lemma OnPageOrAfter(view: set<Key>, cursor: Option<Key>, limit: nat, key: Key)
    requires limit >= 1 && key in After(view, cursor)
    ensures var page := PageOf(view, cursor, limit);
            key in page.items || (page.nextCursor.Some? && |page.items| == limit
                                  && Precedes(page.items[limit - 1], key))
  {
    var all := Listing(After(view, cursor));
    ListingIsSorted(After(view, cursor));
    PageFacts(view, cursor, limit);
    assert key in KeysOf(all);
    var at :| 0 <= at < |all| && all[at] == key;
    if at < |PageOf(view, cursor, limit).items| {
      assert PageOf(view, cursor, limit).items[at] == key;
    }
  }

  /** Browsing to the end returns a row that is always there, unless a boundary passes it over. */
  lemma {:induction false} ConstantRowIsListed(views: seq<set<Key>>, cursor: Option<Key>, limit: nat, key: Key)
    requires limit >= 1 && IsExhausted(Browse(views, cursor, limit))
    requires IsAfter(cursor, key) && forall view :: view in views ==> key in view
    ensures key in Items(Browse(views, cursor, limit)) || IsLostAt(Browse(views, cursor, limit), key)
    decreases |views|
  {
    var page := PageOf(views[0], cursor, limit);
    OnPageOrAfter(views[0], cursor, limit, key);
    PageFacts(views[0], cursor, limit);
    BrowseUnfolds(views, cursor, limit);
    if key !in page.items {
      var last := page.items[limit - 1];
      var later := Browse(views[1..], page.nextCursor, limit);
      PassedOverExactly(last, key);
      if IsPassedOver(last, key) {
        assert ([page] + later)[0] == page;
      } else {
        ConstantRowIsListed(views[1..], page.nextCursor, limit, key);
        if IsLostAt(later, key) { LostFurtherOn(page, later, key); }
      }
    }
  }

  ghost predicate InMilliseconds(tables: seq<Table>) {
    forall i, id :: 0 <= i < |tables| && id in tables[i] ==> tables[i][id].createdAt % 1000 == 0
  }

  lemma {:induction false} PagesShowRows(views: seq<set<Key>>, cursor: Option<Key>, limit: nat, i: nat, key: Key)
    requires limit >= 1 && i < |Browse(views, cursor, limit)| && key in Browse(views, cursor, limit)[i].items
    ensures key in Items(Browse(views, cursor, limit))
    decreases |views|
  {
    BrowseUnfolds(views, cursor, limit);
    if i > 0 {
      PagesShowRows(views[1..], PageOf(views[0], cursor, limit).nextCursor, limit, i - 1, key);
    }
  }

  lemma InEveryView(tables: seq<Table>, filters: Filters, id: nat)
    requires tables != [] && KeepsItsRows(tables)
    requires forall i :: 0 <= i < |tables| ==> id in tables[i] && Matches(tables[i][id], filters)
    ensures forall view :: view in Views(tables, filters) ==> Key(tables[0][id].createdAt, id) in view
  {
    var views := Views(tables, filters);
    forall view | view in views ensures Key(tables[0][id].createdAt, id) in view {
      var i :| 0 <= i < |views| && views[i] == view;
      assert tables[i][id].createdAt == tables[0][id].createdAt;
    }
  }

  /**
   * With timestamps the cursor can hold, browsing to the end returns each notification
   * that matches throughout exactly once; the once is `NothingListedTwice`.
   */
  lemma MatchingThroughoutIsListed(tables: seq<Table>, filters: Filters, limit: nat, id: nat)
    requires limit >= 1 && KeepsItsRows(tables) && InMilliseconds(tables)
    requires IsExhausted(Browse(Views(tables, filters), None, limit))
    requires forall i :: 0 <= i < |tables| ==> id in tables[i] && Matches(tables[i][id], filters)
    ensures tables != [] && Key(tables[0][id].createdAt, id) in Items(Browse(Views(tables, filters), None, limit))
  {
    var views := Views(tables, filters);
    var key := Key(tables[0][id].createdAt, id);
    InEveryView(tables, filters, id);
    ConstantRowIsListed(views, None, limit, key);
    var pages := Browse(views, None, limit);
    forall i | 0 <= i < |pages| && pages[i].items != []
      ensures !IsPassedOver(pages[i].items[|pages[i].items| - 1], key) {
      var last := pages[i].items[|pages[i].items| - 1];
      PagesShowRows(views, None, limit, i, last);
      var t := ItemHasRow(tables, filters, limit, last);
      PassedOverExactly(last, key);
    }
  }

  // ----- a table that does not change -----

  /** Enough visits to reach the end of a view, however small the pages. */
  function Visits(view: set<Key>, count: nat): seq<set<Key>> {
    seq(count, _ => view)
  }

  lemma VisitsTail(view: set<Key>, count: nat)
    requires count > 0
    ensures Visits(view, count) != [] && Visits(view, count)[0] == view
      && Visits(view, count)[1..] == Visits(view, count - 1)
  {
  }

  ghost predicate CanPassOver(keys: set<Key>) {
    exists last, key :: last in keys && key in keys && IsPassedOver(last, key)
  }

  /** The view from a page's cursor on, when no row can be passed over, is the listing without the page. */
  lemma RestOfListing(view: set<Key>, cursor: Option<Key>, limit: nat)
    requires limit >= 1 && PageOf(view, cursor, limit).nextCursor.Some? && !CanPassOver(After(view, cursor))
    ensures var page := PageOf(view, cursor, limit);
            && Listing(After(view, cursor)) == page.items + Listing(After(view, page.nextCursor))
            && After(view, page.nextCursor) < After(view, cursor)
  {
    var page := PageOf(view, cursor, limit);
    var keys := After(view, cursor);
    var listing := Listing(keys);
    ListingIsSorted(keys);
    PageFacts(view, cursor, limit);
    var last, rest := page.items[limit - 1], listing[limit..];
    assert listing[limit - 1] == last && last in KeysOf(listing);
    forall key ensures key in KeysOf(rest) <==> key in After(view, page.nextCursor) {
      RestByKey(view, cursor, limit, key);
    }
    SortedIsListing(rest);
    assert KeysOf(rest) == After(view, page.nextCursor);
    assert last !in After(view, page.nextCursor);
  }

  lemma RestByKey(view: set<Key>, cursor: Option<Key>, limit: nat, key: Key)
    requires limit >= 1 && PageOf(view, cursor, limit).nextCursor.Some? && !CanPassOver(After(view, cursor))
    ensures |Listing(After(view, cursor))| > limit
    ensures key in KeysOf(Listing(After(view, cursor))[limit..])
            <==> key in After(view, PageOf(view, cursor, limit).nextCursor)
  {
    var listing := Listing(After(view, cursor));
    ListingIsSorted(After(view, cursor));
    PageFacts(view, cursor, limit);
    var last := listing[limit - 1];
    assert last in KeysOf(listing);
    PassedOverExactly(last, key);
    TailOfSorted(listing, limit, key);
    if Precedes(CursorOf(last), key) { CursorAdmitsLater(last, key); }
    assert key in KeysOf(listing) <==> key in After(view, cursor);
  }

  lemma TailOfSorted(items: seq<Key>, at: nat, key: Key)
    requires IsDescending(items) && 1 <= at <= |items|
    ensures key in KeysOf(items[at..]) <==> key in KeysOf(items) && Precedes(items[at - 1], key)
  {
    if key in KeysOf(items[at..]) {
      var i :| 0 <= i < |items[at..]| && items[at..][i] == key;
      assert items[at + i] == key;
    }
    if key in KeysOf(items) && Precedes(items[at - 1], key) {
      var i :| 0 <= i < |items| && items[i] == key;
      ComesLater(items, at - 1, i);
      assert items[at..][i - at] == key;
    }
  }

  lemma ComesLater(items: seq<Key>, i: nat, j: nat)
    requires IsDescending(items) && i < |items| && j < |items| && Precedes(items[i], items[j])
    ensures i < j
  {
  }

  lemma {:induction false} CompleteFrom(view: set<Key>, cursor: Option<Key>, limit: nat, visits: nat)
    requires limit >= 1 && visits > |After(view, cursor)| && !CanPassOver(After(view, cursor))
    ensures Items(Browse(Visits(view, visits), cursor, limit)) == Listing(After(view, cursor))
    ensures IsExhausted(Browse(Visits(view, visits), cursor, limit))
    decreases visits
  {
    var page := PageOf(view, cursor, limit);
    VisitsTail(view, visits);
    BrowseUnfolds(Visits(view, visits), cursor, limit);
    PageFacts(view, cursor, limit);
    if page.nextCursor.Some? {
      RestOfListing(view, cursor, limit);
      SmallerSet(After(view, page.nextCursor), After(view, cursor));
      CompleteFrom(view, page.nextCursor, limit, visits - 1);
    }
  }

  lemma SmallerSet(a: set<Key>, b: set<Key>)
    requires a < b
    ensures |a| < |b|
  {
    assert |b - a| + |a| == |b| by { assert (b - a) + a == b && (b - a) * a == {}; }
    assert b - a != {};
  }

  lemma FirstPageOfOne(view: set<Key>, cursor: Option<Key>)
    requires After(view, cursor) != {}
    ensures var keys := After(view, cursor);
            PageOf(view, cursor, 1)
              == Page([First(keys)], if keys == {First(keys)} then None else Some(CursorOf(First(keys))))
  {
    var keys := After(view, cursor);
    var rest := keys - {First(keys)};
    PageFacts(view, cursor, 1);
    ListingIsSorted(rest);
    assert Listing(keys) == [First(keys)] + Listing(rest);
    assert |Listing(keys)| > 1 <==> rest != {};
    assert rest == {} <==> keys == {First(keys)};
  }

  lemma LaterRowsOnly(view: set<Key>, cursor: Option<Key>, visits: nat)
    requires visits > 0 && After(view, cursor) != {} && After(view, cursor) != {First(After(view, cursor))}
    requires Items(Browse(Visits(view, visits), cursor, 1)) == Listing(After(view, cursor))
    ensures var first := First(After(view, cursor));
            Items(Browse(Visits(view, visits - 1), Some(CursorOf(first)), 1)) == Listing(After(view, cursor) - {first})
  {
    var first, rest := First(After(view, cursor)), After(view, cursor) - {First(After(view, cursor))};
    FirstPageOfOne(view, cursor);
    VisitsTail(view, visits);
    BrowseUnfolds(Visits(view, visits), cursor, 1);
    var later := Items(Browse(Visits(view, visits - 1), Some(CursorOf(first)), 1));
    assert later == ([first] + later)[1..] && Listing(rest) == ([first] + Listing(rest))[1..];
  }

  lemma OneByOneStep(view: set<Key>, cursor: Option<Key>, visits: nat)
    requires visits > 0 && After(view, cursor) != {} && After(view, cursor) != {First(After(view, cursor))}
    requires Items(Browse(Visits(view, visits), cursor, 1)) == Listing(After(view, cursor))
    ensures var keys := After(view, cursor);
            var next := Some(CursorOf(First(keys)));
            && visits > 1 && After(view, next) == keys - {First(keys)}
            && Items(Browse(Visits(view, visits - 1), next, 1)) == Listing(keys - {First(keys)})
  {
    var keys := After(view, cursor);
    var first, rest := First(keys), keys - {First(keys)};
    var next := Some(CursorOf(first));
    LaterRowsOnly(view, cursor, visits);
    ListingIsSorted(rest);
    var later := Items(Browse(Visits(view, visits - 1), next, 1));
    forall key ensures key in rest <==> key in After(view, next) {
      if key in rest {
        assert key in KeysOf(later);
        ItemsComeAfter(Visits(view, visits - 1), next, 1, key);
      }
      if key in After(view, next) {
        CursorAdmitsLater(first, key);
      }
    }
    assert rest != {} && |Listing(rest)| > 0;
  }

  /** With pages of one row every row is a boundary: a view listed whole holds nothing that can be passed over. */
  lemma {:induction false} OneByOneLosesNothing(view: set<Key>, cursor: Option<Key>, visits: nat)
    requires visits > 0 && Items(Browse(Visits(view, visits), cursor, 1)) == Listing(After(view, cursor))
    ensures !CanPassOver(After(view, cursor))
    decreases visits
  {
    var keys := After(view, cursor);
    if keys != {} {
      var first := First(keys);
      var rest := keys - {first};
      if keys != {first} {
        OneByOneStep(view, cursor, visits);
        OneByOneLosesNothing(view, Some(CursorOf(first)), visits - 1);
      }
      forall last, key | last in keys && key in keys ensures !IsPassedOver(last, key) {
        PassedOverExactly(first, key);
        assert last == first || last in rest;
        assert key == first || key in rest;
      }
    }
  }

  /** Browsing a table that stands still, the pages one after another are the sorted list. */
  predicate JoinsUp(view: set<Key>, visits: nat, limit: nat)
    requires limit >= 1
  {
    Items(Browse(Visits(view, visits), None, limit)) == Listing(view)
  }

  /**
   * On a table that stands still, pages of every size join up to the sorted list exactly
   * when no row shares the cursor's millisecond with a later one it would pass over.
   */
  lemma PagesJoinUpExactlyWhen(table: Table, filters: Filters, visits: nat)
    requires visits > |View(table, filters)|
    ensures (forall limit: nat :: limit >= 1 ==> JoinsUp(View(table, filters), visits, limit))
            <==> !CanPassOver(View(table, filters))
  {
    var view := View(table, filters);
    assert After(view, None) == view;
    if !CanPassOver(view) {
      forall limit: nat | limit >= 1 ensures JoinsUp(view, visits, limit) {
        CompleteFrom(view, None, limit, visits);
      }
    }
    if JoinsUp(view, visits, 1) {
      OneByOneLosesNothing(view, None, visits);
    }
  }

  /** In particular they do when every timestamp is a whole millisecond, and the paging then comes to its end. */
  lemma WholeMillisecondsJoinUp(table: Table, filters: Filters, limit: nat, visits: nat)
    requires limit >= 1 && visits > |View(table, filters)| && InMilliseconds([table])
    ensures var pages := Browse(Visits(View(table, filters), visits), None, limit);
            IsExhausted(pages) && JoinsUp(View(table, filters), visits, limit)
  {
    var view := View(table, filters);
    assert After(view, None) == view;
    forall last, key | last in view ensures !IsPassedOver(last, key) {
      assert last.id in [table][0];
      PassedOverExactly(last, key);
    }
    CompleteFrom(view, None, limit, visits);
  }

  lemma TwoRows(newest: Key, other: Key)
    requires Precedes(newest, other)
    ensures Listing({newest, other}) == [newest, other]
  {
    SortedIsListing([newest, other]);
    assert KeysOf([newest, other]) == {newest, other};
  }

  /** Two rows of one millisecond, a page of one: the earlier row is never shown. */
  lemma SameMillisecondIsLost()
    ensures var newest, other := Key(1_500, 1), Key(1_200, 2);
            var pages := Browse(Visits({newest, other}, 3), None, 1);
            IsExhausted(pages) && Items(pages) == [newest]
  {
    var newest, other := Key(1_500, 1), Key(1_200, 2);
    var view := {newest, other};
    var cursor := Some(Key(1_000, 1));
    TwoRows(newest, other);
    assert After(view, None) == view && After(view, cursor) == {};
    assert First(view) == Listing(view)[0] && view != {newest};
    FirstPageOfOne(view, None);
    VisitsTail(view, 3);
    BrowseUnfolds(Visits(view, 3), None, 1);
    VisitsTail(view, 2);
    BrowseUnfolds(Visits(view, 2), cursor, 1);
  }
}
