/** The local order table under repeated reconciliation: by how much a run makes it grow, and when
    it comes to rest. */
module ReconciliationTable {
  import opened FuturesStore
  import opened Options
  import opened Reconciliation
  import opened ReconciliationFixpoint

  // ----- Growth ----------------------------------------------------------------------------

  predicate HasNoLink(item: OrderItem) {
    item.OrderItem? && item.symbol != "" && item.link == ""
  }

  /** Listed orders without a link: each is stored under a fresh local id. */
  function CountUnlinked(items: seq<OrderItem>): nat {
    if items == [] then 0
    else CountUnlinked(items[..|items| - 1]) + (if HasNoLink(items[|items| - 1]) then 1 else 0)
  }

  /** Listed links that have no row yet. */
  ghost function NewLinks(rows: OrderTable, items: seq<OrderItem>): set<string> {
    set text | text in Links(items) && Given(text) !in rows
  }

  lemma UpsertGrows(rows: OrderTable, link: Link, item: OrderItem)
    requires item.OrderItem?
    ensures |Upsert(rows, link, item)| == |rows| + (if link in rows then 0 else 1)
  {
    assert Upsert(rows, link, item).Keys == rows.Keys + {link};
    if link in rows { assert rows.Keys + {link} == rows.Keys; }
    assert |rows| == |rows.Keys| && |Upsert(rows, link, item)| == |Upsert(rows, link, item).Keys|;
  }

  predicate AddsLink(item: OrderItem) {
    item.OrderItem? && item.symbol != "" && item.link != ""
  }

  lemma NewLinksMore(rows: OrderTable, done: seq<OrderItem>, item: OrderItem)
    requires item.OrderItem?
    ensures |NewLinks(rows, done + [item])| ==
            |NewLinks(rows, done)| + (if AddsLink(item) && !LinkKnown(rows, done, item.link) then 1 else 0)
  {
    forall text ensures text in Links(done + [item]) <==> text in Links(done) || Writes(item, text) {
      LinksMore(done, item, text);
    }
    var before, after := NewLinks(rows, done), NewLinks(rows, done + [item]);
    if AddsLink(item) && !LinkKnown(rows, done, item.link) {
      assert after == before + {item.link};
    } else {
      assert after == before;
    }
  }

  lemma ItemGrows(p: OrderPass, item: OrderItem, legacy: set<LegacyOrder>)
    requires item.OrderItem? && LinksFresh(p.rows, p.next)
    ensures |SyncOrder(p, item, legacy).rows| ==
            |p.rows| + (if HasNoLink(item) || (AddsLink(item) && Given(item.link) !in p.rows) then 1 else 0)
  {
    if item.symbol != "" {
      UpsertGrows(p.rows, LinkOf(p, item), item);
    }
  }

  /** The links in the table in the middle of a pass. */
  lemma {:induction false} PassLinks(p: OrderPass, items: seq<OrderItem>, legacy: set<LegacyOrder>, text: string)
    requires GoodOrders(items)
    ensures Given(text) in SyncOrders(p, items, legacy).rows <==> LinkKnown(p.rows, items, text)
  {
    if items != [] {
      var n := |items| - 1;
      PassLinks(p, items[..n], legacy, text);
      LinksMore(items[..n], items[n], text);
      assert items == items[..n] + [items[n]];
    }
  }

  lemma CountMore(done: seq<OrderItem>, item: OrderItem)
    ensures CountUnlinked(done + [item]) == CountUnlinked(done) + (if HasNoLink(item) then 1 else 0)
  {
    assert (done + [item])[..|done|] == done;
  }

  lemma GrowsByItem(start: OrderTable, done: seq<OrderItem>, p: OrderPass, item: OrderItem, legacy: set<LegacyOrder>)
    requires item.OrderItem? && LinksFresh(p.rows, p.next)
    requires Given(item.link) in p.rows <==> LinkKnown(start, done, item.link)
    requires |p.rows| == |start| + |NewLinks(start, done)| + CountUnlinked(done)
    ensures |SyncOrder(p, item, legacy).rows| ==
            |start| + |NewLinks(start, done + [item])| + CountUnlinked(done + [item])
  {
    ItemGrows(p, item, legacy);
    NewLinksMore(start, done, item);
    CountMore(done, item);
  }

  /** A pass adds one row for every new link and one for every listed order without a link. */
  lemma {:induction false} PassGrows(p: OrderPass, items: seq<OrderItem>, legacy: set<LegacyOrder>)
    requires GoodOrders(items) && LinksFresh(p.rows, p.next)
    ensures |SyncOrders(p, items, legacy).rows| == |p.rows| + |NewLinks(p.rows, items)| + CountUnlinked(items)
  {
    if items == [] {
      assert NewLinks(p.rows, items) == {};
    } else {
      var done, item := items[..|items| - 1], items[|items| - 1];
      var mid := SyncOrders(p, done, legacy);
      PassGrows(p, done, legacy);
      assert LinksFresh(mid.rows, mid.next) by { SyncRecords(p, done, legacy); }
      assert Given(item.link) in mid.rows <==> LinkKnown(p.rows, done, item.link) by {
        PassLinks(p, done, legacy, item.link);
      }
      GrowsByItem(p.rows, done, mid, item, legacy);
      assert items == done + [item];
    }
  }

  lemma MarkLostKeepsSize(rows: OrderTable, links: set<string>, ids: set<string>)
    ensures |MarkLost(rows, links, ids)| == |rows|
  {
    assert MarkLost(rows, links, ids).Keys == rows.Keys;
    assert |MarkLost(rows, links, ids).Keys| == |MarkLost(rows, links, ids)| && |rows.Keys| == |rows|;
  }

  /** GROWTH. A completed run adds exactly one row for every listed link that had none and one for
      every listed order without a link; it never removes a row. */
  lemma RunGrowsOrders(db: Db, input: RunInput, orders: seq<OrderItem>, positions: seq<PosItem>)
    requires Answers(input, orders, positions) && LinksFresh(db.orders, db.nextLink)
    ensures |Run(db, input).db.orders| == |db.orders| + |NewLinks(db.orders, orders)| + CountUnlinked(orders)
  {
    RunTables(db, input, orders, positions);
    GoodPrefixAll(orders);
    var p := OrderPass(db.orders, db.nextLink, {});
    PassGrows(p, orders, db.legacy);
    MarkLostKeepsSize(SyncOrders(p, orders, db.legacy).rows, Links(orders), Ids(orders));
  }

  // ----- What a pass makes of a row -----------------------------------------------------------

  function LastStatus(done: seq<OrderItem>, text: string, initial: OrderStatus): OrderStatus {
    if done == [] then initial
    else
      var item := done[|done| - 1];
      if Writes(item, text) then item.status else LastStatus(done[..|done| - 1], text, initial)
  }

  /** The row of a link that had one. */
  function RowAfter(row: OrderRow, done: seq<OrderItem>, text: string): OrderRow {
    OrderRow(LastId(done, text, row.id), row.symbol, LastStatus(done, text, row.status))
  }

  lemma {:induction false} PassWritesRow(p: OrderPass, items: seq<OrderItem>, legacy: set<LegacyOrder>, text: string)
    requires GoodOrders(items) && Given(text) in p.rows
    ensures var q := SyncOrders(p, items, legacy);
            Given(text) in q.rows && q.rows[Given(text)] == RowAfter(p.rows[Given(text)], items, text)
  {
    if items != [] {
      PassWritesRow(p, items[..|items| - 1], legacy, text);
    }
  }

  /** Any row that a pass leaves under a link has the last id and status listed for it. */
  lemma {:induction false} PassLeavesRow(p: OrderPass, items: seq<OrderItem>, legacy: set<LegacyOrder>, text: string,
                                         status: OrderStatus)
    requires GoodOrders(items) && Given(text) in SyncOrders(p, items, legacy).rows
    ensures var row := SyncOrders(p, items, legacy).rows[Given(text)];
            && row.id == LastId(items, text, row.id)
            && (text in Links(items) ==> row.status == LastStatus(items, text, status))
  {
    if items != [] {
      var n := |items| - 1;
      var mid, item := SyncOrders(p, items[..n], legacy), items[n];
      assert items == items[..n] + [item];
      LinksMore(items[..n], item, text);
      if Given(text) in mid.rows {
        PassLeavesRow(p, items[..n], legacy, text, status);
      }
      if Writes(item, text) && item.id == "" && Given(text) !in mid.rows {
        NeverListed(items[..n], text, p, legacy);
      }
    }
  }

  /** A link without a row has not been listed, so no id was written to it. */
  lemma {:induction false} NeverListed(done: seq<OrderItem>, text: string, p: OrderPass, legacy: set<LegacyOrder>)
    requires GoodOrders(done) && Given(text) !in SyncOrders(p, done, legacy).rows
    ensures LastId(done, text, "") == ""
  {
    if done != [] {
      NeverListed(done[..|done| - 1], text, p, legacy);
    }
  }

  // ----- The rows of new orders -----------------------------------------------------------------

  /** The first listed order that carries a link. */
  ghost predicate FirstListed(items: seq<OrderItem>, i: nat) {
    i < |items| && AddsLink(items[i]) && forall j | 0 <= j < i :: !Writes(items[j], items[i].link)
  }

  /** A link that had no row gets one with the symbol of the first listed order that carries it,
      and the last id and status listed for it. */
  lemma {:induction false} NewLinkRow(p: OrderPass, items: seq<OrderItem>, legacy: set<LegacyOrder>, i: nat)
    requires GoodOrders(items) && FirstListed(items, i) && Given(items[i].link) !in p.rows
    ensures var q, text := SyncOrders(p, items, legacy), items[i].link;
            Given(text) in q.rows &&
            q.rows[Given(text)] == OrderRow(LastId(items, text, ""), items[i].symbol, LastStatus(items, text, New))
  {
    var n, text := |items| - 1, items[i].link;
    assert forall j | 0 <= j < n :: items[..n][j] == items[j];
    if i < n {
      NewLinkRow(p, items[..n], legacy, i);
    } else {
      NotInLinks(items[..n], text);
      PassLinks(p, items[..n], legacy, text);
      NeverListed(items[..n], text, p, legacy);
    }
  }

  lemma NotInLinks(items: seq<OrderItem>, text: string)
    requires text != "" && forall j | 0 <= j < |items| :: !Writes(items[j], text)
    ensures text !in Links(items)
  {
  }

  lemma FreshRow(p: OrderPass, item: OrderItem, legacy: set<LegacyOrder>)
    requires HasNoLink(item) && LinksFresh(p.rows, p.next)
    ensures var q := SyncOrder(p, item, legacy);
            Generated(p.next) in q.rows && q.rows[Generated(p.next)] == OrderRow(item.id, item.symbol, item.status)
  {
  }

  lemma OwnRowStays(p: OrderPass, item: OrderItem, legacy: set<LegacyOrder>, own: Link)
    requires item.OrderItem? && LinksFresh(p.rows, p.next) && own.Generated? && own in p.rows
    ensures var q := SyncOrder(p, item, legacy); own in q.rows && q.rows[own] == p.rows[own]
  {
  }

  lemma {:induction false} OwnRowMade(p: OrderPass, items: seq<OrderItem>, legacy: set<LegacyOrder>, i: nat, own: Link)
    requires GoodOrders(items) && i < |items| && HasNoLink(items[i]) && LinksFresh(p.rows, p.next)
    requires own == Generated(p.next + CountUnlinked(items[..i]))
    ensures own in SyncOrders(p, items, legacy).rows
    ensures SyncOrders(p, items, legacy).rows[own] == OrderRow(items[i].id, items[i].symbol, items[i].status)
  {
    var n := |items| - 1;
    var done, item := items[..n], items[n];
    var mid := SyncOrders(p, done, legacy);
    assert LinksFresh(mid.rows, mid.next) by { SyncRecords(p, done, legacy); }
    if i < n {
      assert own in mid.rows && mid.rows[own] == OrderRow(items[i].id, items[i].symbol, items[i].status) by {
        assert done[..i] == items[..i] && done[i] == items[i];
        OwnRowMade(p, done, legacy, i, own);
      }
      OwnRowStays(mid, item, legacy, own);
    } else {
      assert own == Generated(mid.next) by { CountsUp(p, done, legacy); }
      FreshRow(mid, item, legacy);
    }
  }

  /** A listed order without a link gets a fresh row of its own, with its symbol, id and status. */
  lemma UnlinkedRow(p: OrderPass, items: seq<OrderItem>, legacy: set<LegacyOrder>, i: nat)
    requires GoodOrders(items) && i < |items| && HasNoLink(items[i]) && LinksFresh(p.rows, p.next)
    ensures var rows, own := SyncOrders(p, items, legacy).rows, Generated(p.next + CountUnlinked(items[..i]));
            own in rows && rows[own] == OrderRow(items[i].id, items[i].symbol, items[i].status)
  {
    OwnRowMade(p, items, legacy, i, Generated(p.next + CountUnlinked(items[..i])));
  }

  lemma {:induction false} CountsUp(p: OrderPass, items: seq<OrderItem>, legacy: set<LegacyOrder>)
    requires GoodOrders(items)
    ensures SyncOrders(p, items, legacy).next == p.next + CountUnlinked(items)
  {
    if items != [] {
      CountsUp(p, items[..|items| - 1], legacy);
    }
  }

  /** Every row of a symbol after a pass was there before, or is that of a listed order of it. */
  ghost predicate RowOnlyAt(rows: OrderTable, symbol: string, own: Link) {
    forall l | l in rows && rows[l].symbol == symbol :: l == own
  }

  /** Where the row of a listed order goes. */
  function OwnLink(p: OrderPass, items: seq<OrderItem>, i: nat): Link
    requires i < |items| && items[i].OrderItem?
  {
    if items[i].link != "" then Given(items[i].link) else Generated(p.next + CountUnlinked(items[..i]))
  }

  /** The one listed order of a symbol that had no row. */
  ghost predicate OnlyOrderOf(items: seq<OrderItem>, i: nat) {
    && i < |items| && items[i].OrderItem? && items[i].symbol != ""
    && forall j | 0 <= j < |items| && j != i && items[j].OrderItem? ::
         items[j].symbol != items[i].symbol && (items[i].link != "" ==> items[j].link != items[i].link)
  }

  lemma {:induction false} NoRowYet(p: OrderPass, items: seq<OrderItem>, legacy: set<LegacyOrder>, symbol: string)
    requires GoodOrders(items) && forall j | 0 <= j < |items| :: items[j].symbol != symbol
    requires forall l | l in p.rows :: p.rows[l].symbol != symbol
    ensures forall l | l in SyncOrders(p, items, legacy).rows :: SyncOrders(p, items, legacy).rows[l].symbol != symbol
  {
    if items != [] {
      assert forall j | 0 <= j < |items| - 1 :: items[..|items| - 1][j] == items[j];
      NoRowYet(p, items[..|items| - 1], legacy, symbol);
    }
  }

  lemma {:induction false} OnlyRow(p: OrderPass, items: seq<OrderItem>, legacy: set<LegacyOrder>, i: nat)
    requires GoodOrders(items) && OnlyOrderOf(items, i) && LinksFresh(p.rows, p.next)
    requires forall l | l in p.rows :: p.rows[l].symbol != items[i].symbol
    requires items[i].link != "" ==> Given(items[i].link) !in p.rows
    ensures var q, own := SyncOrders(p, items, legacy), OwnLink(p, items, i);
            && RowOnlyAt(q.rows, items[i].symbol, own)
            && own in q.rows && q.rows[own] == OrderRow(items[i].id, items[i].symbol, items[i].status)
  {
    if items[i].link != "" {
      assert FirstListed(items, i);
      NewLinkRow(p, items, legacy, i);
      OnlyWriter(items, i);
    } else {
      UnlinkedRow(p, items, legacy, i);
    }
    OnlyRowAt(p, items, legacy, i, OwnLink(p, items, i));
  }

  lemma OthersRowStays(p: OrderPass, item: OrderItem, legacy: set<LegacyOrder>, symbol: string, own: Link)
    requires item.OrderItem? && item.symbol != symbol && RowOnlyAt(p.rows, symbol, own)
    ensures RowOnlyAt(SyncOrder(p, item, legacy).rows, symbol, own)
  {
  }

  lemma FirstRowOfSymbol(p: OrderPass, item: OrderItem, legacy: set<LegacyOrder>)
    requires item.OrderItem? && forall l | l in p.rows :: p.rows[l].symbol != item.symbol
    ensures RowOnlyAt(SyncOrder(p, item, legacy).rows, item.symbol, LinkOf(p, item))
  {
  }

  lemma {:induction false} OnlyRowAt(p: OrderPass, items: seq<OrderItem>, legacy: set<LegacyOrder>, i: nat, own: Link)
    requires GoodOrders(items) && OnlyOrderOf(items, i) && LinksFresh(p.rows, p.next)
    requires own == OwnLink(p, items, i)
    requires forall l | l in p.rows :: p.rows[l].symbol != items[i].symbol
    ensures RowOnlyAt(SyncOrders(p, items, legacy).rows, items[i].symbol, own)
  {
    var n, symbol := |items| - 1, items[i].symbol;
    var done, item := items[..n], items[n];
    var mid := SyncOrders(p, done, legacy);
    assert forall j | 0 <= j < n :: done[j] == items[j];
    if i < n {
      assert RowOnlyAt(mid.rows, symbol, own) by {
        assert done[..i] == items[..i];
        OnlyRowAt(p, done, legacy, i, own);
      }
      OthersRowStays(mid, item, legacy, symbol, own);
    } else {
      assert own == LinkOf(mid, item) by { CountsUp(p, done, legacy); }
      assert forall l | l in mid.rows :: mid.rows[l].symbol != symbol by { NoRowYet(p, done, legacy, symbol); }
      FirstRowOfSymbol(mid, item, legacy);
    }
  }

  /** The one listed order with a link of its own. */
  ghost predicate OnlyWithLink(items: seq<OrderItem>, i: nat) {
    && i < |items| && items[i].OrderItem? && items[i].symbol != "" && items[i].link != ""
    && forall j | 0 <= j < |items| && j != i && items[j].OrderItem? :: items[j].link != items[i].link
  }

  /** What is written to a link by one order alone. */
  lemma {:induction false} OnlyWriter(items: seq<OrderItem>, i: nat)
    requires OnlyWithLink(items, i)
    ensures LastId(items, items[i].link, "") == items[i].id && LastStatus(items, items[i].link, New) == items[i].status
  {
    var n := |items| - 1;
    if i < n {
      assert forall j | 0 <= j < n :: items[..n][j] == items[j];
      OnlyWriter(items[..n], i);
    } else {
      Unwritten(items[..n], items[i].link);
    }
  }

  lemma {:induction false} Unwritten(items: seq<OrderItem>, text: string)
    requires forall j | 0 <= j < |items| :: !Writes(items[j], text)
    ensures LastId(items, text, "") == ""
  {
    if items != [] {
      assert forall j | 0 <= j < |items| - 1 :: items[..|items| - 1][j] == items[j];
      Unwritten(items[..|items| - 1], text);
    }
  }

  // ----- Two runs ---------------------------------------------------------------------------------

  /** GONE AGAIN. A symbol with no local order gets one from the exchange; the next run lists none of
      it. Its lock then says "missing" if and only if the order was new or partially filled, could
      be recognised at all, and neither its link nor its id is listed under another symbol. */
  lemma GoneOrderIff(db: Db, first: RunInput, second: RunInput, orders: seq<OrderItem>, positions: seq<PosItem>,
                     later: seq<OrderItem>, laterPositions: seq<PosItem>, i: nat)
    requires Answers(first, orders, positions) && Answers(second, later, laterPositions)
    requires LinksFresh(db.orders, db.nextLink) && OnlyOrderOf(orders, i)
    requires forall l | l in db.orders :: db.orders[l].symbol != orders[i].symbol
    requires orders[i].link != "" ==> Given(orders[i].link) !in db.orders
    requires forall j | 0 <= j < |later| :: later[j].symbol != orders[i].symbol
    ensures IssueKey(MissingOrder, Futures, orders[i].symbol) in Run(Run(db, first).db, second).db.open <==>
            && (orders[i].status == New || orders[i].status == PartiallyFilled)
            && (orders[i].link != "" || orders[i].id != "")
            && (orders[i].link != "" ==> forall j | 0 <= j < |later| && later[j].symbol != "" ::
                later[j].link != orders[i].link)
            && (orders[i].id != "" ==> forall j | 0 <= j < |later| && later[j].symbol != "" ::
                later[j].id != orders[i].id)
  {
    var item, after := orders[i], Run(db, first).db;
    var own := OwnLink(OrderPass(db.orders, db.nextLink, {}), orders, i);
    AfterFirst(db, first, orders, positions, i);
    RunKeepsLinksFresh(db, first);
    LostLockIff(after, second, later, laterPositions, item.symbol);
    LaterListed(later, item);
    assert !FromBare(later, item.symbol);
    if Lost(after.orders, own, Links(later), Ids(later)) {
      assert LosesOn(after.orders, later, item.symbol);
    }
  }

  /** And whatever else is listed then or now, and whatever the tables held: a new or partially filled
      order that brings a link or an id of its own, and whose link and id the next run does not list,
      leaves its own symbol locked. */
  lemma GoneOrderLocks(db: Db, first: RunInput, second: RunInput, orders: seq<OrderItem>, positions: seq<PosItem>,
                       later: seq<OrderItem>, laterPositions: seq<PosItem>, i: nat)
    requires Answers(first, orders, positions) && Answers(second, later, laterPositions)
    requires LinksFresh(db.orders, db.nextLink) && i < |orders| && orders[i].symbol != ""
    requires orders[i].status == New || orders[i].status == PartiallyFilled
    requires if orders[i].link == "" then orders[i].id != ""
             else OnlyWithLink(orders, i) && Given(orders[i].link) !in db.orders
    requires forall j | 0 <= j < |later| && later[j].symbol != "" ::
               && (orders[i].link != "" ==> later[j].link != orders[i].link)
               && (orders[i].id != "" ==> later[j].id != orders[i].id)
    ensures IssueKey(MissingOrder, Futures, orders[i].symbol) in Run(Run(db, first).db, second).db.open
  {
    var item, after := orders[i], Run(db, first).db;
    var own := OwnLink(OrderPass(db.orders, db.nextLink, {}), orders, i);
    RowAfterFirst(db, first, orders, positions, i);
    RunKeepsLinksFresh(db, first);
    LostLockIff(after, second, later, laterPositions, item.symbol);
    LaterListed(later, item);
    assert Lost(after.orders, own, Links(later), Ids(later));
    assert LosesOn(after.orders, later, item.symbol);
  }

  lemma OwnRowAfterPass(p: OrderPass, items: seq<OrderItem>, legacy: set<LegacyOrder>, i: nat)
    requires GoodOrders(items) && LinksFresh(p.rows, p.next) && i < |items| && items[i].symbol != ""
    requires items[i].link != "" ==> OnlyWithLink(items, i) && Given(items[i].link) !in p.rows
    ensures var rows, own := SyncOrders(p, items, legacy).rows, OwnLink(p, items, i);
            own in rows && rows[own] == OrderRow(items[i].id, items[i].symbol, items[i].status)
  {
    if items[i].link != "" {
      assert FirstListed(items, i);
      NewLinkRow(p, items, legacy, i);
      OnlyWriter(items, i);
    } else {
      UnlinkedRow(p, items, legacy, i);
    }
  }

  lemma ListedRowIsSeen(items: seq<OrderItem>, p: OrderPass, i: nat)
    requires i < |items| && items[i].OrderItem? && items[i].symbol != "" && (items[i].link != "" || items[i].id != "")
    ensures var row := OrderRow(items[i].id, items[i].symbol, items[i].status);
            SeenOnExchange(OwnLink(p, items, i), row, Links(items), Ids(items))
  {
  }

  lemma RowAfterFirst(db: Db, input: RunInput, orders: seq<OrderItem>, positions: seq<PosItem>, i: nat)
    requires Answers(input, orders, positions) && LinksFresh(db.orders, db.nextLink)
    requires i < |orders| && orders[i].symbol != ""
    requires if orders[i].link == "" then orders[i].id != ""
             else OnlyWithLink(orders, i) && Given(orders[i].link) !in db.orders
    ensures var after, own := Run(db, input).db.orders, OwnLink(OrderPass(db.orders, db.nextLink, {}), orders, i);
            own in after && after[own] == OrderRow(orders[i].id, orders[i].symbol, orders[i].status)
  {
    var p := OrderPass(db.orders, db.nextLink, {});
    OwnRowAfterPass(p, orders, db.legacy, i);
    ListedRowIsSeen(orders, p, i);
    RunTables(db, input, orders, positions);
    GoodPrefixAll(orders);
  }

  lemma AfterFirst(db: Db, input: RunInput, orders: seq<OrderItem>, positions: seq<PosItem>, i: nat)
    requires Answers(input, orders, positions) && LinksFresh(db.orders, db.nextLink) && OnlyOrderOf(orders, i)
    requires forall l | l in db.orders :: db.orders[l].symbol != orders[i].symbol
    requires orders[i].link != "" ==> Given(orders[i].link) !in db.orders
    ensures var after, item := Run(db, input).db.orders, orders[i];
            var own := OwnLink(OrderPass(db.orders, db.nextLink, {}), orders, i);
            && RowOnlyAt(after, item.symbol, own) && own in after
            && after[own] == OrderRow(item.id, item.symbol,
                 if item.link == "" && item.id == "" && (item.status == New || item.status == PartiallyFilled)
                 then MissingOnExchange else item.status)
  {
    RunTables(db, input, orders, positions);
    GoodPrefixAll(orders);
    OnlyRow(OrderPass(db.orders, db.nextLink, {}), orders, db.legacy, i);
    assert orders[i].link != "" ==> orders[i].link in Links(orders);
    assert orders[i].id != "" ==> orders[i].id in Ids(orders);
    assert "" !in Ids(orders);
  }

  lemma LaterListed(later: seq<OrderItem>, item: OrderItem)
    requires GoodOrders(later) && item.OrderItem?
    ensures item.link in Links(later) <==>
        item.link != "" && exists j :: 0 <= j < |later| && later[j].symbol != "" && later[j].link == item.link
    ensures item.id in Ids(later) <==>
        item.id != "" && exists j :: 0 <= j < |later| && later[j].symbol != "" && later[j].id == item.id
  {
    forall j | 0 <= j < |later| && later[j].symbol != ""
      ensures (later[j].link != "" ==> later[j].link in Links(later)) &&
          (later[j].id != "" ==> later[j].id in Ids(later)) {}
  }

  // ----- The fixpoint -----------------------------------------------------------------------------

  lemma {:induction false} UnlinkedCounted(items: seq<OrderItem>)
    ensures CountUnlinked(items) == 0 <==> forall i | 0 <= i < |items| :: !HasNoLink(items[i])
  {
    if items != [] {
      var n := |items| - 1;
      UnlinkedCounted(items[..n]);
      assert forall i | 0 <= i < n :: items[..n][i] == items[i];
    }
  }

  lemma {:induction false} PassKeepsGenerated(p: OrderPass, items: seq<OrderItem>, legacy: set<LegacyOrder>)
    requires GoodOrders(items) && LinksFresh(p.rows, p.next) && CountUnlinked(items) == 0
    ensures var q := SyncOrders(p, items, legacy);
            && LinksFresh(q.rows, q.next)
            && forall n: nat :: (Generated(n) in q.rows <==> Generated(n) in p.rows) &&
                 (Generated(n) in p.rows ==> q.rows[Generated(n)] == p.rows[Generated(n)])
  {
    if items != [] {
      PassKeepsGenerated(p, items[..|items| - 1], legacy);
    }
  }

  lemma SameTable(a: OrderTable, b: OrderTable)
    requires forall text ::
               (Given(text) in a <==> Given(text) in b) && (Given(text) in b ==> a[Given(text)] == b[Given(text)])
    requires forall n: nat :: Generated(n) in a <==> Generated(n) in b
    requires forall n: nat | Generated(n) in b :: a[Generated(n)] == b[Generated(n)]
    ensures a == b
  {
    forall l ensures (l in a <==> l in b) && (l in b ==> a[l] == b[l]) {
      match l
      case Given(text) => assert Given(text) in a <==> Given(text) in b;
      case Generated(n) => assert Generated(n) in a <==> Generated(n) in b;
    }
  }

  /** Importing the list again changes no row. */
  lemma SecondImport(start: OrderPass, p: OrderPass, items: seq<OrderItem>, legacy: set<LegacyOrder>)
    requires GoodOrders(items) && LinksFresh(start.rows, start.next) && CountUnlinked(items) == 0
    requires LinksFresh(p.rows, p.next)
    requires p.rows == MarkLost(SyncOrders(start, items, legacy).rows, Links(items), Ids(items))
    ensures SyncOrders(p, items, legacy).rows == p.rows
  {
    var again := SyncOrders(p, items, legacy).rows;
    PassKeepsGenerated(p, items, legacy);
    forall text ensures (Given(text) in again <==> Given(text) in p.rows) &&
                        (Given(text) in p.rows ==> again[Given(text)] == p.rows[Given(text)])
    {
      PassLinks(start, items, legacy, text);
      PassLinks(p, items, legacy, text);
      if Given(text) in p.rows {
        RowStays(start, p, items, legacy, text);
      }
    }
    SameTable(again, p.rows);
  }

  lemma RowStays(start: OrderPass, p: OrderPass, items: seq<OrderItem>, legacy: set<LegacyOrder>, text: string)
    requires GoodOrders(items) && Given(text) in p.rows
    requires p.rows == MarkLost(SyncOrders(start, items, legacy).rows, Links(items), Ids(items))
    ensures var again := SyncOrders(p, items, legacy).rows;
            Given(text) in again && again[Given(text)] == p.rows[Given(text)]
  {
    var row := p.rows[Given(text)];
    PassWritesRow(p, items, legacy, text);
    PassLeavesRow(start, items, legacy, text, row.status);
    if text !in Links(items) {
      NotWritten(items, text, row.status);
    }
  }

  /** A table that one pass has left is left alone by the next, if every order carries a link. */
  lemma SecondPassChangesNothing(rows: OrderTable, next: nat, legacy: set<LegacyOrder>, items: seq<OrderItem>)
    requires GoodOrders(items) && LinksFresh(rows, next) && CountUnlinked(items) == 0
    ensures var p := OrdersStep(rows, next, legacy, items);
            OrdersStep(p.rows, p.next, legacy, items).rows == p.rows
  {
    var p := OrdersStep(rows, next, legacy, items);
    GoodPrefixAll(items);
    StepSettles(rows, next, legacy, items);
    SecondImport(OrderPass(rows, next, {}), OrderPass(p.rows, p.next, {}), items, legacy);
    assert MarkLost(p.rows, Links(items), Ids(items)) == p.rows;
  }

  lemma {:induction false} NotWritten(items: seq<OrderItem>, text: string, status: OrderStatus)
    requires text !in Links(items)
    ensures LastStatus(items, text, status) == status
  {
    if items != [] {
      var n := |items| - 1;
      assert items == items[..n] + [items[n]];
      LinksMore(items[..n], items[n], text);
      NotWritten(items[..n], text, status);
    }
  }

  /** AT REST. After one answered run or more, a further one against the same exchange leaves the
      order table as it is if and only if every listed order carries a link. The locks settle
      in any case; the table grows by a row for every order without a link, run after run. */
  lemma TableAtRestIff(db: Db, inputs: seq<RunInput>, last: RunInput, orders: seq<OrderItem>, positions: seq<PosItem>)
    requires |inputs| >= 1 && GoodOrders(orders) && GoodPositions(positions)
    requires AllAnswer(inputs, orders, positions) && Answers(last, orders, positions)
    requires LinksFresh(db.orders, db.nextLink)
    ensures var s := RunAll(db, inputs);
            && |Run(s, last).db.orders| == |s.orders| + CountUnlinked(orders)
            && (Run(s, last).db.orders == s.orders <==>
                  forall i | 0 <= i < |orders| && orders[i].symbol != "" :: orders[i].link != "")
  {
    var n := |inputs| - 1;
    var before, s := RunAll(db, inputs[..n]), RunAll(db, inputs);
    LinksStayFresh(db, inputs[..n]);
    SettledAfter(db, inputs, orders, positions);
    RunGrowsOrders(s, last, orders, positions);
    AllLinksRecorded(s.orders, orders);
    UnlinkedCounted(orders);
    RunTables(before, inputs[n], orders, positions);
    RunTables(s, last, orders, positions);
    if CountUnlinked(orders) == 0 {
      SecondPassChangesNothing(before.orders, before.nextLink, before.legacy, orders);
    }
  }

  lemma AllLinksRecorded(rows: OrderTable, items: seq<OrderItem>)
    requires GoodOrders(items) && AllRecorded(rows, items)
    ensures NewLinks(rows, items) == {}
  {
    forall text | text in Links(items) ensures Given(text) in rows {
      var i :| 0 <= i < |items| && items[i].OrderItem? && items[i].symbol != "" && items[i].link != "" &&
          items[i].link == text;
      assert Recorded(rows, items[i]);
    }
  }
}
