/** Where repeated reconciliation against an unchanged exchange settles. */
module ReconciliationFixpoint {
  import opened FuturesStore
  import opened Reconciliation

  /** An exchange order the local table has no way to recognise again. */
  predicate Bare(item: OrderItem) {
    item.OrderItem? && item.symbol != "" && item.link == "" && item.id == ""
  }

  function BareOrphans(items: seq<OrderItem>): set<IssueKey> {
    set i | 0 <= i < |items| && Bare(items[i]) :: IssueKey(OrphanedOrder, Futures, items[i].symbol)
  }

  function BareLost(items: seq<OrderItem>): set<IssueKey> {
    set i | 0 <= i < |items| && Bare(items[i]) && Working(items[i].status) ::
      IssueKey(MissingOrder, Futures, items[i].symbol)
  }

  /** The row a recognisable item has in the table. */
  ghost predicate Recorded(rows: OrderTable, item: OrderItem)
    requires item.OrderItem?
  {
    item.symbol != "" ==>
      && (item.link != "" ==> Given(item.link) in rows)
      && (item.link == "" && item.id != "" ==>
          exists n: nat :: Generated(n) in rows && rows[Generated(n)].id == item.id)
  }

  ghost predicate AllRecorded(rows: OrderTable, items: seq<OrderItem>)
    requires GoodOrders(items)
  {
    forall i | 0 <= i < |items| :: Recorded(rows, items[i])
  }

  ghost predicate NoneLost(rows: OrderTable, items: seq<OrderItem>) {
    forall l | l in rows :: !Lost(rows, l, Links(items), Ids(items))
  }

  // ----- The order table under a pass ----------------------------------------------------

  /** A pass keeps every link, leaves generated rows alone and keeps the counter ahead. */
  lemma SyncOrderKeeps(p: OrderPass, item: OrderItem, legacy: set<LegacyOrder>)
    requires item.OrderItem? && LinksFresh(p.rows, p.next)
    ensures var q := SyncOrder(p, item, legacy);
            && LinksFresh(q.rows, q.next)
            && (forall l | l in p.rows :: l in q.rows)
            && (forall n: nat | Generated(n) in p.rows :: q.rows[Generated(n)] == p.rows[Generated(n)])
            && Recorded(q.rows, item)
  {
    var q := SyncOrder(p, item, legacy);
    if item.symbol != "" && item.link == "" && item.id != "" {
      assert Generated(p.next) in q.rows && q.rows[Generated(p.next)].id == item.id;
    }
  }

  lemma RecordedLasts(rows: OrderTable, later: OrderTable, items: seq<OrderItem>)
    requires GoodOrders(items) && AllRecorded(rows, items)
    requires forall l | l in rows :: l in later
    requires forall n: nat | Generated(n) in rows :: later[Generated(n)].id == rows[Generated(n)].id
    ensures AllRecorded(later, items)
  {
    forall i | 0 <= i < |items| ensures Recorded(later, items[i]) {
      var item := items[i];
      assert Recorded(rows, item);
      if item.symbol != "" && item.link == "" && item.id != "" {
        var n: nat :| Generated(n) in rows && rows[Generated(n)].id == item.id;
        assert Generated(n) in later && later[Generated(n)].id == item.id;
      }
    }
  }

  lemma {:induction false} SyncRecords(p: OrderPass, items: seq<OrderItem>, legacy: set<LegacyOrder>)
    requires GoodOrders(items) && LinksFresh(p.rows, p.next)
    ensures var q := SyncOrders(p, items, legacy);
            LinksFresh(q.rows, q.next) && AllRecorded(q.rows, items)
  {
    if items != [] {
      var n := |items| - 1;
      SyncRecords(p, items[..n], legacy);
      var mid := SyncOrders(p, items[..n], legacy);
      SyncOrderKeeps(mid, items[n], legacy);
      var q := SyncOrders(p, items, legacy);
      RecordedLasts(mid.rows, q.rows, items[..n]);
      forall i | 0 <= i < |items| ensures Recorded(q.rows, items[i]) {
        if i < n { assert items[..n][i] == items[i]; }
      }
    }
  }

  lemma GoodPrefixAll(items: seq<OrderItem>)
    requires GoodOrders(items)
    ensures GoodPrefix(items) == items
  {
    if items != [] {
      GoodPrefixAll(items[1..]);
    }
  }

  lemma GoodPosPrefixAll(items: seq<PosItem>)
    requires GoodPositions(items)
    ensures GoodPosPrefix(items) == items
  {
    if items != [] {
      GoodPosPrefixAll(items[1..]);
    }
  }

  /** Any answered pass leaves a table in which every recognisable order is recorded and no
      working row is unseen. */
  lemma StepSettles(rows: OrderTable, next: nat, legacy: set<LegacyOrder>, items: seq<OrderItem>)
    requires GoodOrders(items) && LinksFresh(rows, next)
    ensures var p := OrdersStep(rows, next, legacy, items);
            LinksFresh(p.rows, p.next) && AllRecorded(p.rows, items) && NoneLost(p.rows, items)
  {
    GoodPrefixAll(items);
    SyncRecords(OrderPass(rows, next, {}), items, legacy);
    var mid := SyncOrders(OrderPass(rows, next, {}), items, legacy);
    RecordedLasts(mid.rows, MarkLost(mid.rows, Links(items), Ids(items)), items);
  }

  // ----- A pass over a settled table -----------------------------------------------------

  predicate BareWorking(item: OrderItem) {
    Bare(item) && Working(item.status)
  }

  /** One of the items is bare, working and on this symbol. */
  predicate FromBare(done: seq<OrderItem>, symbol: string) {
    exists j :: 0 <= j < |done| && BareWorking(done[j]) && done[j].symbol == symbol
  }

  /** Some generated row on this symbol is lost. */
  ghost predicate LostOn(rows: OrderTable, symbol: string, links: set<string>, ids: set<string>) {
    exists n: nat :: Lost(rows, Generated(n), links, ids) && rows[Generated(n)].symbol == symbol
  }

  /** What is lost in the middle of a pass: what was lost at its start, and the bare working orders
      recorded since. */
  ghost predicate LostFrom(start: OrderTable, rows: OrderTable, done: seq<OrderItem>,
                           links: set<string>, ids: set<string>)
  {
    && (forall l | Lost(rows, l, links, ids) ::
          FromBare(done, rows[l].symbol) || (Lost(start, l, links, ids) && start[l].symbol == rows[l].symbol))
    && (forall l | Lost(start, l, links, ids) :: Lost(rows, l, links, ids) && rows[l] == start[l])
    && (forall j | 0 <= j < |done| && BareWorking(done[j]) :: LostOn(rows, done[j].symbol, links, ids))
  }

  lemma FromBareMore(done: seq<OrderItem>, item: OrderItem, symbol: string)
    ensures FromBare(done + [item], symbol) <==> FromBare(done, symbol) || (BareWorking(item) && item.symbol == symbol)
  {
    var more := done + [item];
    if FromBare(done, symbol) {
      var j :| 0 <= j < |done| && BareWorking(done[j]) && done[j].symbol == symbol;
      assert more[j] == done[j];
    }
    if BareWorking(item) && item.symbol == symbol {
      assert more[|done|] == item;
    }
    if FromBare(more, symbol) {
      var j :| 0 <= j < |more| && BareWorking(more[j]) && more[j].symbol == symbol;
      assert j < |done| ==> more[j] == done[j];
    }
  }

  lemma RecordedIsTracked(rows: OrderTable, legacy: set<LegacyOrder>, item: OrderItem)
    requires item.OrderItem? && item.symbol != "" && Recorded(rows, item)
    ensures !Bare(item) ==> Tracked(rows, legacy, item.link, item.id)
    ensures Bare(item) ==> !Tracked(rows, legacy, item.link, item.id)
  {
    if !Bare(item) && item.link == "" {
      var n: nat :| Generated(n) in rows && rows[Generated(n)].id == item.id;
    }
  }

  /** The link under which an item with a symbol is stored. */
  function LinkOf(p: OrderPass, item: OrderItem): Link
    requires item.OrderItem?
  {
    if item.link != "" then Given(item.link) else Generated(p.next)
  }

  /** One item changes the lost rows only at its own link, which was not lost and ends up lost
      exactly when the item is bare and working. */
  lemma LostAtOwnLink(p: OrderPass, item: OrderItem, legacy: set<LegacyOrder>, links: set<string>, ids: set<string>)
    requires item.OrderItem? && item.symbol != "" && LinksFresh(p.rows, p.next)
    requires "" !in ids && (item.link != "" ==> item.link in links) && (item.id != "" ==> item.id in ids)
    ensures var q := SyncOrder(p, item, legacy);
            var link := LinkOf(p, item);
            && !Lost(p.rows, link, links, ids) && (Lost(q.rows, link, links, ids) <==> BareWorking(item))
            && (forall l | l != link :: l in q.rows <==> l in p.rows)
            && (forall l | l in p.rows && l != link :: q.rows[l] == p.rows[l])
            && (Bare(item) ==> link in q.rows && q.rows[link].symbol == item.symbol)
  {
  }

  /** The step of LostFrom for an item that is stored at `link`. */
  lemma LostFromStep(start: OrderTable, rows: OrderTable, later: OrderTable, link: Link, item: OrderItem,
                     done: seq<OrderItem>, links: set<string>, ids: set<string>)
    requires LostFrom(start, rows, done, links, ids) && !Lost(rows, link, links, ids)
    requires Lost(later, link, links, ids) <==> BareWorking(item)
    requires forall l | l != link :: l in later <==> l in rows
    requires forall l | l in rows && l != link :: later[l] == rows[l]
    requires Bare(item) ==> link.Generated? && link in later && later[link].symbol == item.symbol
    ensures LostFrom(start, later, done + [item], links, ids)
  {
    var more := done + [item];
    forall l | Lost(later, l, links, ids)
      ensures FromBare(more, later[l].symbol) || (Lost(start, l, links, ids) && start[l].symbol == later[l].symbol)
    {
      FromBareMore(done, item, later[l].symbol);
      assert l != link ==> Lost(rows, l, links, ids);
    }
    forall j | 0 <= j < |more| && BareWorking(more[j]) ensures LostOn(later, more[j].symbol, links, ids) {
      if j == |done| {
        assert Lost(later, Generated(link.n), links, ids);
      } else {
        var symbol := done[j].symbol;
        assert LostOn(rows, symbol, links, ids);
        var n: nat :| Lost(rows, Generated(n), links, ids) && rows[Generated(n)].symbol == symbol;
        assert Lost(later, Generated(n), links, ids);
      }
    }
  }

  /** An item that is not bare and changes nothing adds nothing. */
  lemma LostFromSkip(start: OrderTable, rows: OrderTable, item: OrderItem, done: seq<OrderItem>,
                     links: set<string>, ids: set<string>)
    requires LostFrom(start, rows, done, links, ids) && !Bare(item)
    ensures LostFrom(start, rows, done + [item], links, ids)
  {
    var more := done + [item];
    forall l | Lost(rows, l, links, ids)
      ensures FromBare(more, rows[l].symbol) || (Lost(start, l, links, ids) && start[l].symbol == rows[l].symbol)
    {
      FromBareMore(done, item, rows[l].symbol);
    }
    forall j | 0 <= j < |more| && BareWorking(more[j]) ensures j < |done| && more[j] == done[j] {}
  }

  /** What a pass over the listed orders leaves lost. */
  lemma {:induction false} LostPass(p: OrderPass, items: seq<OrderItem>, legacy: set<LegacyOrder>, all: seq<OrderItem>)
    requires GoodOrders(all) && |items| <= |all| && items == all[..|items|] && LinksFresh(p.rows, p.next)
    ensures var q := SyncOrders(p, items, legacy);
            LinksFresh(q.rows, q.next) && LostFrom(p.rows, q.rows, items, Links(all), Ids(all))
  {
    if items != [] {
      var n := |items| - 1;
      assert items[..n] == all[..n] && items[n] == all[n];
      LostPass(p, items[..n], legacy, all);
      var mid, item := SyncOrders(p, items[..n], legacy), items[n];
      SyncOrderKeeps(mid, item, legacy);
      assert items[..n] + [item] == items;
      if item.symbol != "" {
        assert (item.link != "" ==> all[n].link in Links(all)) && (item.id != "" ==> all[n].id in Ids(all));
        LostAtOwnLink(mid, item, legacy, Links(all), Ids(all));
        LostFromStep(p.rows, mid.rows, SyncOrders(p, items, legacy).rows, LinkOf(mid, item), item, items[..n],
                     Links(all), Ids(all));
      } else {
        LostFromSkip(p.rows, mid.rows, item, items[..n], Links(all), Ids(all));
      }
    }
  }

  /** The symbols with a lost order after a whole pass. */
  ghost predicate LosesOn(rows: OrderTable, items: seq<OrderItem>, symbol: string) {
    || FromBare(items, symbol)
    || exists l :: Lost(rows, l, Links(items), Ids(items)) && rows[l].symbol == symbol
  }

  lemma LostKeysAfter(p: OrderPass, items: seq<OrderItem>, legacy: set<LegacyOrder>, symbol: string)
    requires GoodOrders(items) && LinksFresh(p.rows, p.next)
    ensures var lost := LostKeys(SyncOrders(p, items, legacy).rows, Links(items), Ids(items));
            IssueKey(MissingOrder, Futures, symbol) in lost <==> LosesOn(p.rows, items, symbol)
  {
    assert items == items[..|items|];
    LostPass(p, items, legacy, items);
    var rows, links, ids := SyncOrders(p, items, legacy).rows, Links(items), Ids(items);
    var key := IssueKey(MissingOrder, Futures, symbol);
    if l :| Lost(p.rows, l, links, ids) && p.rows[l].symbol == symbol {
      assert Lost(rows, l, links, ids) && key == IssueKey(MissingOrder, Futures, rows[l].symbol);
    }
    if FromBare(items, symbol) {
      var j :| 0 <= j < |items| && BareWorking(items[j]) && items[j].symbol == symbol;
      assert LostOn(rows, symbol, links, ids);
      var n: nat :| Lost(rows, Generated(n), links, ids) && rows[Generated(n)].symbol == symbol;
      assert key == IssueKey(MissingOrder, Futures, rows[Generated(n)].symbol);
    }
  }

  lemma SettledOrder(p: OrderPass, item: OrderItem, legacy: set<LegacyOrder>)
    requires item.OrderItem? && Recorded(p.rows, item)
    ensures SyncOrder(p, item, legacy).raised == p.raised + BareOrphans([item])
  {
    BareOrphansOne(item);
    if item.symbol != "" {
      RecordedIsTracked(p.rows, legacy, item);
    }
  }

  lemma BareOrphansOne(item: OrderItem)
    ensures BareOrphans([item]) == if Bare(item) then {IssueKey(OrphanedOrder, Futures, item.symbol)} else {}
  {
    assert [item][0] == item;
  }

  lemma BareOrphansStep(items: seq<OrderItem>)
    requires items != []
    ensures BareOrphans(items) == BareOrphans(items[..|items| - 1]) + BareOrphans([items[|items| - 1]])
  {
    var n := |items| - 1;
    var shorter, last := items[..n], [items[n]];
    forall k | k in BareOrphans(shorter) ensures k in BareOrphans(items) {
      var i :| 0 <= i < n && Bare(shorter[i]) && k == IssueKey(OrphanedOrder, Futures, shorter[i].symbol);
      assert items[i] == shorter[i];
    }
    forall k | k in BareOrphans(last) ensures k in BareOrphans(items) {
      assert last[0] == items[n];
    }
    forall k | k in BareOrphans(items) ensures k in BareOrphans(shorter) + BareOrphans(last) {
      var i :| 0 <= i < |items| && Bare(items[i]) && k == IssueKey(OrphanedOrder, Futures, items[i].symbol);
      if i < n { assert shorter[i] == items[i]; } else { assert last[0] == items[i]; }
    }
  }

  lemma {:induction false} SettledSync(p: OrderPass, items: seq<OrderItem>, legacy: set<LegacyOrder>,
                                       all: seq<OrderItem>)
    requires GoodOrders(all) && |items| <= |all| && items == all[..|items|]
    requires LinksFresh(p.rows, p.next) && AllRecorded(p.rows, all)
    ensures var q := SyncOrders(p, items, legacy);
            && LinksFresh(q.rows, q.next) && AllRecorded(q.rows, all)
            && q.raised == p.raised + BareOrphans(items)
  {
    if items != [] {
      var n := |items| - 1;
      assert items[..n] == all[..n];
      SettledSync(p, items[..n], legacy, all);
      var mid := SyncOrders(p, items[..n], legacy);
      assert items[n] == all[n];
      assert Recorded(mid.rows, all[n]);
      SyncOrderKeeps(mid, items[n], legacy);
      RecordedLasts(mid.rows, SyncOrders(p, items, legacy).rows, all);
      SettledOrder(mid, items[n], legacy);
      BareOrphansStep(items);
    }
  }

  /** A pass over a settled table raises exactly the locks of the bare orders. */
  lemma SettledStep(rows: OrderTable, next: nat, legacy: set<LegacyOrder>, items: seq<OrderItem>)
    requires GoodOrders(items) && LinksFresh(rows, next) && AllRecorded(rows, items) && NoneLost(rows, items)
    ensures OrdersStep(rows, next, legacy, items).raised == BareOrphans(items) + BareLost(items)
  {
    GoodPrefixAll(items);
    assert items == items[..|items|];
    var p := OrderPass(rows, next, {});
    SettledSync(p, items, legacy, items);
    var lost := LostKeys(SyncOrders(p, items, legacy).rows, Links(items), Ids(items));
    forall k ensures k in lost <==> k in BareLost(items) {
      BareLostMeans(items, k);
      if k.kind == MissingOrder && k.domain == Futures {
        LostKeysAfter(p, items, legacy, k.symbol);
        assert k == IssueKey(MissingOrder, Futures, k.symbol);
      }
    }
    assert lost == BareLost(items);
  }

  lemma BareLostMeans(items: seq<OrderItem>, k: IssueKey)
    ensures k in BareLost(items) <==> k == IssueKey(MissingOrder, Futures, k.symbol) && FromBare(items, k.symbol)
  {
    if k in BareLost(items) {
      var i :| 0 <= i < |items| && Bare(items[i]) && Working(items[i].status) &&
          k == IssueKey(MissingOrder, Futures, items[i].symbol);
      assert BareWorking(items[i]);
    }
    if FromBare(items, k.symbol) {
      var i :| 0 <= i < |items| && BareWorking(items[i]) && items[i].symbol == k.symbol;
      assert IssueKey(MissingOrder, Futures, items[i].symbol) in BareLost(items);
    }
  }

  // ----- Whole runs ----------------------------------------------------------------------

  /** A run that completes, with both questions answered as given. */
  predicate Answers(input: RunInput, orders: seq<OrderItem>, positions: seq<PosItem>) {
    && input.walletOk && input.fillsOk && input.ending.Completes?
    && input.orders == Answered(orders) && input.positions == Answered(positions)
    && GoodOrders(orders) && GoodPositions(positions)
  }

  ghost predicate Settled(db: Db, orders: seq<OrderItem>)
    requires GoodOrders(orders)
  {
    LinksFresh(db.orders, db.nextLink) && AllRecorded(db.orders, orders) && NoneLost(db.orders, orders)
  }

  /** The database a run leaves, table by table. */
  lemma RunTables(db: Db, input: RunInput, orders: seq<OrderItem>, positions: seq<PosItem>)
    requires Answers(input, orders, positions)
    ensures var r := Run(db, input);
            var p := OrdersStep(db.orders, db.nextLink, db.legacy, orders);
            && r.success
            && r.db.orders == p.rows && r.db.nextLink == p.next && r.db.legacy == db.legacy
            && r.db.positions == SyncPositions(db.positions, positions, input.now)
            && r.raised == WalletKeys(input.walletIssues) + p.raised + PositionsRaised(db.positions, positions)
  {
    GoodPosPrefixAll(positions);
  }

  /** What the position step raises of the two lock kinds. */
  lemma PositionCauses(rows: PosTable, positions: seq<PosItem>, symbol: string)
    requires GoodPositions(positions)
    ensures IssueKey(MissingPosition, Futures, symbol) in PositionsRaised(rows, positions) <==>
            exists k :: k in NonZero(rows) && k !in ExchangeKeys(positions) && k.symbol == symbol
    ensures IssueKey(OrphanedPosition, Futures, symbol) in PositionsRaised(rows, positions) <==>
            exists k :: k in ExchangeKeys(positions) && k !in NonZero(rows) && k.symbol == symbol
  {
    GoodPosPrefixAll(positions);
    var local := NonZero(rows);
    var missing, orphaned := IssueKey(MissingPosition, Futures, symbol), IssueKey(OrphanedPosition, Futures, symbol);
    if k :| k in local && k !in ExchangeKeys(positions) && k.symbol == symbol {
      assert missing == IssueKey(MissingPosition, Futures, k.symbol);
    }
    if k :| k in ExchangeKeys(positions) && k !in local && k.symbol == symbol {
      var i :| 0 <= i < |positions| && Usable(positions[i]) && KeyOf(positions[i]) == k;
      assert orphaned == IssueKey(OrphanedPosition, Futures, positions[i].symbol);
    }
    if orphaned in PositionIssues(local, positions) {
      var i :| 0 <= i < |positions| && Usable(positions[i]) && KeyOf(positions[i]) !in local &&
          positions[i].symbol == symbol;
      assert KeyOf(positions[i]) in ExchangeKeys(positions);
    }
  }

  /** The position locks of an answered run: a local position the exchange does not have, and an
      exchange position that was not local. */
  lemma PositionLocks(db: Db, input: RunInput, orders: seq<OrderItem>, positions: seq<PosItem>, symbol: string)
    requires Answers(input, orders, positions) && symbol != ""
    ensures IssueKey(MissingPosition, Futures, symbol) in Run(db, input).db.open <==>
            exists k :: k in NonZero(db.positions) && k !in ExchangeKeys(positions) && k.symbol == symbol
    ensures IssueKey(OrphanedPosition, Futures, symbol) in Run(db, input).db.open <==>
            exists k :: k in ExchangeKeys(positions) && k !in NonZero(db.positions) && k.symbol == symbol
  {
    PositionCauses(db.positions, positions, symbol);
    RaisedPositionKinds(db, input, orders, positions, IssueKey(MissingPosition, Futures, symbol));
    RaisedPositionKinds(db, input, orders, positions, IssueKey(OrphanedPosition, Futures, symbol));
  }

  /** Locks of the position kinds come from the position step alone. */
  lemma RaisedPositionKinds(db: Db, input: RunInput, orders: seq<OrderItem>, positions: seq<PosItem>, k: IssueKey)
    requires Answers(input, orders, positions) && IsPositionKind(k.kind) && k.domain == Futures && k.symbol != ""
    ensures k in Run(db, input).db.open <==> k in PositionsRaised(db.positions, positions)
  {
    RunTables(db, input, orders, positions);
    LockExactness(db, input, k);
    OrderKindsOnly(db.orders, db.nextLink, db.legacy, orders);
  }

  lemma {:induction false} SyncRaisesOrphans(p: OrderPass, items: seq<OrderItem>, legacy: set<LegacyOrder>, k: IssueKey)
    requires GoodOrders(items)
    requires k in SyncOrders(p, items, legacy).raised && k !in p.raised
    ensures k.kind == OrphanedOrder && k.domain == Futures && k.symbol != ""
  {
    if items != [] && k in SyncOrders(p, items[..|items| - 1], legacy).raised {
      SyncRaisesOrphans(p, items[..|items| - 1], legacy, k);
    }
  }

  lemma OrderKindsOnly(rows: OrderTable, next: nat, legacy: set<LegacyOrder>, items: seq<OrderItem>)
    ensures forall k | k in OrdersStep(rows, next, legacy, items).raised :: IsOrderKind(k.kind) && k.domain == Futures
  {
    var p := OrderPass(rows, next, {});
    forall k | k in SyncOrders(p, GoodPrefix(items), legacy).raised ensures IsOrderKind(k.kind) && k.domain == Futures {
      SyncRaisesOrphans(p, GoodPrefix(items), legacy, k);
    }
  }

  /** A pass does not touch a row whose link is not on the list. */
  lemma {:induction false} UnlistedRowKept(p: OrderPass, items: seq<OrderItem>, legacy: set<LegacyOrder>, l: Link)
    requires GoodOrders(items) && LinksFresh(p.rows, p.next) && l in p.rows
    requires l.Given? ==> forall i | 0 <= i < |items| && items[i].symbol != "" && items[i].link != "" ::
        items[i].link != l.text
    ensures var q := SyncOrders(p, items, legacy);
            LinksFresh(q.rows, q.next) && l in q.rows && q.rows[l] == p.rows[l]
  {
    if items != [] {
      var n := |items| - 1;
      assert forall i | 0 <= i < n :: items[..n][i] == items[i];
      UnlistedRowKept(p, items[..n], legacy, l);
      SyncOrderKeeps(SyncOrders(p, items[..n], legacy), items[n], legacy);
    }
  }

  /** A working local order that the exchange does not list, by link or by id, is marked and
      its symbol locked by the very run that finds out. */
  lemma LostOrderIsLocked(db: Db, input: RunInput, orders: seq<OrderItem>, positions: seq<PosItem>, l: Link)
    requires Answers(input, orders, positions) && LinksFresh(db.orders, db.nextLink)
    requires Lost(db.orders, l, Links(orders), Ids(orders))
    ensures var after := Run(db, input).db;
            && l in after.orders && after.orders[l] == db.orders[l].(status := MissingOnExchange)
            && (db.orders[l].symbol != "" ==> IssueKey(MissingOrder, Futures, db.orders[l].symbol) in after.open)
  {
    RunTables(db, input, orders, positions);
    GoodPrefixAll(orders);
    var start := OrderPass(db.orders, db.nextLink, {});
    assert l.Given? ==> forall i | 0 <= i < |orders| && orders[i].symbol != "" && orders[i].link != "" ::
        orders[i].link in Links(orders);
    UnlistedRowKept(start, orders, db.legacy, l);
    var mid := SyncOrders(start, orders, db.legacy);
    var key := IssueKey(MissingOrder, Futures, db.orders[l].symbol);
    assert key in LostKeys(mid.rows, Links(orders), Ids(orders));
    LockExactness(db, input, key);
  }

  /** An answered run leaves a symbol with a missing-order lock if and only if a working row of it
      was not listed, or one of its listed orders is working and carries neither link nor id. */
  lemma LostLockIff(db: Db, input: RunInput, orders: seq<OrderItem>, positions: seq<PosItem>, symbol: string)
    requires Answers(input, orders, positions) && LinksFresh(db.orders, db.nextLink) && symbol != ""
    ensures IssueKey(MissingOrder, Futures, symbol) in Run(db, input).db.open <==> LosesOn(db.orders, orders, symbol)
  {
    var key, p := IssueKey(MissingOrder, Futures, symbol), OrderPass(db.orders, db.nextLink, {});
    RunTables(db, input, orders, positions);
    GoodPrefixAll(orders);
    LockExactness(db, input, key);
    LostKeysAfter(p, orders, db.legacy, symbol);
    if key in SyncOrders(p, orders, db.legacy).raised {
      SyncRaisesOrphans(p, orders, db.legacy, key);
    }
    assert key !in PositionsRaised(db.positions, positions);
  }

  // ----- Which orders are orphans ----------------------------------------------------------

  predicate Writes(item: OrderItem, text: string) {
    item.OrderItem? && item.symbol != "" && item.link != "" && item.link == text
  }

  /** The exchange id a link has after some listed orders: the last one they wrote to it. An order
      without an id leaves the id alone. */
  function LastId(done: seq<OrderItem>, text: string, initial: string): string {
    if done == [] then initial
    else
      var item := done[|done| - 1];
      if Writes(item, text) && item.id != "" then item.id else LastId(done[..|done| - 1], text, initial)
  }

  function InitialId(rows: OrderTable, text: string): string {
    if Given(text) in rows then rows[Given(text)].id else ""
  }

  ghost predicate LinkKnown(rows: OrderTable, done: seq<OrderItem>, text: string) {
    Given(text) in rows || text in Links(done)
  }

  /** The id is on a row under a local id, from before or from an earlier order without a link. */
  ghost predicate IdUnlinked(rows: OrderTable, done: seq<OrderItem>, id: string) {
    || (exists n: nat :: Generated(n) in rows && rows[Generated(n)].id == id)
    || (exists j :: 0 <= j < |done| && Unlinked(done[j], id))
  }

  predicate Unlinked(item: OrderItem, id: string) {
    item.OrderItem? && item.symbol != "" && item.link == "" && item.id == id
  }

  /** The id is the present one of a known link: one that was overwritten no longer counts. */
  ghost predicate IdLinked(rows: OrderTable, done: seq<OrderItem>, id: string) {
    exists text :: LinkKnown(rows, done, text) && LastId(done, text, InitialId(rows, text)) == id
  }

  predicate InLegacy(legacy: set<LegacyOrder>, item: OrderItem)
    requires item.OrderItem?
  {
    exists l :: l in legacy && ((item.link != "" && l.link == item.link) || (item.id != "" && l.id == item.id))
  }

  /** An order is known from the tables as they were and from the orders listed before it. */
  ghost predicate Known(rows: OrderTable, legacy: set<LegacyOrder>, done: seq<OrderItem>, item: OrderItem)
    requires item.OrderItem?
  {
    || InLegacy(legacy, item)
    || (item.link != "" && LinkKnown(rows, done, item.link))
    || (item.id != "" && (IdUnlinked(rows, done, item.id) || IdLinked(rows, done, item.id)))
  }

  /** The table in the middle of a pass, in terms of the table at its start. */
  ghost predicate Mirrors(rows: OrderTable, done: seq<OrderItem>, now: OrderTable) {
    && (forall text :: Given(text) in now <==> LinkKnown(rows, done, text))
    && (forall text | Given(text) in now :: now[Given(text)].id == LastId(done, text, InitialId(rows, text)))
    && (forall id :: IdUnlinked(rows, done, id) <==> HasUnlinked(now, id))
  }

  ghost predicate HasUnlinked(rows: OrderTable, id: string) {
    exists n: nat :: Generated(n) in rows && rows[Generated(n)].id == id
  }

  lemma LinksMore(done: seq<OrderItem>, item: OrderItem, text: string)
    ensures text in Links(done + [item]) <==> text in Links(done) || Writes(item, text)
  {
    var more := done + [item];
    assert more[|done|] == item;
    if text in Links(done) {
      var i :| 0 <= i < |done| && done[i].OrderItem? && done[i].symbol != "" && done[i].link != "" &&
          done[i].link == text;
      assert more[i] == done[i];
    }
    if Writes(item, text) {
      assert more[|done|].link in Links(more);
    }
    if text in Links(more) {
      var i :| 0 <= i < |more| && more[i].OrderItem? && more[i].symbol != "" && more[i].link != "" &&
          more[i].link == text;
      assert i < |done| ==> done[i] == more[i];
    }
  }

  lemma UnlinkedMore(rows: OrderTable, done: seq<OrderItem>, item: OrderItem, id: string)
    ensures IdUnlinked(rows, done + [item], id) <==> IdUnlinked(rows, done, id) || Unlinked(item, id)
  {
    var more := done + [item];
    assert more[|done|] == item;
    if j :| 0 <= j < |done| && Unlinked(done[j], id) {
      assert more[j] == done[j];
    }
    if j :| 0 <= j < |more| && Unlinked(more[j], id) {
      assert j < |done| ==> done[j] == more[j];
    }
  }

  lemma HasUnlinkedMore(p: OrderPass, item: OrderItem, legacy: set<LegacyOrder>, id: string)
    requires item.OrderItem? && LinksFresh(p.rows, p.next)
    ensures HasUnlinked(SyncOrder(p, item, legacy).rows, id) <==> HasUnlinked(p.rows, id) || Unlinked(item, id)
  {
    var now := SyncOrder(p, item, legacy).rows;
    if n: nat :| Generated(n) in p.rows && p.rows[Generated(n)].id == id {
      assert now[Generated(n)] == p.rows[Generated(n)];
    }
    if Unlinked(item, id) {
      assert Generated(p.next) in now && now[Generated(p.next)].id == id;
    }
  }

  lemma MirrorStep(rows: OrderTable, done: seq<OrderItem>, p: OrderPass, item: OrderItem, legacy: set<LegacyOrder>)
    requires item.OrderItem? && LinksFresh(p.rows, p.next) && Mirrors(rows, done, p.rows)
    ensures Mirrors(rows, done + [item], SyncOrder(p, item, legacy).rows)
  {
    var more, now := done + [item], SyncOrder(p, item, legacy).rows;
    assert more[..|done|] == done;
    forall text ensures Given(text) in now <==> LinkKnown(rows, more, text) {
      LinksMore(done, item, text);
    }
    forall text | Given(text) in now ensures now[Given(text)].id == LastId(more, text, InitialId(rows, text)) {
      if Given(text) !in p.rows {
        UnknownLinkHasNoId(rows, done, text);
      }
    }
    forall id ensures IdUnlinked(rows, more, id) <==> HasUnlinked(now, id) {
      UnlinkedMore(rows, done, item, id);
      HasUnlinkedMore(p, item, legacy, id);
    }
  }

  lemma {:induction false} UnknownLinkHasNoId(rows: OrderTable, done: seq<OrderItem>, text: string)
    requires !LinkKnown(rows, done, text)
    ensures LastId(done, text, InitialId(rows, text)) == ""
  {
    if done != [] {
      var n := |done| - 1;
      assert done == done[..n] + [done[n]];
      LinksMore(done[..n], done[n], text);
      UnknownLinkHasNoId(rows, done[..n], text);
    }
  }

  /** In the middle of a pass, the lookup finds an order exactly when it is known. */
  lemma TrackedIffKnown(rows: OrderTable, legacy: set<LegacyOrder>, done: seq<OrderItem>, now: OrderTable,
                        item: OrderItem)
    requires item.OrderItem? && Mirrors(rows, done, now)
    ensures Tracked(now, legacy, item.link, item.id) <==> Known(rows, legacy, done, item)
  {
    var id := item.id;
    if id != "" {
      if l :| l in now && now[l].id == id {
        if l.Generated? {
          assert Generated(l.n) in now && HasUnlinked(now, id);
        } else {
          assert LinkKnown(rows, done, l.text) && LastId(done, l.text, InitialId(rows, l.text)) == id;
        }
      }
      if IdLinked(rows, done, id) {
        var text :| LinkKnown(rows, done, text) && LastId(done, text, InitialId(rows, text)) == id;
        assert Given(text) in now && now[Given(text)].id == id;
      }
      if HasUnlinked(now, id) {
        var n: nat :| Generated(n) in now && now[Generated(n)].id == id;
      }
    }
  }

  /** Some listed order of the symbol is not known when its turn comes. */
  ghost predicate HasOrphan(rows: OrderTable, legacy: set<LegacyOrder>, items: seq<OrderItem>, symbol: string)
    requires GoodOrders(items)
  {
    exists i :: 0 <= i < |items| && IsOrphan(rows, legacy, items, i, symbol)
  }

  ghost predicate IsOrphan(rows: OrderTable, legacy: set<LegacyOrder>, items: seq<OrderItem>, i: nat, symbol: string)
    requires GoodOrders(items) && i < |items|
  {
    items[i].symbol == symbol && !Known(rows, legacy, items[..i], items[i])
  }

  lemma HasOrphanStep(rows: OrderTable, legacy: set<LegacyOrder>, items: seq<OrderItem>, symbol: string)
    requires GoodOrders(items) && items != []
    ensures var n := |items| - 1;
            HasOrphan(rows, legacy, items, symbol) <==>
            HasOrphan(rows, legacy, items[..n], symbol) || IsOrphan(rows, legacy, items, n, symbol)
  {
    var n := |items| - 1;
    var shorter := items[..n];
    assert forall i | 0 <= i < n :: shorter[i] == items[i] && shorter[..i] == items[..i];
    if i: nat :| i < n && IsOrphan(rows, legacy, shorter, i, symbol) {
      assert IsOrphan(rows, legacy, items, i, symbol);
    }
    if i: nat :| i < |items| && IsOrphan(rows, legacy, items, i, symbol) {
      assert i < n ==> IsOrphan(rows, legacy, shorter, i, symbol);
    }
  }

  lemma {:induction false} OrphansRaised(rows: OrderTable, next: nat, items: seq<OrderItem>, legacy: set<LegacyOrder>,
                                         symbol: string)
    requires GoodOrders(items) && LinksFresh(rows, next) && symbol != ""
    ensures var q := SyncOrders(OrderPass(rows, next, {}), items, legacy);
            && LinksFresh(q.rows, q.next) && Mirrors(rows, items, q.rows)
            && (IssueKey(OrphanedOrder, Futures, symbol) in q.raised <==> HasOrphan(rows, legacy, items, symbol))
  {
    if items != [] {
      var n := |items| - 1;
      OrphansRaised(rows, next, items[..n], legacy, symbol);
      var mid := SyncOrders(OrderPass(rows, next, {}), items[..n], legacy);
      assert items == items[..n] + [items[n]];
      SyncOrderKeeps(mid, items[n], legacy);
      MirrorStep(rows, items[..n], mid, items[n], legacy);
      TrackedIffKnown(rows, legacy, items[..n], mid.rows, items[n]);
      HasOrphanStep(rows, legacy, items, symbol);
    }
  }

  /** ORPHANS. An answered run leaves a symbol with an orphaned-order lock if and only if one of
      its listed orders is known neither from the tables nor, when its turn comes, from the
      orders listed before it. */
  lemma OrphanLockIff(db: Db, input: RunInput, orders: seq<OrderItem>, positions: seq<PosItem>, symbol: string)
    requires Answers(input, orders, positions) && LinksFresh(db.orders, db.nextLink) && symbol != ""
    ensures IssueKey(OrphanedOrder, Futures, symbol) in Run(db, input).db.open <==>
            HasOrphan(db.orders, db.legacy, orders, symbol)
  {
    var key := IssueKey(OrphanedOrder, Futures, symbol);
    RunTables(db, input, orders, positions);
    GoodPrefixAll(orders);
    OrphansRaised(db.orders, db.nextLink, orders, db.legacy, symbol);
    LockExactness(db, input, key);
    assert key !in PositionsRaised(db.positions, positions);
  }

  /** An exchange order that shares nothing with any table or earlier order locks its symbol. */
  lemma UnknownOrderIsLocked(db: Db, input: RunInput, orders: seq<OrderItem>, positions: seq<PosItem>, i: nat)
    requires Answers(input, orders, positions) && LinksFresh(db.orders, db.nextLink)
    requires i < |orders| && orders[i].symbol != "" && !InLegacy(db.legacy, orders[i])
    requires orders[i].link != "" ==> !LinkKnown(db.orders, orders[..i], orders[i].link)
    requires orders[i].id != "" ==> forall l | l in db.orders :: db.orders[l].id != orders[i].id
    requires orders[i].id != "" ==> forall j | 0 <= j < i :: orders[j].id != orders[i].id
    ensures IssueKey(OrphanedOrder, Futures, orders[i].symbol) in Run(db, input).db.open
  {
    var item, done := orders[i], orders[..i];
    assert forall j | 0 <= j < i :: done[j] == orders[j];
    if item.id != "" {
      forall text ensures LastId(done, text, InitialId(db.orders, text)) != item.id {
        NeverWritten(done, text, InitialId(db.orders, text), item.id);
      }
    }
    assert IsOrphan(db.orders, db.legacy, orders, i, item.symbol);
    OrphanLockIff(db, input, orders, positions, item.symbol);
  }

  lemma {:induction false} NeverWritten(done: seq<OrderItem>, text: string, initial: string, id: string)
    requires initial != id && forall j | 0 <= j < |done| && done[j].OrderItem? :: done[j].id != id
    ensures LastId(done, text, initial) != id
  {
    if done != [] {
      assert forall j | 0 <= j < |done| - 1 :: done[..|done| - 1][j] == done[j];
      NeverWritten(done[..|done| - 1], text, initial, id);
    }
  }

  /** A symbol all of whose listed orders are known by link gets no orphan lock. */
  lemma KnownOrdersAreNotLocked(db: Db, input: RunInput, orders: seq<OrderItem>, positions: seq<PosItem>,
                                symbol: string)
    requires Answers(input, orders, positions) && LinksFresh(db.orders, db.nextLink) && symbol != ""
    requires forall i | 0 <= i < |orders| && orders[i].symbol == symbol ::
               orders[i].link != "" && Given(orders[i].link) in db.orders
    ensures IssueKey(OrphanedOrder, Futures, symbol) !in Run(db, input).db.open
  {
    OrphanLockIff(db, input, orders, positions, symbol);
  }

  /** A pass never changes the symbol of a row and never forgets an exchange id. */
  lemma {:induction false} RowsKeepIdentity(p: OrderPass, items: seq<OrderItem>, legacy: set<LegacyOrder>, l: Link)
    requires GoodOrders(items) && LinksFresh(p.rows, p.next) && l in p.rows
    ensures var q := SyncOrders(p, items, legacy);
            && LinksFresh(q.rows, q.next) && l in q.rows && q.rows[l].symbol == p.rows[l].symbol
            && (p.rows[l].id != "" ==> q.rows[l].id != "")
  {
    if items != [] {
      RowsKeepIdentity(p, items[..|items| - 1], legacy, l);
    }
  }

  // ----- Settled runs ----------------------------------------------------------------------

  /** The order locks of an answered run over a settled table. */
  lemma SettledOrderLocks(db: Db, input: RunInput, orders: seq<OrderItem>, positions: seq<PosItem>, k: IssueKey)
    requires Answers(input, orders, positions) && Settled(db, orders)
    requires IsOrderKind(k.kind) && k.domain == Futures
    ensures k in Run(db, input).db.open <==> k in BareOrphans(orders) + BareLost(orders)
  {
    RunTables(db, input, orders, positions);
    LockExactness(db, input, k);
    SettledStep(db.orders, db.nextLink, db.legacy, orders);
  }

  function RunAll(db: Db, inputs: seq<RunInput>): Db {
    if inputs == [] then db else Run(RunAll(db, inputs[..|inputs| - 1]), inputs[|inputs| - 1]).db
  }

  ghost predicate AllAnswer(inputs: seq<RunInput>, orders: seq<OrderItem>, positions: seq<PosItem>) {
    forall i | 0 <= i < |inputs| :: Answers(inputs[i], orders, positions)
  }

  /** After one run or more the order table is settled and the open positions are the first
      ones together with the exchange's. */
  lemma {:induction false} SettledAfter(db: Db, inputs: seq<RunInput>, orders: seq<OrderItem>, positions: seq<PosItem>)
    requires |inputs| >= 1 && GoodOrders(orders) && GoodPositions(positions)
    requires AllAnswer(inputs, orders, positions) && LinksFresh(db.orders, db.nextLink)
    ensures var s := RunAll(db, inputs);
            Settled(s, orders) && NonZero(s.positions) == NonZero(db.positions) + ExchangeKeys(positions)
  {
    var n := |inputs| - 1;
    var before := RunAll(db, inputs[..n]);
    if n > 0 { SettledAfter(db, inputs[..n], orders, positions); }
    RunTables(before, inputs[n], orders, positions);
    StepSettles(before.orders, before.nextLink, before.legacy, orders);
    SyncNonZero(before.positions, positions, inputs[n].now);
  }

  /** THE FIXPOINT. Two or more answered runs against one exchange state leave, for each lock,
      an answer that does not depend on how many runs there were: an order lock stands exactly
      for the orders with neither link nor id, an orphaned-position lock never, and a
      missing-position lock exactly for the symbols of positions the exchange does not have. */
  lemma Convergence(db: Db, inputs: seq<RunInput>, orders: seq<OrderItem>, positions: seq<PosItem>, k: IssueKey)
    requires |inputs| >= 2 && GoodOrders(orders) && GoodPositions(positions)
    requires AllAnswer(inputs, orders, positions) && LinksFresh(db.orders, db.nextLink)
    requires IsLockKind(k.kind) && k.domain == Futures && k.symbol != ""
    ensures k in RunAll(db, inputs).open <==>
            match k.kind
            case OrphanedPosition => false
            case MissingPosition =>
              exists p :: p in NonZero(db.positions) && p !in ExchangeKeys(positions) && p.symbol == k.symbol
            case _ => k in BareOrphans(orders) + BareLost(orders)
  {
    var n := |inputs| - 1;
    var before := RunAll(db, inputs[..n]);
    SettledAfter(db, inputs[..n], orders, positions);
    if IsOrderKind(k.kind) {
      SettledOrderLocks(before, inputs[n], orders, positions, k);
    } else {
      PositionLocks(before, inputs[n], orders, positions, k.symbol);
    }
  }

  /** Local ids stay new through any run, complete or not. */
  lemma RunKeepsLinksFresh(db: Db, input: RunInput)
    requires LinksFresh(db.orders, db.nextLink)
    ensures LinksFresh(Run(db, input).db.orders, Run(db, input).db.nextLink)
  {
    if input.orders.Answered? {
      SyncRecords(OrderPass(db.orders, db.nextLink, {}), GoodPrefix(input.orders.items), db.legacy);
    }
  }

  lemma {:induction false} LinksStayFresh(db: Db, inputs: seq<RunInput>)
    requires LinksFresh(db.orders, db.nextLink)
    ensures LinksFresh(RunAll(db, inputs).orders, RunAll(db, inputs).nextLink)
  {
    if inputs != [] {
      var n := |inputs| - 1;
      LinksStayFresh(db, inputs[..n]);
      RunKeepsLinksFresh(RunAll(db, inputs[..n]), inputs[n]);
    }
  }

  /** RECOVERY. Failed runs, refused queries and unreadable lists leave nothing behind that two
      answered runs do not settle: after any runs at all, two or more answered ones give each lock
      its settled value, for the positions held when they began. */
  lemma ConvergenceAfterFailures(db: Db, past: seq<RunInput>, inputs: seq<RunInput>,
                                 orders: seq<OrderItem>, positions: seq<PosItem>, k: IssueKey)
    requires |inputs| >= 2 && GoodOrders(orders) && GoodPositions(positions)
    requires AllAnswer(inputs, orders, positions) && LinksFresh(db.orders, db.nextLink)
    requires IsLockKind(k.kind) && k.domain == Futures && k.symbol != ""
    ensures k in RunAll(RunAll(db, past), inputs).open <==>
            match k.kind
            case OrphanedPosition => false
            case MissingPosition =>
              exists p :: p in NonZero(RunAll(db, past).positions) && p !in ExchangeKeys(positions) &&
                  p.symbol == k.symbol
            case _ => k in BareOrphans(orders) + BareLost(orders)
  {
    LinksStayFresh(db, past);
    Convergence(RunAll(db, past), inputs, orders, positions, k);
  }

  /** Order locks all clear exactly when every exchange order carries a link or an id. */
  lemma OrderLocksClearIff(db: Db, inputs: seq<RunInput>, orders: seq<OrderItem>, positions: seq<PosItem>)
    requires |inputs| >= 2 && GoodOrders(orders) && GoodPositions(positions)
    requires AllAnswer(inputs, orders, positions) && LinksFresh(db.orders, db.nextLink)
    ensures (forall k | k in RunAll(db, inputs).open ::
               k.domain == Futures && k.symbol != "" ==> !IsOrderKind(k.kind)) <==>
            (forall i | 0 <= i < |orders| && orders[i].symbol != "" :: orders[i].link != "" || orders[i].id != "")
  {
    var open := RunAll(db, inputs).open;
    if i :| 0 <= i < |orders| && orders[i].symbol != "" && !(orders[i].link != "" || orders[i].id != "") {
      assert Bare(orders[i]);
      var k := IssueKey(OrphanedOrder, Futures, orders[i].symbol);
      assert k in BareOrphans(orders);
      Convergence(db, inputs, orders, positions, k);
    }
    if k :| k in open && k.domain == Futures && k.symbol != "" && IsOrderKind(k.kind) {
      Convergence(db, inputs, orders, positions, k);
    }
  }

  /** A further run changes no lock. */
  lemma FurtherRunKeepsLocks(db: Db, inputs: seq<RunInput>, last: RunInput, orders: seq<OrderItem>,
                             positions: seq<PosItem>, k: IssueKey)
    requires |inputs| >= 2 && GoodOrders(orders) && GoodPositions(positions)
    requires AllAnswer(inputs, orders, positions) && Answers(last, orders, positions) &&
        LinksFresh(db.orders, db.nextLink)
    requires Active(k) && k.domain == Futures
    ensures k in Run(RunAll(db, inputs), last).db.open <==> k in RunAll(db, inputs).open
  {
    var more := inputs + [last];
    assert more[..|inputs|] == inputs;
    Convergence(db, inputs, orders, positions, k);
    Convergence(db, more, orders, positions, k);
  }

  // ----- The entry gate ------------------------------------------------------------------

  /** Locks of another domain are neither raised nor released by futures runs. */
  lemma {:induction false} OtherDomainsUntouched(db: Db, inputs: seq<RunInput>, k: IssueKey)
    requires IsLockKind(k.kind) && k.domain != Futures
    ensures k in RunAll(db, inputs).open <==> k in db.open
  {
    if inputs != [] {
      var n := |inputs| - 1;
      var before := RunAll(db, inputs[..n]);
      OtherDomainsUntouched(db, inputs[..n], k);
      RunOpen(before, inputs[n]);
      if k in Run(before, inputs[n]).raised {
        RaisedLocksAreFutures(before, inputs[n], k);
      }
    }
  }

  lemma RaisedLocksAreFutures(db: Db, input: RunInput, k: IssueKey)
    requires k in Run(db, input).raised && IsLockKind(k.kind)
    ensures k.domain == Futures
  {
    if input.orders.Answered? {
      OrderKindsOnly(db.orders, db.nextLink, db.legacy, input.orders.items);
    }
  }

  /** Once converged, entry on a symbol is refused exactly when one of its positions is
      missing on the exchange, one of its exchange orders is bare, or a lock of another domain
      was open on it from the start (no futures run ever clears that one). */
  lemma ConvergedGate(db: Db, inputs: seq<RunInput>, orders: seq<OrderItem>, positions: seq<PosItem>, symbol: string)
    requires |inputs| >= 2 && GoodOrders(orders) && GoodPositions(positions)
    requires AllAnswer(inputs, orders, positions) && LinksFresh(db.orders, db.nextLink)
    requires symbol != ""
    ensures Blocked(RunAll(db, inputs).open, symbol) <==>
            || (exists p :: p in NonZero(db.positions) && p !in ExchangeKeys(positions) && p.symbol == symbol)
            || (exists i :: 0 <= i < |orders| && Bare(orders[i]) && orders[i].symbol == symbol)
            || (exists k :: k in db.open && IsLockKind(k.kind) && k.domain != Futures && k.symbol == symbol)
  {
    var open := RunAll(db, inputs).open;
    var missing, orphan := IssueKey(MissingPosition, Futures, symbol), IssueKey(OrphanedOrder, Futures, symbol);
    Convergence(db, inputs, orders, positions, missing);
    Convergence(db, inputs, orders, positions, orphan);
    if k :| k in open && IsLockKind(k.kind) && k.symbol == symbol {
      if k.domain == Futures {
        Convergence(db, inputs, orders, positions, k);
      } else {
        OtherDomainsUntouched(db, inputs, k);
      }
    }
    if i :| 0 <= i < |orders| && Bare(orders[i]) && orders[i].symbol == symbol {
      assert orphan == IssueKey(OrphanedOrder, Futures, orders[i].symbol);
    }
    if k :| k in db.open && IsLockKind(k.kind) && k.domain != Futures && k.symbol == symbol {
      OtherDomainsUntouched(db, inputs, k);
    }
  }
}
