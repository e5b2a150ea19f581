/** The reconciliation service over its issue rows and tables, step by step as it runs, proved
    against the model in Reconciliation.dfy. */
module ReconciliationService {
  import opened FuturesStore
  import opened Options
  import opened Reconciliation

  /** Open and active rows both count as open. */
  datatype IssueStatus = OpenStatus | ActiveStatus | Resolved

  datatype IssueRow = IssueRow(key: IssueKey, status: IssueStatus)

  type IssueTable = map<nat, IssueRow>

  predicate OpenAt(issues: IssueTable, id: nat) {
    id in issues && issues[id].status != Resolved
  }

  function OpenKeys(issues: IssueTable): set<IssueKey> {
    set id | id in issues && OpenAt(issues, id) :: issues[id].key
  }

  /** At most one open row per (type, domain, symbol). */
  ghost predicate OneOpenPerKey(issues: IssueTable) {
    forall i, j | OpenAt(issues, i) && OpenAt(issues, j) && issues[i].key == issues[j].key :: i == j
  }

  /** The issue table after raising a set of keys: nothing is lost or rewritten, exactly these
      keys are open in addition, and no key gets a second open row. */
  ghost predicate Grew(before: IssueTable, after: IssueTable, raised: set<IssueKey>) {
    && (forall id | id in before :: id in after && after[id] == before[id])
    && OpenKeys(after) == OpenKeys(before) + raised
    && (OneOpenPerKey(before) ==> OneOpenPerKey(after))
  }

  lemma GrewTrans(a: IssueTable, b: IssueTable, c: IssueTable, r: set<IssueKey>, s: set<IssueKey>)
    requires Grew(a, b, r) && Grew(b, c, s)
    ensures Grew(a, c, r + s)
  {
  }

  /** Rows only ever go from open to resolved; their keys never change. */
  ghost predicate OnlyResolves(before: IssueTable, after: IssueTable) {
    forall id | id in before ::
      && id in after && after[id].key == before[id].key
      && (after[id].status == before[id].status || after[id].status == Resolved)
  }

  function ActiveOf(raised: set<IssueKey>): set<IssueKey> {
    set k | k in raised && Active(k)
  }

  lemma GoodPrefixUpTo(items: seq<OrderItem>, i: nat)
    requires i <= |items| && GoodOrders(items[..i]) && (i < |items| ==> items[i].BadOrder?)
    ensures GoodPrefix(items) == items[..i]
  {
    if i > 0 {
      assert items[..i][0] == items[0];
      assert items[1..][..i - 1] == items[..i][1..];
      GoodPrefixUpTo(items[1..], i - 1);
    }
  }

  lemma GoodPosPrefixUpTo(items: seq<PosItem>, i: nat)
    requires i <= |items| && GoodPositions(items[..i]) && (i < |items| ==> items[i].BadPosition?)
    ensures GoodPosPrefix(items) == items[..i]
  {
    if i > 0 {
      assert items[..i][0] == items[0];
      assert items[1..][..i - 1] == items[..i][1..];
      GoodPosPrefixUpTo(items[1..], i - 1);
    }
  }

  /** Issue rows and remembered keys together, before and after raising a set of keys. */
  ghost predicate Raised(issues: IssueTable, active: set<IssueKey>, issues': IssueTable, active': set<IssueKey>,
                         raised: set<IssueKey>)
  {
    Grew(issues, issues', raised) && active' == active + ActiveOf(raised)
  }

  lemma RaisedTrans(a: IssueTable, x: set<IssueKey>, b: IssueTable, y: set<IssueKey>, c: IssueTable, z: set<IssueKey>,
                    r: set<IssueKey>, s: set<IssueKey>)
    requires Raised(a, x, b, y, r) && Raised(b, y, c, z, s)
    ensures Raised(a, x, c, z, r + s)
  {
    GrewTrans(a, b, c, r, s);
    assert ActiveOf(r + s) == ActiveOf(r) + ActiveOf(s);
  }

  lemma TakeOneMore<T>(items: seq<T>, i: nat)
    requires i < |items|
    ensures items[..i + 1] == items[..i] + [items[i]]
  {
  }

  class Service {
    var issues: IssueTable
    var nextIssue: nat
    var orders: OrderTable
    var nextLink: nat
    var legacy: set<LegacyOrder>
    var positions: PosTable
    var active: set<IssueKey>

    ghost predicate Valid()
      reads this
    {
      forall id | id in issues :: id < nextIssue
    }

    /** The database as the model sees it. */
    ghost function Contents(): Db
      reads this
    {
      Db(OpenKeys(issues), orders, nextLink, legacy, positions)
    }

    /** Reuse the open row of a key, or insert one. */
    method IssueOnce(key: IssueKey) returns (id: nat)
      requires Valid()
      modifies `issues, `nextIssue, `active
      ensures Valid() && Raised(old(issues), old(active), issues, active, {key})
      ensures OpenAt(issues, id) && issues[id].key == key
      ensures key in old(OpenKeys(issues)) ==> issues == old(issues)
    {
      if exists i :: i in issues && OpenAt(issues, i) && issues[i].key == key {
        id :| id in issues && OpenAt(issues, id) && issues[id].key == key;
      } else {
        id := nextIssue;
        issues := issues[id := IssueRow(key, OpenStatus)];
        nextIssue := nextIssue + 1;
        assert forall i | i in old(issues) :: OpenAt(issues, i) == OpenAt(old(issues), i);
        assert OpenAt(issues, id);
      }
      if Active(key) {
        active := active + {key};
      }
    }

    method ReconcileWallet(wallet: seq<WalletIssue>)
      requires Valid()
      modifies `issues, `nextIssue, `active
      ensures Valid() && Raised(old(issues), old(active), issues, active, WalletKeys(wallet))
    {
      ghost var done: seq<WalletIssue> := [];
      for i := 0 to |wallet|
        invariant Valid() && done == wallet[..i]
        invariant Raised(old(issues), old(active), issues, active, WalletKeys(done))
      {
        ghost var was, knew := issues, active;
        var _ := IssueOnce(WalletKey(wallet[i]));
        RaisedTrans(old(issues), old(active), was, knew, issues, active, WalletKeys(done), {WalletKey(wallet[i])});
        WalletKeysStep(done, wallet[i]);
        done := done + [wallet[i]];
      }
      assert wallet[..|wallet|] == wallet;
    }

    static lemma WalletKeysStep(done: seq<WalletIssue>, w: WalletIssue)
      ensures WalletKeys(done + [w]) == WalletKeys(done) + {WalletKey(w)}
    {
      var more := done + [w];
      assert more[|done|] == w;
      assert forall j | 0 <= j < |done| :: more[j] == done[j];
      forall k | k in WalletKeys(more) ensures k in WalletKeys(done) + {WalletKey(w)} {
        var j :| 0 <= j < |more| && WalletKey(more[j]) == k;
      }
    }

    /** Record one exchange order: an issue if nothing local knows it, and its row. */
    method ImportOrder(item: OrderItem)
      requires Valid() && item.OrderItem?
      modifies `issues, `nextIssue, `active, `orders, `nextLink
      ensures Valid()
      ensures OrderPass(orders, nextLink, OrphanIssue(old(orders), item, legacy)) ==
              SyncOrder(OrderPass(old(orders), old(nextLink), {}), item, legacy)
      ensures Raised(old(issues), old(active), issues, active, OrphanIssue(old(orders), item, legacy))
    {
      if item.symbol == "" {
        return;
      }
      if !Tracked(orders, legacy, item.link, item.id) {
        var _ := IssueOnce(IssueKey(OrphanedOrder, Futures, item.symbol));
      }
      var link := Given(item.link);
      if item.link == "" {
        link := Generated(nextLink);
        nextLink := nextLink + 1;
      }
      orders := Upsert(orders, link, item);
    }

    /** Record the exchange's orders; `bad` says that an unreadable element ended the pass. */
    method ImportOrders(items: seq<OrderItem>) returns (bad: bool, links: set<string>, ids: set<string>)
      requires Valid()
      modifies `issues, `nextIssue, `active, `orders, `nextLink
      ensures Valid() && bad == !GoodOrders(items)
      ensures var p := SyncOrders(OrderPass(old(orders), old(nextLink), {}), GoodPrefix(items), legacy);
              && orders == p.rows && nextLink == p.next
              && Raised(old(issues), old(active), issues, active, p.raised)
      ensures !bad ==> links == Links(items) && ids == Ids(items)
    {
      links, ids, bad := {}, {}, false;
      ghost var start, issues0, active0 := OrderPass(orders, nextLink, {}), issues, active;
      ghost var p, done := start, [];
      for i := 0 to |items|
        invariant Valid() && !bad && done == items[..i] && GoodOrders(done)
        invariant p == SyncOrders(start, done, legacy) && orders == p.rows && nextLink == p.next
        invariant links == Links(done) && ids == Ids(done)
        invariant Raised(issues0, active0, issues, active, p.raised)
      {
        var item := items[i];
        if item.BadOrder? {
          GoodPrefixUpTo(items, i);
          bad := true;
          return;
        }
        links, ids := links + ItemLinks(item), ids + ItemIds(item);
        LinksStep(done, item);
        ghost var was, knew, orphan := issues, active, OrphanIssue(orders, item, legacy);
        ImportOrder(item);
        RaisedTrans(issues0, active0, was, knew, issues, active, p.raised, orphan);
        SyncOrdersStep(start, done, item, legacy);
        TakeOneMore(items, i);
        p, done := SyncOrder(p, item, legacy), done + [item];
      }
      assert items[..|items|] == items;
      GoodPrefixUpTo(items, |items|);
    }

    static lemma SyncOrdersStep(p: OrderPass, done: seq<OrderItem>, item: OrderItem, legacy: set<LegacyOrder>)
      requires GoodOrders(done) && item.OrderItem?
      ensures SyncOrders(p, done + [item], legacy) == SyncOrder(SyncOrders(p, done, legacy), item, legacy)
    {
      assert (done + [item])[..|done|] == done;
    }

    static function ItemLinks(item: OrderItem): set<string>
      requires item.OrderItem?
    {
      if item.symbol != "" && item.link != "" then {item.link} else {}
    }

    static function ItemIds(item: OrderItem): set<string>
      requires item.OrderItem?
    {
      if item.symbol != "" && item.id != "" then {item.id} else {}
    }

    static lemma LinksStep(done: seq<OrderItem>, item: OrderItem)
      requires item.OrderItem?
      ensures Links(done + [item]) == Links(done) + ItemLinks(item)
      ensures Ids(done + [item]) == Ids(done) + ItemIds(item)
    {
      var more := done + [item];
      assert more[|done|] == item;
      assert forall j | 0 <= j < |done| :: more[j] == done[j];
      forall x | x in Links(more) ensures x in Links(done) + ItemLinks(item) {
        var j :| 0 <= j < |more| && more[j].OrderItem? && more[j].symbol != "" && more[j].link != "" &&
            more[j].link == x;
      }
      forall x | x in Ids(more) ensures x in Ids(done) + ItemIds(item) {
        var j :| 0 <= j < |more| && more[j].OrderItem? && more[j].symbol != "" && more[j].id != "" && more[j].id == x;
      }
    }

    /** Mark one lost order and raise its issue. */
    method MarkLostOrder(l: Link)
      requires Valid() && l in orders
      modifies `issues, `nextIssue, `active, `orders
      ensures Valid() && orders == old(orders)[l := old(orders)[l].(status := MissingOnExchange)]
      ensures Raised(old(issues), old(active), issues, active, {LostKey(old(orders)[l])})
    {
      orders := orders[l := orders[l].(status := MissingOnExchange)];
      var _ := IssueOnce(LostKey(orders[l]));
    }

    static function LostKey(row: OrderRow): IssueKey {
      IssueKey(MissingOrder, Futures, row.symbol)
    }

    /** The order table when the fetched rows outside `todo` have been looked at. */
    static ghost predicate MarkedUpTo(fetched: OrderTable, now: OrderTable, todo: set<Link>, links: set<string>,
                                      ids: set<string>)
    {
      now.Keys == fetched.Keys &&
      forall l | l in fetched ::
        now[l] == if l !in todo && Lost(fetched, l, links, ids)
                  then fetched[l].(status := MissingOnExchange) else fetched[l]
    }

    /** The issues raised by then. */
    static ghost function LostUpTo(fetched: OrderTable, todo: set<Link>, links: set<string>,
                                   ids: set<string>): set<IssueKey>
    {
      set l | l in fetched && l !in todo && Lost(fetched, l, links, ids) :: LostKey(fetched[l])
    }

    static lemma MarkedStep(fetched: OrderTable, now: OrderTable, todo: set<Link>, l: Link, links: set<string>,
                            ids: set<string>)
      requires MarkedUpTo(fetched, now, todo, links, ids) && l in todo && l in fetched
      ensures Lost(fetched, l, links, ids) ==>
                && MarkedUpTo(fetched, now[l := now[l].(status := MissingOnExchange)], todo - {l}, links, ids)
                && LostUpTo(fetched, todo - {l}, links, ids) ==
                   LostUpTo(fetched, todo, links, ids) + {LostKey(fetched[l])}
      ensures !Lost(fetched, l, links, ids) ==>
                && MarkedUpTo(fetched, now, todo - {l}, links, ids)
                && LostUpTo(fetched, todo - {l}, links, ids) == LostUpTo(fetched, todo, links, ids)
    {
    }

    /** Local working orders the exchange did not list: mark them and raise an issue each. */
    method MarkLostOrders(links: set<string>, ids: set<string>)
      requires Valid()
      modifies `issues, `nextIssue, `active, `orders
      ensures Valid() && orders == MarkLost(old(orders), links, ids)
      ensures Raised(old(issues), old(active), issues, active, LostKeys(old(orders), links, ids))
    {
      var fetched := orders;
      var todo := set l | l in fetched && Working(fetched[l].status);
      while todo != {}
        invariant Valid() && todo <= fetched.Keys && forall l | l in todo :: Working(fetched[l].status)
        invariant MarkedUpTo(fetched, orders, todo, links, ids)
        invariant Raised(old(issues), old(active), issues, active, LostUpTo(fetched, todo, links, ids))
        decreases todo
      {
        var l :| l in todo;
        MarkedStep(fetched, orders, todo, l, links, ids);
        if !SeenOnExchange(l, fetched[l], links, ids) {
          ghost var was, knew := issues, active;
          MarkLostOrder(l);
          RaisedTrans(old(issues), old(active), was, knew, issues, active,
                      LostUpTo(fetched, todo, links, ids), {LostKey(fetched[l])});
        }
        todo := todo - {l};
      }
      assert LostUpTo(fetched, {}, links, ids) == LostKeys(fetched, links, ids);
    }

    /** The whole open-order step. */
    method ReconcileOpenOrders(answer: Answer<OrderItem>) returns (ok: bool, ghost raised: set<IssueKey>)
      requires Valid()
      modifies `issues, `nextIssue, `active, `orders, `nextLink
      ensures Valid() && ok == OrdersOk(answer)
      ensures answer.Answered? ==>
                OrderPass(orders, nextLink, raised) == OrdersStep(old(orders), old(nextLink), legacy, answer.items)
      ensures !answer.Answered? ==> orders == old(orders) && nextLink == old(nextLink) && raised == {}
      ensures Raised(old(issues), old(active), issues, active, raised)
    {
      raised := {};
      ok := !answer.Threw?;
      if answer.Answered? {
        ghost var p := SyncOrders(OrderPass(orders, nextLink, {}), GoodPrefix(answer.items), legacy);
        var bad, links, ids := ImportOrders(answer.items);
        raised := p.raised;
        ok := !bad;
        if ok {
          ghost var was, knew, lost := issues, active, LostKeys(orders, links, ids);
          MarkLostOrders(links, ids);
          RaisedTrans(old(issues), old(active), was, knew, issues, active, raised, lost);
          raised := raised + lost;
        }
      }
    }

    /** What one usable position raises. */
    static function ItemIssues(local: set<PosKey>, item: PosItem): set<IssueKey>
      requires item.PosItem?
    {
      (if Usable(item) && KeyOf(item) !in local then {IssueKey(OrphanedPosition, Futures, item.symbol)} else {}) +
      (if Usable(item) && !Guarded(item) then {IssueKey(UNPROTECTED_POSITION, Futures, item.symbol)} else {})
    }

    static lemma PositionIssuesStep(local: set<PosKey>, done: seq<PosItem>, item: PosItem)
      requires item.PosItem?
      ensures PositionIssues(local, done + [item]) == PositionIssues(local, done) + ItemIssues(local, item)
    {
      var more := done + [item];
      assert more[|done|] == item;
      assert forall j | 0 <= j < |done| :: more[j] == done[j];
      forall k | k in PositionIssues(local, more) ensures k in PositionIssues(local, done) + ItemIssues(local, item) {
        var j :| 0 <= j < |more| && Usable(more[j]) &&
                 ((KeyOf(more[j]) !in local && k == IssueKey(OrphanedPosition, Futures, more[j].symbol)) ||
                  (!Guarded(more[j]) && k == IssueKey(UNPROTECTED_POSITION, Futures, more[j].symbol)));
        assert j < |done| ==> more[j] == done[j];
      }
    }

    static lemma SyncPositionsStep(rows: PosTable, done: seq<PosItem>, item: PosItem, now: int)
      ensures SyncPositions(rows, done + [item], now) == SyncPosition(SyncPositions(rows, done, now), item, now)
      ensures item.PosItem? ==>
                ExchangeKeys(done + [item]) == ExchangeKeys(done) + (if Usable(item) then {KeyOf(item)} else {})
    {
      var more := done + [item];
      assert more[..|done|] == done;
      ExchangeKeysStep(more);
    }

    /** Record one position: its row and the issues it raises. */
    method ImportPosition(local: set<PosKey>, item: PosItem, now: int)
      requires Valid() && item.PosItem?
      modifies `issues, `nextIssue, `active, `positions
      ensures Valid() && positions == SyncPosition(old(positions), item, now)
      ensures Raised(old(issues), old(active), issues, active, ItemIssues(local, item))
    {
      positions := SyncPosition(positions, item, now);
      if Usable(item) {
        ghost var orphan: set<IssueKey> := {};
        if KeyOf(item) !in local {
          var key := IssueKey(OrphanedPosition, Futures, item.symbol);
          var _ := IssueOnce(key);
          orphan := {key};
        }
        if !Guarded(item) {
          ghost var was, knew := issues, active;
          var key := IssueKey(UNPROTECTED_POSITION, Futures, item.symbol);
          var _ := IssueOnce(key);
          RaisedTrans(old(issues), old(active), was, knew, issues, active, orphan, {key});
        }
      }
    }

    /** Record the exchange's positions up to the first unreadable element. */
    method ImportPositions(items: seq<PosItem>, local: set<PosKey>, now: int) returns (bad: bool, seen: set<PosKey>)
      requires Valid()
      modifies `issues, `nextIssue, `active, `positions
      ensures Valid() && bad == !GoodPositions(items)
      ensures positions == SyncPositions(old(positions), GoodPosPrefix(items), now)
      ensures Raised(old(issues), old(active), issues, active, PositionIssues(local, GoodPosPrefix(items)))
      ensures !bad ==> seen == ExchangeKeys(items)
    {
      bad, seen := false, {};
      ghost var rows0, issues0, active0 := positions, issues, active;
      ghost var done: seq<PosItem> := [];
      for i := 0 to |items|
        invariant Valid() && !bad && done == items[..i] && GoodPositions(done)
        invariant positions == SyncPositions(rows0, done, now) && seen == ExchangeKeys(done)
        invariant Raised(issues0, active0, issues, active, PositionIssues(local, done))
      {
        var item := items[i];
        if item.BadPosition? {
          GoodPosPrefixUpTo(items, i);
          bad := true;
          return;
        }
        ghost var was, knew := issues, active;
        ImportPosition(local, item, now);
        if Usable(item) {
          seen := seen + {KeyOf(item)};
        }
        RaisedPositionStep(issues0, active0, was, knew, issues, active, local, done, item);
        SyncPositionsStep(rows0, done, item, now);
        TakeOneMore(items, i);
        done := done + [item];
      }
      assert items[..|items|] == items;
      GoodPosPrefixUpTo(items, |items|);
    }

    static lemma RaisedPositionStep(a: IssueTable, x: set<IssueKey>, b: IssueTable, y: set<IssueKey>, c: IssueTable,
                                    z: set<IssueKey>,
                                    local: set<PosKey>, done: seq<PosItem>, item: PosItem)
      requires item.PosItem?
      requires Raised(a, x, b, y, PositionIssues(local, done)) && Raised(b, y, c, z, ItemIssues(local, item))
      ensures Raised(a, x, c, z, PositionIssues(local, done + [item]))
    {
      RaisedTrans(a, x, b, y, c, z, PositionIssues(local, done), ItemIssues(local, item));
      PositionIssuesStep(local, done, item);
    }

    static ghost function MissingUpTo(local: set<PosKey>, todo: set<PosKey>, seen: set<PosKey>): set<IssueKey> {
      set k | k in local && k !in todo && k !in seen :: IssueKey(MissingPosition, Futures, k.symbol)
    }

    /** Local open positions the exchange did not list. */
    method RaiseMissingPositions(local: set<PosKey>, seen: set<PosKey>)
      requires Valid()
      modifies `issues, `nextIssue, `active
      ensures Valid() && Raised(old(issues), old(active), issues, active, MissingUpTo(local, {}, seen))
    {
      var todo := local;
      while todo != {}
        invariant Valid() && todo <= local
        invariant Raised(old(issues), old(active), issues, active, MissingUpTo(local, todo, seen))
        decreases todo
      {
        var k :| k in todo;
        ghost var raised := MissingUpTo(local, todo, seen);
        todo := todo - {k};
        if k !in seen {
          ghost var was, knew := issues, active;
          var key := IssueKey(MissingPosition, Futures, k.symbol);
          var _ := IssueOnce(key);
          RaisedTrans(old(issues), old(active), was, knew, issues, active, raised, {key});
          assert MissingUpTo(local, todo, seen) == raised + {key};
        } else {
          assert MissingUpTo(local, todo, seen) == raised;
        }
      }
    }

    /** The whole position step. */
    method ReconcilePositions(answer: Answer<PosItem>, now: int) returns (ok: bool, ghost raised: set<IssueKey>)
      requires Valid()
      modifies `issues, `nextIssue, `active, `positions
      ensures Valid() && ok == PositionsOk(answer)
      ensures answer.Answered? ==>
                && positions == SyncPositions(old(positions), GoodPosPrefix(answer.items), now)
                && raised == PositionsRaised(old(positions), answer.items)
      ensures !answer.Answered? ==> positions == old(positions) && raised == {}
      ensures Raised(old(issues), old(active), issues, active, raised)
    {
      raised := {};
      ok := !answer.Threw?;
      if answer.Answered? {
        var local := NonZero(positions);
        var bad, seen := ImportPositions(answer.items, local, now);
        raised := PositionIssues(local, GoodPosPrefix(answer.items));
        ok := !bad;
        if ok {
          ghost var was, knew, missing := issues, active, MissingUpTo(local, {}, seen);
          RaiseMissingPositions(local, seen);
          RaisedTrans(old(issues), old(active), was, knew, issues, active, raised, missing);
          assert missing == MissingPositionIssues(local, answer.items);
          raised := raised + missing;
        }
      }
    }

    /** Close every open row of a checked lock kind that this run did not raise, one commit at a
        time. With a limit, a write after that many raises: the rows closed so far stay closed. The
        keys of `gone` are the ones with no open row left. */
    method ResolveStale(ordersChecked: bool, positionsChecked: bool, limit: Option<nat>)
      returns (ok: bool, unlocked: set<string>, count: nat, ghost gone: set<IssueKey>)
      requires Valid()
      modifies `issues
      ensures Valid() && OnlyResolves(old(issues), issues) && issues.Keys == old(issues).Keys
      ensures ok == limit.None? && (limit.Some? ==> count <= limit.value)
      ensures count == |Closed(old(issues), issues)|
      ensures var stale := StaleKeys(old(issues), active, ordersChecked, positionsChecked);
              && gone <= stale && OpenKeys(issues) == OpenKeys(old(issues)) - gone
              && (limit.None? ==> gone == stale && unlocked == set k | k in gone && k.symbol != "" :: k.symbol)
              && (limit.Some? && count < limit.value ==> gone == stale)
    {
      var before := issues;
      var todo := set id | id in issues && OpenAt(issues, id) &&
          Eligible(issues[id].key, ordersChecked, positionsChecked);
      ok := limit.None?;
      ghost var left, closed;
      unlocked, count, left, closed := CloseRows(todo, limit, ordersChecked, positionsChecked);
      gone := StaleKeys(before, active, ordersChecked, positionsChecked) - OpenKeys(issues);
      ReleasingMeans(before, issues, left, closed, active, ordersChecked, positionsChecked);
    }

    /** The loop over the stale rows. */
    method CloseRows(stale: set<nat>, limit: Option<nat>, ghost oc: bool, ghost pc: bool)
      returns (unlocked: set<string>, count: nat, ghost left: set<nat>, ghost closed: set<nat>)
      requires forall id :: id in stale <==> StaleRow(issues, id, oc, pc)
      modifies `issues
      ensures Releasing(old(issues), issues, left, closed, active, oc, pc)
      ensures count == |closed| && unlocked == SymbolsOf(old(issues), closed)
      ensures if limit.None? then left == {} else count <= limit.value && (count < limit.value ==> left == {})
    {
      ghost var before := issues;
      var todo := stale;
      unlocked, count, closed := {}, 0, {};
      while todo != {} && (limit.Some? ==> count < limit.value)
        invariant (limit.Some? ==> count <= limit.value) && count == |closed| && unlocked == SymbolsOf(before, closed)
        invariant Releasing(before, issues, todo, closed, active, oc, pc)
        decreases todo
      {
        var id: nat :| id in todo;
        ReleasingStep(before, issues, todo, closed, active, oc, pc, id);
        todo := todo - {id};
        var key := issues[id].key;
        if key !in active {
          SymbolsOfMore(before, closed, id);
          issues := issues[id := issues[id].(status := Resolved)];
          count, closed := count + 1, closed + {id};
          if key.symbol != "" {
            unlocked := unlocked + {key.symbol};
          }
        }
      }
      left := todo;
    }

    /** A release under way: of the stale rows, those outside `todo` have been looked at, and the
        ones not raised in this run are closed. */
    static ghost predicate Releasing(before: IssueTable, now: IssueTable, todo: set<nat>, closed: set<nat>,
                                     active: set<IssueKey>, oc: bool, pc: bool)
    {
      && ClosedRows(before, now, closed)
      && (forall id | id in todo :: StaleRow(before, id, oc, pc))
      && (forall id :: id in closed <==> StaleRow(before, id, oc, pc) && id !in todo && before[id].key !in active)
    }

    static ghost predicate StaleRow(issues: IssueTable, id: nat, oc: bool, pc: bool) {
      OpenAt(issues, id) && Eligible(issues[id].key, oc, pc)
    }

    static lemma ReleasingStep(before: IssueTable, now: IssueTable, todo: set<nat>, closed: set<nat>,
                               active: set<IssueKey>, oc: bool, pc: bool, id: nat)
      requires Releasing(before, now, todo, closed, active, oc, pc) && id in todo
      ensures id in now && now[id] == before[id] && id !in closed
      ensures if before[id].key in active then Releasing(before, now, todo - {id}, closed, active, oc, pc)
              else Releasing(before, now[id := now[id].(status := Resolved)], todo - {id}, closed + {id},
                             active, oc, pc)
    {
    }

    /** What a release has done when it stops, early or at its end. */
    static lemma ReleasingMeans(before: IssueTable, now: IssueTable, todo: set<nat>, closed: set<nat>,
                                active: set<IssueKey>, oc: bool, pc: bool)
      requires Releasing(before, now, todo, closed, active, oc, pc)
      ensures now.Keys == before.Keys && OnlyResolves(before, now) && Closed(before, now) == closed
      ensures var stale := StaleKeys(before, active, oc, pc);
              && OpenKeys(now) == OpenKeys(before) - (stale - OpenKeys(now))
              && (todo == {} ==>
                    stale !! OpenKeys(now) &&
                    SymbolsOf(before, closed) == set k | k in stale && k.symbol != "" :: k.symbol)
    {
      assert Closed(before, now) == closed;
      ClosedKeys(before, now, closed, active, oc, pc);
      if todo == {} {
        AllClosed(before, now, closed, active, oc, pc);
        SymbolsOfKeys(before, closed, StaleKeys(before, active, oc, pc));
      }
    }

    static ghost function StaleKeys(issues: IssueTable, active: set<IssueKey>, oc: bool, pc: bool): set<IssueKey> {
      set k | k in OpenKeys(issues) && Eligible(k, oc, pc) && k !in active
    }

    /** The rows that a change of the table closed. */
    static ghost function Closed(before: IssueTable, after: IssueTable): set<nat> {
      set id | id in before && id in after && after[id].status != before[id].status
    }

    static ghost predicate ClosedRows(before: IssueTable, after: IssueTable, closed: set<nat>) {
      && after.Keys == before.Keys
      && forall id | id in before ::
           if id in closed then OpenAt(before, id) && after[id] == before[id].(status := Resolved)
           else after[id] == before[id]
    }

    static ghost function SymbolsOf(issues: IssueTable, ids: set<nat>): set<string> {
      set id | id in ids && id in issues && issues[id].key.symbol != "" :: issues[id].key.symbol
    }

    static lemma SymbolsOfMore(issues: IssueTable, ids: set<nat>, id: nat)
      requires id in issues
      ensures var symbol := issues[id].key.symbol;
              SymbolsOf(issues, ids + {id}) == SymbolsOf(issues, ids) + (if symbol != "" then {symbol} else {})
    {
      assert forall j | j in ids :: j in ids + {id};
      assert id in ids + {id};
    }

    /** Closing rows of stale keys leaves every other key as it was. */
    static lemma ClosedKeys(before: IssueTable, after: IssueTable, closed: set<nat>, active: set<IssueKey>,
                             oc: bool, pc: bool)
      requires ClosedRows(before, after, closed)
      requires forall id | id in closed :: id in before && Eligible(before[id].key, oc, pc) && before[id].key !in active
      ensures OpenKeys(after) == OpenKeys(before) - (StaleKeys(before, active, oc, pc) - OpenKeys(after))
    {
      forall k | k in OpenKeys(before) && k !in StaleKeys(before, active, oc, pc) ensures k in OpenKeys(after) {
        var id: nat :| id in before && OpenAt(before, id) && before[id].key == k;
        assert OpenAt(after, id);
      }
      forall k | k in OpenKeys(after) ensures k in OpenKeys(before) {
        var id: nat :| id in after && OpenAt(after, id) && after[id].key == k;
        assert OpenAt(before, id);
      }
    }

    /** When all their rows are closed, no stale key is open. */
    static lemma AllClosed(before: IssueTable, after: IssueTable, closed: set<nat>, active: set<IssueKey>,
                            oc: bool, pc: bool)
      requires ClosedRows(before, after, closed)
      requires forall id :: id in closed <==>
                 id in before && OpenAt(before, id) && Eligible(before[id].key, oc, pc) && before[id].key !in active
      ensures var stale := StaleKeys(before, active, oc, pc);
              stale !! OpenKeys(after) && stale == set id | id in closed && id in before :: before[id].key
    {
      forall k | k in OpenKeys(after) ensures k !in StaleKeys(before, active, oc, pc) {
        var id: nat :| id in after && OpenAt(after, id) && after[id].key == k;
        assert id !in closed;
      }
      forall k | k in StaleKeys(before, active, oc, pc)
        ensures exists id :: id in closed && id in before && before[id].key == k
      {
        var id: nat :| id in before && OpenAt(before, id) && before[id].key == k;
        assert id in closed;
      }
    }

    static lemma SymbolsOfKeys(issues: IssueTable, ids: set<nat>, keys: set<IssueKey>)
      requires ids <= issues.Keys && keys == set id | id in ids && id in issues :: issues[id].key
      ensures SymbolsOf(issues, ids) == set k | k in keys && k.symbol != "" :: k.symbol
    {
      forall k | k in keys && k.symbol != "" ensures k.symbol in SymbolsOf(issues, ids) {
        var id: nat :| id in ids && id in issues && issues[id].key == k;
      }
      forall s | s in SymbolsOf(issues, ids) ensures exists k :: k in keys && k.symbol == s && s != "" {
        var id: nat :| id in ids && id in issues && issues[id].key.symbol == s && s != "";
        assert issues[id].key in keys;
      }
    }

    /** Wallet and open orders. */
    method RunWalletAndOrders(input: RunInput) returns (ok: bool, ghost raised: set<IssueKey>)
      requires Valid()
      modifies this
      ensures Valid() && legacy == old(legacy) && Raised(old(issues), {}, issues, active, raised)
      ensures RunResult(Contents(), ok, raised) == GatherOrders(old(Contents()), input)
    {
      active := {};
      ReconcileWallet(input.walletIssues);
      ok, raised := input.walletOk, WalletKeys(input.walletIssues);
      if ok {
        ghost var was, knew, found := issues, active, raised;
        ok, found := ReconcileOpenOrders(input.orders);
        RaisedTrans(old(issues), {}, was, knew, issues, active, raised, found);
        raised := raised + found;
      }
    }

    /** Every step before the release of stale locks. */
    method RunSteps(input: RunInput) returns (ok: bool, ghost raised: set<IssueKey>)
      requires Valid()
      modifies this
      ensures Valid() && legacy == old(legacy) && Raised(old(issues), {}, issues, active, raised)
      ensures RunResult(Contents(), ok, raised) == Gather(old(Contents()), input)
    {
      ok, raised := RunWalletAndOrders(input);
      ok := ok && input.fillsOk;
      if ok {
        ghost var was, knew, found := issues, active, raised;
        ok, found := ReconcilePositions(input.positions, input.now);
        RaisedTrans(old(issues), {}, was, knew, issues, active, raised, found);
        raised := raised + found;
      }
    }

    /** One reconciliation run. With a limit, a write of the release or one of the closing writes
        raises once that many rows are resolved; `ending` tells what the release had done by then. */
    method RunOnce(input: RunInput, limit: Option<nat>) returns (success: bool, ghost ending: Ending)
      requires Valid()
      modifies this
      ensures Valid() && legacy == old(legacy)
      ensures limit.None? ==> ending == Completes
      ensures limit.Some? ==> ending.Raises?
      ensures var r := Reconciliation.Run(old(Contents()), input.(ending := ending));
              Contents() == r.db && success == r.success
      ensures OneOpenPerKey(old(issues)) ==> OneOpenPerKey(issues)
      ensures OnlyResolves(old(issues), issues)
    {
      ghost var raised;
      ending := if limit.None? then Completes else Raises({});
      success, raised := RunSteps(input);
      assert RunResult(Contents(), success, raised) == Gather(old(Contents()), input);
      if success {
        ghost var before := OpenKeys(issues);
        var released, unlocked, count;
        ghost var gone;
        released, unlocked, count, gone := ResolveStale(input.orders.Answered?, input.positions.Answered?, limit);
        success := released;
        assert active == ActiveOf(raised);
        if limit.Some? {
          ending := Raises(gone);
        }
        assert OpenKeys(issues) == before - Gone(Stale(before, raised, input), ending);
      }
    }

    /** The entry gate's view: for each symbol with an open lock issue, the kinds open on it. */
    method LoadSymbolLocks() returns (locks: map<string, set<Kind>>)
      requires Valid()
      ensures forall s :: s in locks <==> Blocked(OpenKeys(issues), s)
      ensures forall s | s in locks ::
                locks[s] == set k | k in OpenKeys(issues) && IsLockKind(k.kind) && k.symbol == s :: k.kind
    {
      var rows := set id | id in issues && OpenAt(issues, id) && Active(issues[id].key);
      locks := map[];
      var todo := rows;
      while todo != {}
        invariant todo <= rows && rows <= issues.Keys
        invariant LocksOf(issues, rows - todo, locks)
        decreases todo
      {
        var id :| id in todo;
        LocksStep(issues, rows - todo, locks, id);
        assert rows - (todo - {id}) == (rows - todo) + {id};
        todo := todo - {id};
        locks := AddLock(locks, issues[id].key);
      }
      assert rows - {} == rows;
      LocksAreOpen(rows, locks);
    }

    static function AddLock(locks: map<string, set<Kind>>, key: IssueKey): map<string, set<Kind>> {
      locks[key.symbol := (if key.symbol in locks then locks[key.symbol] else {}) + {key.kind}]
    }

    /** The kinds collected from some rows, by symbol. */
    static ghost predicate LocksOf(issues: IssueTable, rows: set<nat>, locks: map<string, set<Kind>>) {
      && (forall id | id in rows ::
            id in issues && issues[id].key.symbol in locks && issues[id].key.kind in locks[issues[id].key.symbol])
      && (forall s, k | s in locks && k in locks[s] :: SomeRow(issues, rows, s, k))
      && (forall s | s in locks :: locks[s] != {})
    }

    static ghost predicate SomeRow(issues: IssueTable, rows: set<nat>, symbol: string, kind: Kind) {
      exists id :: id in rows && id in issues && issues[id].key.symbol == symbol && issues[id].key.kind == kind
    }

    static lemma LocksStep(issues: IssueTable, rows: set<nat>, locks: map<string, set<Kind>>, id: nat)
      requires LocksOf(issues, rows, locks) && id in issues
      ensures LocksOf(issues, rows + {id}, AddLock(locks, issues[id].key))
    {
      var after, key := AddLock(locks, issues[id].key), issues[id].key;
      forall s, k | s in after && k in after[s] ensures SomeRow(issues, rows + {id}, s, k) {
        if s == key.symbol && k == key.kind {
          assert id in rows + {id};
        } else {
          assert SomeRow(issues, rows, s, k);
          var j: nat :| j in rows && j in issues && issues[j].key.symbol == s && issues[j].key.kind == k;
          assert j in rows + {id};
        }
      }
    }

    lemma LocksAreOpen(rows: set<nat>, locks: map<string, set<Kind>>)
      requires rows == set id | id in issues && OpenAt(issues, id) && Active(issues[id].key)
      requires LocksOf(issues, rows, locks)
      ensures forall s :: s in locks <==> Blocked(OpenKeys(issues), s)
      ensures forall s | s in locks ::
                locks[s] == set k | k in OpenKeys(issues) && IsLockKind(k.kind) && k.symbol == s :: k.kind
    {
      var open := OpenKeys(issues);
      forall s | Blocked(open, s) ensures s in locks {
        var k :| k in open && IsLockKind(k.kind) && k.symbol == s;
        var id: nat :| id in issues && OpenAt(issues, id) && issues[id].key == k;
        assert id in rows;
      }
      forall s | s in locks
        ensures Blocked(open, s) && locks[s] == set k | k in open && IsLockKind(k.kind) && k.symbol == s :: k.kind
      {
        var kinds := set k | k in open && IsLockKind(k.kind) && k.symbol == s :: k.kind;
        var some :| some in locks[s];
        assert SomeRow(issues, rows, s, some);
        var first: nat :| first in rows && first in issues && issues[first].key.symbol == s &&
            issues[first].key.kind == some;
        assert issues[first].key in open;
        forall k | k in locks[s] ensures k in kinds {
          assert SomeRow(issues, rows, s, k);
          var id: nat :| id in rows && id in issues && issues[id].key.symbol == s && issues[id].key.kind == k;
          assert issues[id].key in open;
        }
        forall k | k in kinds ensures k in locks[s] {
          var key :| key in open && IsLockKind(key.kind) && key.symbol == s && key.kind == k;
          var id: nat :| id in issues && OpenAt(issues, id) && issues[id].key == key;
          assert id in rows;
        }
      }
    }
  }
}
