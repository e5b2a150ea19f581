/** Runs cut off between two commits by a database call that raises: what they leave behind, and
    what later runs make of it. A raise before an element is touched is already an unreadable
    element of Reconciliation.dfy; here it comes after the first of several commits for one. */
module ReconciliationFaults {
  import opened FuturesStore
  import opened Reconciliation
  import opened ReconciliationFixpoint

  /** Where the run was cut off: after the issue of an order and before its row; while marking
      unlisted orders, `marked` being marked and of these `silent` without their issue; after the
      row of a position, with or without its orphan issue; or while raising missing positions. */
  datatype Cut =
    | InOrders(n: nat)
    | InMarking(marked: set<Link>, silent: set<Link>)
    | InPositions(n: nat, orphan: bool)
    | InMissing(done: set<PosKey>)

  /** The order rows and issues when all listed orders are imported. */
  function Imported(db: Db, items: seq<OrderItem>): OrderPass
    requires GoodOrders(items)
  {
    SyncOrders(OrderPass(db.orders, db.nextLink, {}), items, db.legacy)
  }

  /** The run gets as far as the cut. */
  ghost predicate Fits(db: Db, input: RunInput, cut: Cut) {
    && input.walletOk && input.orders.Answered?
    && match cut
       case InOrders(n) => n < |GoodPrefix(input.orders.items)|
       case InMarking(marked, silent) =>
         && GoodOrders(input.orders.items) && silent <= marked
         && forall l | l in marked ::
              Lost(Imported(db, input.orders.items).rows, l, Links(input.orders.items), Ids(input.orders.items))
       case InPositions(n, orphan) =>
         && OrdersOk(input.orders) && input.fillsOk && input.positions.Answered?
         && n < |GoodPosPrefix(input.positions.items)| && Usable(input.positions.items[n])
       case InMissing(done) =>
         && OrdersOk(input.orders) && input.fillsOk && input.positions.Answered?
         && GoodPositions(input.positions.items)
         && forall k | k in done :: k in NonZero(db.positions) && k !in ExchangeKeys(input.positions.items)
  }

  function Mark(rows: OrderTable, marked: set<Link>): OrderTable {
    map l | l in rows :: if l in marked then rows[l].(status := MissingOnExchange) else rows[l]
  }

  ghost function MarkIssues(rows: OrderTable, marked: set<Link>): set<IssueKey> {
    set l | l in marked && l in rows :: IssueKey(MissingOrder, Futures, rows[l].symbol)
  }

  ghost function OrphanOf(db: Db, item: PosItem): set<IssueKey> {
    if Usable(item) && KeyOf(item) !in NonZero(db.positions)
    then {IssueKey(OrphanedPosition, Futures, item.symbol)} else {}
  }

  function MissingIssues(keys: set<PosKey>): set<IssueKey> {
    set k | k in keys :: IssueKey(MissingPosition, Futures, k.symbol)
  }

  /** The issues raised up to the cut. */
  ghost function RaisedBefore(db: Db, input: RunInput, cut: Cut): set<IssueKey>
    requires Fits(db, input, cut)
  {
    match cut
    case InOrders(n) =>
      var p := Imported(db, GoodPrefix(input.orders.items)[..n]);
      WalletKeys(input.walletIssues) + p.raised + OrphanIssue(p.rows, GoodPrefix(input.orders.items)[n], db.legacy)
    case InMarking(marked, silent) =>
      var p := Imported(db, input.orders.items);
      WalletKeys(input.walletIssues) + p.raised + MarkIssues(p.rows, marked - silent)
    case InPositions(n, orphan) =>
      GatherOrders(db, input).raised + PositionIssues(NonZero(db.positions), input.positions.items[..n]) +
      (if orphan then OrphanOf(db, input.positions.items[n]) else {})
    case InMissing(done) =>
      GatherOrders(db, input).raised + PositionIssues(NonZero(db.positions), input.positions.items) +
      MissingIssues(done)
  }

  /** The database a run leaves that is cut off there. Nothing has been released yet. */
  ghost function CutOff(db: Db, input: RunInput, cut: Cut): Db
    requires Fits(db, input, cut)
  {
    var open := db.open + RaisedBefore(db, input, cut);
    match cut
    case InOrders(n) =>
      var p := Imported(db, GoodPrefix(input.orders.items)[..n]);
      db.(open := open, orders := p.rows, nextLink := p.next)
    case InMarking(marked, _) =>
      var p := Imported(db, input.orders.items);
      db.(open := open, orders := Mark(p.rows, marked), nextLink := p.next)
    case InPositions(n, _) =>
      GatherOrders(db, input).db.(open := open,
        positions := SyncPositions(db.positions, input.positions.items[..n + 1], input.now))
    case InMissing(_) =>
      GatherOrders(db, input).db.(open := open,
        positions := SyncPositions(db.positions, input.positions.items, input.now))
  }

  // ----- Safety ----------------------------------------------------------------------------

  lemma {:induction false} RaisedGrows(p: OrderPass, items: seq<OrderItem>, legacy: set<LegacyOrder>, n: nat)
    requires GoodOrders(items) && n <= |items|
    ensures SyncOrders(p, items[..n], legacy).raised <= SyncOrders(p, items, legacy).raised
  {
    if n == |items| {
      assert items[..n] == items;
    } else {
      assert items[..|items| - 1][..n] == items[..n];
      RaisedGrows(p, items[..|items| - 1], legacy, n);
    }
  }

  lemma PositionIssuesOfPart(local: set<PosKey>, part: seq<PosItem>, all: seq<PosItem>, n: nat)
    requires n <= |all| && part == all[..n]
    ensures PositionIssues(local, part) <= PositionIssues(local, all)
  {
    assert forall i | 0 <= i < n :: part[i] == all[i];
  }

  /** What the order step raises, up to a cut, is some of what the whole step raises. */
  lemma OrderCutRaises(db: Db, input: RunInput, cut: Cut)
    requires Fits(db, input, cut) && (cut.InOrders? || cut.InMarking?)
    ensures RaisedBefore(db, input, cut) <= GatherOrders(db, input).raised
  {
    var items := GoodPrefix(input.orders.items);
    var p := OrderPass(db.orders, db.nextLink, {});
    match cut
    case InOrders(n) =>
      assert items[..n + 1][..n] == items[..n];
      RaisedGrows(p, items, db.legacy, n + 1);
    case InMarking(marked, silent) =>
      GoodPrefixAll(items);
      GoodPrefixAll(input.orders.items);
  }

  /** SAFE TO CUT. A run that is cut off between two commits has released nothing and raised no
      issue that the whole run would not have raised. */
  lemma CutOffIsSafe(db: Db, input: RunInput, cut: Cut)
    requires Fits(db, input, cut)
    ensures db.open <= CutOff(db, input, cut).open <= db.open + Gather(db, input).raised
  {
    match cut {
      case InOrders(_) => OrderCutRaises(db, input, cut);
      case InMarking(_, _) => OrderCutRaises(db, input, cut);
      case InPositions(n, _) =>
        var items, good := input.positions.items, GoodPosPrefix(input.positions.items);
        assert items[..n] == good[..n] && items[n] == good[n];
        PositionIssuesOfPart(NonZero(db.positions), good[..n], good, n);
      case InMissing(done) =>
        GoodPosPrefixAll(input.positions.items);
        forall k | k in MissingIssues(done)
          ensures k in MissingPositionIssues(NonZero(db.positions), input.positions.items)
        {
          var key :| key in done && k == IssueKey(MissingPosition, Futures, key.symbol);
        }
    }
  }

  lemma CutOffKeepsLinksFresh(db: Db, input: RunInput, cut: Cut)
    requires Fits(db, input, cut) && LinksFresh(db.orders, db.nextLink)
    ensures LinksFresh(CutOff(db, input, cut).orders, CutOff(db, input, cut).nextLink)
  {
    var p := OrderPass(db.orders, db.nextLink, {});
    match cut
    case InOrders(n) => SyncRecords(p, GoodPrefix(input.orders.items)[..n], db.legacy);
    case InMarking(_, _) => SyncRecords(p, input.orders.items, db.legacy);
    case _ => SyncRecords(p, GoodPrefix(input.orders.items), db.legacy);
  }

  /** Two or more answered runs after a cut settle every lock, as after any other failure. */
  lemma ConvergenceAfterCut(db: Db, input: RunInput, cut: Cut, inputs: seq<RunInput>,
                            orders: seq<OrderItem>, positions: seq<PosItem>, k: IssueKey)
    requires Fits(db, input, cut) && LinksFresh(db.orders, db.nextLink)
    requires |inputs| >= 2 && GoodOrders(orders) && GoodPositions(positions) && AllAnswer(inputs, orders, positions)
    requires IsLockKind(k.kind) && k.domain == Futures && k.symbol != ""
    ensures k in RunAll(CutOff(db, input, cut), inputs).open <==>
            match k.kind
            case OrphanedPosition => false
            case MissingPosition =>
              exists p :: p in NonZero(CutOff(db, input, cut).positions) && p !in ExchangeKeys(positions) &&
                  p.symbol == k.symbol
            case _ => k in BareOrphans(orders) + BareLost(orders)
  {
    CutOffKeepsLinksFresh(db, input, cut);
    Convergence(CutOff(db, input, cut), inputs, orders, positions, k);
  }

  // ----- What stays silent -----------------------------------------------------------------

  /** A row was left marked with its issue unraised, and the symbol has no other lost order. */
  ghost predicate OnlyMarked(db: Db, orders: seq<OrderItem>, marked: set<Link>, symbol: string)
    requires GoodOrders(orders)
  {
    && !FromBare(orders, symbol)
    && forall l | Lost(Imported(db, orders).rows, l, Links(orders), Ids(orders)) ::
         Imported(db, orders).rows[l].symbol == symbol ==> l in marked
  }

  /** SILENT MARK. A cut between marking a row and raising its issue hides the loss: the next run,
      on the same lists, locks the symbol exactly if another of its orders, not yet marked, is lost
      or bare. The row itself no longer counts as working and is never reported. */
  lemma SilentMark(db: Db, input: RunInput, cut: Cut, later: RunInput, orders: seq<OrderItem>,
                   positions: seq<PosItem>, symbol: string)
    requires Fits(db, input, cut) && cut.InMarking? && input.orders == Answered(orders)
    requires Answers(later, orders, positions) && LinksFresh(db.orders, db.nextLink) && symbol != ""
    ensures IssueKey(MissingOrder, Futures, symbol) in Run(CutOff(db, input, cut), later).db.open <==>
            !OnlyMarked(db, orders, cut.marked, symbol)
  {
    var after, rows := CutOff(db, input, cut), Imported(db, orders).rows;
    CutOffKeepsLinksFresh(db, input, cut);
    LostLockIff(after, later, orders, positions, symbol);
    forall l ensures Lost(after.orders, l, Links(orders), Ids(orders)) <==>
                     Lost(rows, l, Links(orders), Ids(orders)) && l !in cut.marked {}
    if l :| Lost(rows, l, Links(orders), Ids(orders)) && rows[l].symbol == symbol && l !in cut.marked {
      assert Lost(after.orders, l, Links(orders), Ids(orders)) && after.orders[l].symbol == symbol;
    }
  }

  /** SILENT IMPORT. A cut between writing a position's row and raising its issue hides the orphan:
      the next run, on the same positions, locks the symbol exactly if another of its positions is
      neither local nor already imported. */
  lemma SilentImport(db: Db, input: RunInput, cut: Cut, later: RunInput, orders: seq<OrderItem>,
                     positions: seq<PosItem>, symbol: string)
    requires Fits(db, input, cut) && cut.InPositions? && input.positions == Answered(positions)
    requires Answers(later, orders, positions) && symbol != ""
    ensures IssueKey(OrphanedPosition, Futures, symbol) in Run(CutOff(db, input, cut), later).db.open <==>
            exists k :: k in ExchangeKeys(positions) && k !in NonZero(db.positions) &&
                k !in ExchangeKeys(positions[..cut.n + 1]) && k.symbol == symbol
    ensures KeyOf(positions[cut.n]) in ExchangeKeys(positions[..cut.n + 1])
  {
    PositionLocks(CutOff(db, input, cut), later, orders, positions, symbol);
    SyncNonZero(db.positions, positions[..cut.n + 1], input.now);
    assert positions[..cut.n + 1][cut.n] == positions[cut.n];
  }
}
