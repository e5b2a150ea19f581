/** One reconciliation run as a function on the local database (futures side), and what runs
    promise: which entry locks stand after a run, what a run may release, and where a
    sequence of runs settles.

    Issues are represented here by the set of keys that have an open row; the class in
    ReconciliationService.dfy keeps the rows themselves and is proved to follow this model. */
module Reconciliation {
  import opened FuturesStore

  datatype Kind = OrphanedOrder | MissingOrder | OrphanedPosition | MissingPosition | OtherKind(name: string)

  datatype Domain = Futures | Spot | Shared

  /** An issue with no symbol has the symbol "". */
  datatype IssueKey = IssueKey(kind: Kind, domain: Domain, symbol: string)

  /** Order statuses; New and PartiallyFilled are the ones that count as working. */
  datatype OrderStatus = New | PartiallyFilled | MissingOnExchange | OtherStatus(name: string)

  /** The key of an order row: the client's link id, or an id made up locally for an order
      that came without one. */
  datatype Link = Given(text: string) | Generated(n: nat)

  /** An absent exchange id is "". */
  datatype OrderRow = OrderRow(id: string, symbol: string, status: OrderStatus)

  type OrderTable = map<Link, OrderRow>

  datatype LegacyOrder = LegacyOrder(link: string, id: string)

  datatype OrderItem =
    | BadOrder
    | OrderItem(symbol: string, link: string, id: string, status: OrderStatus)

  datatype Db = Db(open: set<IssueKey>, orders: OrderTable, nextLink: nat,
                   legacy: set<LegacyOrder>, positions: PosTable)

  /** A query either raises, is refused, or is answered. */
  datatype Answer<T> = Threw | Rejected | Answered(items: seq<T>)

  /** What the wallet and fill steps do that matters here: the issues they raise (never of a
      lock kind) and whether they complete. */
  datatype RunInput = RunInput(walletIssues: seq<WalletIssue>, walletOk: bool, orders: Answer<OrderItem>,
                               fillsOk: bool, positions: Answer<PosItem>, now: int, ending: Ending)

  /** How the release of stale locks and the closing writes go: through to the end, or up to a
      database call that raises. By then the release had resolved these keys, all, some or none. */
  datatype Ending = Completes | Raises(resolved: set<IssueKey>)

  datatype WalletIssue = WalletIssue(name: string, domain: Domain, symbol: string)

  // ----- Issue kinds -------------------------------------------------------------------

  predicate IsLockKind(k: Kind) {
    k.OrphanedOrder? || k.MissingOrder? || k.OrphanedPosition? || k.MissingPosition?
  }

  predicate IsOrderKind(k: Kind) {
    k.OrphanedOrder? || k.MissingOrder?
  }

  predicate IsPositionKind(k: Kind) {
    k.OrphanedPosition? || k.MissingPosition?
  }

  /** The entry gate refuses a symbol with an open lock issue, whatever its domain. */
  predicate Blocked(open: set<IssueKey>, symbol: string) {
    symbol != "" && exists k :: k in open && IsLockKind(k.kind) && k.symbol == symbol
  }

  /** The keys the service remembers as raised in the current run. */
  predicate Active(k: IssueKey) {
    IsLockKind(k.kind) && k.symbol != ""
  }

  predicate Eligible(k: IssueKey, ordersChecked: bool, positionsChecked: bool) {
    k.domain == Futures &&
    ((ordersChecked && IsOrderKind(k.kind)) || (positionsChecked && IsPositionKind(k.kind)))
  }

  function WalletKey(w: WalletIssue): IssueKey {
    IssueKey(OtherKind(w.name), w.domain, w.symbol)
  }

  function WalletKeys(ws: seq<WalletIssue>): set<IssueKey> {
    set i | 0 <= i < |ws| :: WalletKey(ws[i])
  }

  // ----- Open orders -------------------------------------------------------------------

  predicate Working(s: OrderStatus) {
    s.New? || s.PartiallyFilled?
  }

  /** Some local row, old table or new, carries the order's link or its exchange id. */
  predicate Tracked(rows: OrderTable, legacy: set<LegacyOrder>, link: string, id: string) {
    || (exists l :: l in legacy && ((link != "" && l.link == link) || (id != "" && l.id == id)))
    || (exists l :: l in rows && ((link != "" && l == Given(link)) || (id != "" && rows[l].id == id)))
  }

  datatype OrderPass = OrderPass(rows: OrderTable, next: nat, raised: set<IssueKey>)

  function Upsert(rows: OrderTable, link: Link, item: OrderItem): OrderTable
    requires item.OrderItem?
  {
    if link in rows then
      rows[link := OrderRow(if item.id != "" then item.id else rows[link].id, rows[link].symbol, item.status)]
    else
      rows[link := OrderRow(item.id, item.symbol, item.status)]
  }

  /** The issue an item raises: an order on the exchange that nothing local knows. */
  function OrphanIssue(rows: OrderTable, item: OrderItem, legacy: set<LegacyOrder>): set<IssueKey>
    requires item.OrderItem?
  {
    if item.symbol == "" || Tracked(rows, legacy, item.link, item.id) then {}
    else {IssueKey(OrphanedOrder, Futures, item.symbol)}
  }

  function SyncOrder(p: OrderPass, item: OrderItem, legacy: set<LegacyOrder>): OrderPass
    requires item.OrderItem?
  {
    var raised := p.raised + OrphanIssue(p.rows, item, legacy);
    if item.symbol == "" then p.(raised := raised)
    else if item.link != "" then OrderPass(Upsert(p.rows, Given(item.link), item), p.next, raised)
    else OrderPass(Upsert(p.rows, Generated(p.next), item), p.next + 1, raised)
  }

  predicate GoodOrders(items: seq<OrderItem>) {
    forall i | 0 <= i < |items| :: items[i].OrderItem?
  }

  function SyncOrders(p: OrderPass, items: seq<OrderItem>, legacy: set<LegacyOrder>): OrderPass
    requires GoodOrders(items)
  {
    if items == [] then p
    else SyncOrder(SyncOrders(p, items[..|items| - 1], legacy), items[|items| - 1], legacy)
  }

  function Links(items: seq<OrderItem>): set<string> {
    set i | 0 <= i < |items| && items[i].OrderItem? && items[i].symbol != "" && items[i].link != "" :: items[i].link
  }

  function Ids(items: seq<OrderItem>): set<string> {
    set i | 0 <= i < |items| && items[i].OrderItem? && items[i].symbol != "" && items[i].id != "" :: items[i].id
  }

  predicate SeenOnExchange(l: Link, row: OrderRow, links: set<string>, ids: set<string>) {
    (l.Given? && l.text in links) || row.id in ids
  }

  predicate Lost(rows: OrderTable, l: Link, links: set<string>, ids: set<string>) {
    l in rows && Working(rows[l].status) && !SeenOnExchange(l, rows[l], links, ids)
  }

  function MarkLost(rows: OrderTable, links: set<string>, ids: set<string>): OrderTable {
    map l | l in rows ::
      if Lost(rows, l, links, ids) then rows[l].(status := MissingOnExchange) else rows[l]
  }

  function LostKeys(rows: OrderTable, links: set<string>, ids: set<string>): set<IssueKey> {
    set l | l in rows && Lost(rows, l, links, ids) :: IssueKey(MissingOrder, Futures, rows[l].symbol)
  }

  /** The readable part of a list: up to its first bad element. */
  function GoodPrefix(items: seq<OrderItem>): seq<OrderItem>
    ensures GoodOrders(GoodPrefix(items))
    ensures |GoodPrefix(items)| <= |items| && GoodPrefix(items) == items[..|GoodPrefix(items)|]
    ensures |GoodPrefix(items)| < |items| ==> items[|GoodPrefix(items)|].BadOrder?
  {
    if items == [] || items[0].BadOrder? then [] else [items[0]] + GoodPrefix(items[1..])
  }

  /** The whole step; a bad element ends it early, after the earlier ones took effect. */
  function OrdersStep(rows: OrderTable, next: nat, legacy: set<LegacyOrder>, items: seq<OrderItem>): OrderPass {
    var p := SyncOrders(OrderPass(rows, next, {}), GoodPrefix(items), legacy);
    if GoodOrders(items) then
      OrderPass(MarkLost(p.rows, Links(items), Ids(items)), p.next,
                p.raised + LostKeys(p.rows, Links(items), Ids(items)))
    else p
  }

  // ----- Positions ---------------------------------------------------------------------

  predicate GoodPositions(items: seq<PosItem>) {
    forall i | 0 <= i < |items| :: items[i].PosItem?
  }

  function GoodPosPrefix(items: seq<PosItem>): seq<PosItem>
    ensures GoodPositions(GoodPosPrefix(items))
    ensures |GoodPosPrefix(items)| <= |items| && GoodPosPrefix(items) == items[..|GoodPosPrefix(items)|]
    ensures |GoodPosPrefix(items)| < |items| ==> items[|GoodPosPrefix(items)|].BadPosition?
  {
    if items == [] || items[0].BadPosition? then [] else [items[0]] + GoodPosPrefix(items[1..])
  }

  const UNPROTECTED_POSITION := OtherKind("unprotected_position")

  function PositionIssues(local: set<PosKey>, items: seq<PosItem>): set<IssueKey> {
    (set i | 0 <= i < |items| && Usable(items[i]) && KeyOf(items[i]) !in local ::
       IssueKey(OrphanedPosition, Futures, items[i].symbol)) +
    (set i | 0 <= i < |items| && Usable(items[i]) && !Guarded(items[i]) ::
       IssueKey(UNPROTECTED_POSITION, Futures, items[i].symbol))
  }

  function MissingPositionIssues(local: set<PosKey>, items: seq<PosItem>): set<IssueKey> {
    set k | k in local && k !in ExchangeKeys(items) :: IssueKey(MissingPosition, Futures, k.symbol)
  }

  function PositionsRaised(positions: PosTable, items: seq<PosItem>): set<IssueKey> {
    var local := NonZero(positions);
    PositionIssues(local, GoodPosPrefix(items)) +
    (if GoodPositions(items) then MissingPositionIssues(local, items) else {})
  }

  // ----- One run -----------------------------------------------------------------------

  datatype RunResult = RunResult(db: Db, success: bool, raised: set<IssueKey>)

  function Released(open: set<IssueKey>, raised: set<IssueKey>, ordersChecked: bool,
                    positionsChecked: bool): set<IssueKey>
  {
    set k | k in open && Eligible(k, ordersChecked, positionsChecked) && !(k in raised && Active(k))
  }

  function AfterOrders(db: Db, input: RunInput): (Db, set<IssueKey>)
  {
    if input.orders.Answered? then
      var p := OrdersStep(db.orders, db.nextLink, db.legacy, input.orders.items);
      (db.(orders := p.rows, nextLink := p.next), p.raised)
    else (db, {})
  }

  function AfterPositions(db: Db, input: RunInput): (Db, set<IssueKey>)
  {
    if input.positions.Answered? then
      (db.(positions := SyncPositions(db.positions, GoodPosPrefix(input.positions.items), input.now)),
       PositionsRaised(db.positions, input.positions.items))
    else (db, {})
  }

  predicate OrdersOk(a: Answer<OrderItem>) {
    !a.Threw? && (a.Answered? ==> GoodOrders(a.items))
  }

  predicate PositionsOk(a: Answer<PosItem>) {
    !a.Threw? && (a.Answered? ==> GoodPositions(a.items))
  }

  /** Wallet and orders; the first half of a run. */
  function GatherOrders(db: Db, input: RunInput): RunResult {
    var r0 := WalletKeys(input.walletIssues);
    var db0 := db.(open := db.open + r0);
    if !input.walletOk then RunResult(db0, false, r0)
    else
      var (db1, r1) := AfterOrders(db0, input);
      RunResult(db1.(open := db.open + (r0 + r1)), OrdersOk(input.orders), r0 + r1)
  }

  /** Wallet, orders, fills, positions; a step that raises ends the run as failed, with
      everything done so far kept. */
  function Gather(db: Db, input: RunInput): RunResult {
    var g := GatherOrders(db, input);
    if !g.success || !input.fillsOk then g.(success := false)
    else
      var (db2, r2) := AfterPositions(g.db, input);
      RunResult(db2.(open := db.open + (g.raised + r2)), PositionsOk(input.positions), g.raised + r2)
  }

  /** Every step before the release gets through. */
  predicate Gathers(input: RunInput) {
    input.walletOk && OrdersOk(input.orders) && input.fillsOk && PositionsOk(input.positions)
  }

  /** The locks a run sets out to release. */
  function Stale(open: set<IssueKey>, raised: set<IssueKey>, input: RunInput): set<IssueKey> {
    Released(open, raised, input.orders.Answered?, input.positions.Answered?)
  }

  /** Of these, the ones it gets to. */
  function Gone(stale: set<IssueKey>, ending: Ending): set<IssueKey> {
    if ending.Completes? then stale else stale * ending.resolved
  }

  /** A whole run. One that got through every step goes on to release stale locks; each release is
      committed at once, and stays when a later call of the same run raises. */
  function Run(db: Db, input: RunInput): RunResult {
    var g := Gather(db, input);
    if g.success then
      RunResult(g.db.(open := g.db.open - Gone(Stale(g.db.open, g.raised, input), input.ending)),
                input.ending.Completes?, g.raised)
    else g
  }

  /** Locally made link ids are below the counter, so the next one is new. */
  ghost predicate LinksFresh(rows: OrderTable, next: nat) {
    forall l | l in rows && l.Generated? :: l.n < next
  }

  // ----- What one run promises ----------------------------------------------------------

  lemma RunOpen(db: Db, input: RunInput)
    ensures var r := Run(db, input);
            r.db.open == db.open + r.raised -
            (if Gathers(input) then Gone(Stale(db.open + r.raised, r.raised, input), input.ending) else {})
    ensures Run(db, input).success <==> Gathers(input) && input.ending.Completes?
  {
    var g := Gather(db, input);
    assert g.db.open == db.open + g.raised;
  }

  /** After a successful run, the open issues of each checked lock kind are exactly the ones
      (with a symbol) raised in that run. */
  lemma LockExactness(db: Db, input: RunInput, k: IssueKey)
    requires Run(db, input).success
    requires Eligible(k, input.orders.Answered?, input.positions.Answered?)
    ensures k in Run(db, input).db.open <==> k in Run(db, input).raised && k.symbol != ""
  {
    RunOpen(db, input);
  }

  /** A run that fails before the release releases nothing; and no run at all releases an issue
      of a kind whose query was not answered, or outside the four futures lock kinds. */
  lemma NoFalseRelease(db: Db, input: RunInput, k: IssueKey)
    requires k in db.open
    requires !Gathers(input) || !Eligible(k, input.orders.Answered?, input.positions.Answered?)
    ensures k in Run(db, input).db.open
  {
    RunOpen(db, input);
  }

  /** A lock that any run releases, successful or not, had lost its cause: every step had got
      through, its kind was asked about, and it was not raised again. */
  lemma ReleaseNeedsAbsence(db: Db, input: RunInput, k: IssueKey)
    requires k in db.open && k !in Run(db, input).db.open
    ensures Gathers(input) && Eligible(k, input.orders.Answered?, input.positions.Answered?)
    ensures k !in Run(db, input).raised || k.symbol == ""
  {
    RunOpen(db, input);
  }

  /** A failed run releases nothing if and only if it failed before the release, or the release
      raised before it had resolved a stale lock that was open at the start. */
  lemma FailedRunReleasesNothingIff(db: Db, input: RunInput)
    requires !Run(db, input).success
    ensures db.open <= Run(db, input).db.open <==>
            !Gathers(input) || Gone(Stale(db.open, Run(db, input).raised, input), input.ending) == {}
  {
    RunOpen(db, input);
    var raised, open := Run(db, input).raised, Run(db, input).db.open;
    var gone := Gone(Stale(db.open, raised, input), input.ending);
    if Gathers(input) {
      assert forall k | k in gone :: k in db.open && k !in open;
      assert forall k | k in db.open && k !in open :: k in gone;
    }
  }

  /** One open lock, both lists answered and empty, and the write that follows its release raises:
      the run fails and the lock is gone. */
  lemma FailedRunCanRelease(db: Db, lock: IssueKey, now: int)
    requires lock == IssueKey(OrphanedOrder, Futures, "BTCUSDT") && db.open == {lock}
    ensures var input := RunInput([], true, Answered([]), true, Answered([]), now, Raises({lock}));
            !Run(db, input).success && lock !in Run(db, input).db.open
  {
    var input := RunInput([], true, Answered([]), true, Answered([]), now, Raises({lock}));
    RunOpen(db, input);
    var p := OrdersStep(db.orders, db.nextLink, db.legacy, []);
    assert p.raised == LostKeys(db.orders, {}, {});
    forall k | k in Run(db, input).raised ensures k != lock {}
  }
}
