/** The life of a futures position's protection: stop attempts, verification against the
    exchange, the other writers of the position table, and the gates that read it. */
module Protection {
  import opened FuturesStore
  import opened Options
  import opened RealArith
  import Reconciliation

  // ----- Status machine and risk state ------------------------------------------------------

  predicate Blocking(s: ProtectionStatus) {
    s.Pending? || s.Repairing? || s.Failed? || s.Unprotected?
  }

  function Transition(current: ProtectionStatus, attempted: bool, success: bool,
                      verified: Option<ProtectionStatus>): ProtectionStatus
  {
    if !attempted then current
    else if !success then Failed
    else match verified
      case Some(Protected) => Protected
      case Some(Closed) => Closed
      case Some(Failed) => Failed
      case Some(Unprotected) => if current.Pending? then Unprotected else Failed
      case _ => Failed
  }

  datatype RiskState = UnprotectedPosition | SoftFailure | HardFailure | UnknownRisk | FloatingLoss | Healthy

  function Classify(status: ProtectionStatus, pnl: Option<real>, liqBps: Option<real>): RiskState {
    if status.Unprotected? then UnprotectedPosition
    else if status.Failed? || status.Repairing? then SoftFailure
    else if liqBps.Some? && liqBps.value <= 50.0 then HardFailure
    else if pnl.None? then UnknownRisk
    else if pnl.value <= -0.10 then HardFailure
    else if pnl.value < -0.03 then SoftFailure
    else if pnl.value < 0.0 then FloatingLoss
    else Healthy
  }

  predicate EntryBlocking(r: RiskState) {
    r.UnprotectedPosition? || r.SoftFailure? || r.HardFailure?
  }

  /** Where an attempt may lead: "protected" and "closed" only on an accepted stop and an exchange
      that shows it, "unprotected" only from a first try, and "failed" in every other case. */
  lemma TransitionIff(current: ProtectionStatus, success: bool, verified: Option<ProtectionStatus>)
    ensures Transition(current, false, success, verified) == current
    ensures var next := Transition(current, true, success, verified);
            && (next == Protected <==> success && verified == Some(Protected))
            && (next == Closed <==> success && verified == Some(Closed))
            && (next == Unprotected <==> success && verified == Some(Unprotected) && current == Pending)
            && next in {Protected, Closed, Unprotected, Failed}
  {
  }

  /** Which loss, distance to liquidation and status make which risk state. */
  lemma RiskStateIff(status: ProtectionStatus, pnl: Option<real>, liqBps: Option<real>)
    ensures var r := Classify(status, pnl, liqBps);
            var badStatus := status == Unprotected || status == Failed || status == Repairing;
            var nearLiquidation := liqBps.Some? && liqBps.value <= 50.0;
            && (r == UnprotectedPosition <==> status == Unprotected)
            && (r == HardFailure <==> !badStatus && (nearLiquidation || (pnl.Some? && pnl.value <= -0.10)))
            && (r == SoftFailure <==>
                  status == Failed || status == Repairing ||
                  (!badStatus && !nearLiquidation && pnl.Some? && -0.10 < pnl.value < -0.03))
            && (r == FloatingLoss <==> !badStatus && !nearLiquidation && pnl.Some? && -0.03 <= pnl.value < 0.0)
            && (r == UnknownRisk <==> !badStatus && !nearLiquidation && pnl.None?)
  {
  }

  datatype Plan = Plan(stopLoss: real, takeProfit: real)

  function BuildPlan(entry: real, qty: real, slPct: real, tpPct: real): Option<Plan> {
    if entry <= 0.0 || qty == 0.0 || slPct <= 0.0 || tpPct <= 0.0 then None
    else
      var sl := if qty > 0.0 then entry * (1.0 - slPct) else entry * (1.0 + slPct);
      var tp := if qty > 0.0 then entry * (1.0 + tpPct) else entry * (1.0 - tpPct);
      if sl <= 0.0 || tp <= 0.0 then None else Some(Plan(sl, tp))
  }

  predicate Plannable(entry: real, qty: real, slPct: real, tpPct: real) {
    entry > 0.0 && qty != 0.0 && slPct > 0.0 && tpPct > 0.0
  }

  /** The stop lies the stop percentage of the entry away on its losing side, the target the target
      percentage on its winning side; both above zero. */
  predicate Brackets(plan: Plan, entry: real, long: bool, slPct: real, tpPct: real) {
    && plan.stopLoss > 0.0 && plan.takeProfit > 0.0
    && (if long then entry - plan.stopLoss == entry * slPct && plan.takeProfit - entry == entry * tpPct
        else plan.stopLoss - entry == entry * slPct && entry - plan.takeProfit == entry * tpPct)
  }

  /** A plan exists exactly when it can: the inputs are positive and the lower of the two prices,
      a percentage below the entry, stays above zero. Then it is where the percentages put it. */
  lemma PlanIsSound(entry: real, qty: real, slPct: real, tpPct: real)
    ensures BuildPlan(entry, qty, slPct, tpPct).Some? <==>
            Plannable(entry, qty, slPct, tpPct) && (if qty > 0.0 then slPct < 1.0 else tpPct < 1.0)
    ensures BuildPlan(entry, qty, slPct, tpPct).Some? ==>
              Brackets(BuildPlan(entry, qty, slPct, tpPct).value, entry, qty > 0.0, slPct, tpPct)
  {
    if Plannable(entry, qty, slPct, tpPct) {
      if qty > 0.0 {
        LongPlan(entry, qty, slPct, tpPct);
      } else {
        ShortPlan(entry, qty, slPct, tpPct);
      }
    }
  }

  lemma LongPlan(entry: real, qty: real, slPct: real, tpPct: real)
    requires Plannable(entry, qty, slPct, tpPct) && qty > 0.0
    ensures BuildPlan(entry, qty, slPct, tpPct).Some? <==> slPct < 1.0
    ensures slPct < 1.0 ==> Brackets(BuildPlan(entry, qty, slPct, tpPct).value, entry, true, slPct, tpPct)
  {
    PriceBelow(entry, slPct, entry * (1.0 - slPct));
    PriceAbove(entry, tpPct, entry * (1.0 + tpPct));
  }

  lemma ShortPlan(entry: real, qty: real, slPct: real, tpPct: real)
    requires Plannable(entry, qty, slPct, tpPct) && qty < 0.0
    ensures BuildPlan(entry, qty, slPct, tpPct).Some? <==> tpPct < 1.0
    ensures tpPct < 1.0 ==> Brackets(BuildPlan(entry, qty, slPct, tpPct).value, entry, false, slPct, tpPct)
  {
    PriceBelow(entry, tpPct, entry * (1.0 - tpPct));
    PriceAbove(entry, slPct, entry * (1.0 + slPct));
  }

  lemma PriceBelow(entry: real, pct: real, price: real)
    requires entry > 0.0 && pct > 0.0 && price == entry * (1.0 - pct)
    ensures price > 0.0 <==> pct < 1.0
    ensures entry - price == entry * pct
  {
    var f := 1.0 - pct;
    if f > 0.0 {
      assert entry * f > 0.0;
    } else {
      assert entry * (-f) >= 0.0;
    }
  }

  lemma PriceAbove(entry: real, pct: real, price: real)
    requires entry > 0.0 && pct > 0.0 && price == entry * (1.0 + pct)
    ensures price - entry == entry * pct && price > 0.0
  {
    var f := 1.0 + pct;
    assert entry * f > 0.0;
  }

  // ----- Verification -----------------------------------------------------------------------

  datatype VerifyAnswer = ApiFailure | Listed(items: seq<PosItem>)

  /** Crashed: an unreadable element was met, and the caller's attempt is abandoned. */
  datatype Verdict = Crashed | Verdict(status: ProtectionStatus, evidence: Option<PosItem>)

  predicate OnSymbol(item: PosItem, symbol: string) {
    item.PosItem? && item.symbol == symbol && item.size != 0.0
  }

  predicate Exact(item: PosItem, key: PosKey) {
    OnSymbol(item, key.symbol) && item.side == key.side && item.idx == key.idx
  }

  /** The element is the open position with this key. */
  ghost predicate IsPosition(item: PosItem, key: PosKey) {
    item.PosItem? && item.size != 0.0 && item.symbol == key.symbol && item.side == key.side && item.idx == key.idx
  }

  datatype Candidate = Unreadable | NotFound | Found(item: PosItem)

  /** The exact position if the walk reaches one, else the first open one on the symbol. */
  function Search(items: seq<PosItem>, key: PosKey, best: Candidate): Candidate {
    if items == [] then best
    else if items[0].BadPosition? then Unreadable
    else if Exact(items[0], key) then Found(items[0])
    else if OnSymbol(items[0], key.symbol) && best.NotFound? then Search(items[1..], key, Found(items[0]))
    else Search(items[1..], key, best)
  }

  function Verify(answer: VerifyAnswer, key: PosKey): Verdict {
    if answer.ApiFailure? then Verdict(Failed, None)
    else
      match Search(answer.items, key, NotFound)
      case Unreadable => Crashed
      case NotFound => Verdict(Closed, None)
      case Found(item) => Verdict(if Guarded(item) then Protected else Unprotected, Some(item))
  }

  /** What the walk finds, said without walking. */
  lemma {:induction false} SearchMeaning(items: seq<PosItem>, key: PosKey, best: Candidate)
    requires !best.Unreadable? && (best.Found? ==> OnSymbol(best.item, key.symbol) && !Exact(best.item, key))
    requires Search(items, key, best) != Unreadable
    ensures Search(items, key, best).NotFound? <==>
        best.NotFound? && forall i | 0 <= i < |items| :: !OnSymbol(items[i], key.symbol)
    ensures Search(items, key, best).Found? ==> OnSymbol(Search(items, key, best).item, key.symbol)
    ensures Search(items, key, best).Found? && Exact(Search(items, key, best).item, key) <==>
            exists i :: 0 <= i < |items| && Exact(items[i], key)
  {
    if items != [] && !Exact(items[0], key) {
      var next := if OnSymbol(items[0], key.symbol) && best.NotFound? then Found(items[0]) else best;
      SearchMeaning(items[1..], key, next);
      assert forall i | 1 <= i < |items| :: items[i] == items[1..][i - 1];
    }
  }

  /** The verdict is "closed" exactly when the exchange shows no open position on the symbol;
      otherwise it rests on one of the symbol's, and is "protected" exactly when that one has both
      levels. A refused query is a failure without evidence. */
  lemma VerifyMeaning(answer: VerifyAnswer, key: PosKey)
    requires Verify(answer, key) != Crashed
    ensures answer.ApiFailure? ==> Verify(answer, key) == Verdict(Failed, None)
    ensures answer.Listed? ==>
              var verdict := Verify(answer, key);
              && (verdict.status == Closed <==>
                  forall i | 0 <= i < |answer.items| :: !OnSymbol(answer.items[i], key.symbol))
              && (verdict.status == Closed <==> verdict.evidence.None?)
              && (verdict.evidence.Some? ==>
                    var item := verdict.evidence.value;
                    && item.PosItem? && item.symbol == key.symbol && item.size != 0.0
                    && verdict.status == (if item.stopLoss > 0.0 &&
                        item.takeProfit > 0.0 then Protected else Unprotected))
  {
    if answer.Listed? {
      SearchMeaning(answer.items, key, NotFound);
    }
  }

  /** Only an unreadable element that the walk meets before the exact position stops it. */
  lemma {:induction false} CrashedIff(items: seq<PosItem>, key: PosKey, best: Candidate)
    requires !best.Unreadable?
    ensures Search(items, key, best).Unreadable? <==>
            exists i :: 0 <= i < |items| && items[i].BadPosition? && forall j | 0 <= j < i :: !Exact(items[j], key)
  {
    if items != [] && !items[0].BadPosition? && !Exact(items[0], key) {
      var next := if OnSymbol(items[0], key.symbol) && best.NotFound? then Found(items[0]) else best;
      CrashedIff(items[1..], key, next);
      assert forall i | 1 <= i < |items| :: items[i] == items[1..][i - 1];
      if i :| 0 <= i < |items[1..]| && items[1..][i].BadPosition? && forall j | 0 <= j < i ::
          !Exact(items[1..][j], key) {
        assert items[i + 1].BadPosition? && forall j | 0 <= j < i + 1 :: !Exact(items[j], key);
      }
      if i :| 0 <= i < |items| && items[i].BadPosition? && forall j | 0 <= j < i :: !Exact(items[j], key) {
        assert items[1..][i - 1].BadPosition? && forall j | 0 <= j < i - 1 :: !Exact(items[1..][j], key);
      }
    }
  }

  /** The evidence is the position asked about exactly when the exchange lists it; otherwise it
      is another open position on the same symbol. */
  lemma EvidenceIsOwnPositionIff(answer: VerifyAnswer, key: PosKey)
    requires answer.Listed? && Verify(answer, key) != Crashed && Verify(answer, key).evidence.Some?
    ensures var item := Verify(answer, key).evidence.value;
            item.PosItem? && item.side == key.side && item.idx == key.idx <==>
            exists i :: 0 <= i < |answer.items| && IsPosition(answer.items[i], key)
  {
    SearchMeaning(answer.items, key, NotFound);
  }

  /** So a long position with no stop is reported protected on the strength of a guarded short. */
  lemma OtherSideCanVouch()
    ensures var short := PosItem("BTCUSDT", "Sell", 2, 1.0, 110.0, 90.0);
            Verify(Listed([short]), PosKey("BTCUSDT", "Buy", 0)) == Verdict(Protected, Some(short))
  {
    var short := PosItem("BTCUSDT", "Sell", 2, 1.0, 110.0, 90.0);
    var key := PosKey("BTCUSDT", "Buy", 0);
    assert !Exact(short, key) && OnSymbol(short, key.symbol);
    assert [short][1..] == [];
    assert Search([short], key, NotFound) == Search([], key, Found(short));
  }

  // ----- The table with its evidence ---------------------------------------------------------

  /** The position table and, per row, the exchange position its last write was read from (no
      entry when the last write was not read from the exchange). */
  datatype Book = Book(rows: PosTable, evidence: map<PosKey, PosItem>)

  function Write(b: Book, key: PosKey, row: PosRow, evidence: Option<PosItem>): Book {
    Book(b.rows[key := row],
         match evidence case Some(item) => b.evidence[key := item] case None => b.evidence - {key})
  }

  /** An open exchange position on the symbol with stop and target both set. */
  ghost predicate Vouches(item: PosItem, symbol: string) {
    item.PosItem? && item.symbol == symbol && item.size != 0.0 && item.stopLoss > 0.0 && item.takeProfit > 0.0
  }

  ghost predicate Backed(b: Book) {
    forall k | k in b.rows && b.rows[k].status == Protected :: k in b.evidence && Vouches(b.evidence[k], k.symbol)
  }

  // ----- One attempt --------------------------------------------------------------------------

  datatype Support = Unsupported | NotCallable | Callable

  const MAX_RETRIES := 3
  const THROTTLE_SECONDS := 8.0

  /** Where a database call of an attempt raises, if one does: before its first row is written,
      between that row and the stop, or before its last row. */
  datatype Fault = NoFault | BeforeFirstRow | AfterFirstRow | BeforeLastRow

  /** Everything an attempt meets: its arguments, clocks, percentages and the outside answers. */
  datatype AttemptInput = AttemptInput(
    symbol: string, qty: real, entry: real, floor: real, clock: real, stamp: int,
    slPct: real, tpPct: real, support: Support, replies: seq<bool>, answer: VerifyAnswer, closeAccepted: bool,
    fault: Fault)

  datatype Outcome = Skipped | Aborted | Ended(status: ProtectionStatus)

  datatype AttemptResult = AttemptResult(book: Book, last: map<string, real>, outcome: Outcome, resetRuntime: bool)

  function OwnKey(a: AttemptInput): PosKey {
    PosKey(a.symbol, if a.qty > 0.0 then "Buy" else "Sell", 0)
  }

  function LastApply(last: map<string, real>, symbol: string): real {
    if symbol in last then last[symbol] else 0.0
  }

  predicate Guards(last: map<string, real>, a: AttemptInput) {
    && Abs(a.qty) >= (if a.floor > 0.000000000001 then a.floor else 0.000000000001)
    && a.entry > 0.0
    && a.clock - LastApply(last, a.symbol) >= THROTTLE_SECONDS
  }

  function CurrentStatus(rows: PosTable, key: PosKey): ProtectionStatus {
    if key in rows && rows[key].qty != 0.0 then rows[key].status else Pending
  }

  function Phase(current: ProtectionStatus): ProtectionStatus {
    if current.Repairing? || current.Unprotected? || current.Failed? then Repairing else Pending
  }

  /** One of the first three replies accepts the stop. */
  predicate StopAccepted(replies: seq<bool>) {
    exists i :: 0 <= i < |replies| && i < MAX_RETRIES && replies[i]
  }

  function RowFor(a: AttemptInput, plan: Option<Plan>, status: ProtectionStatus): PosRow {
    PosRow(Abs(a.qty),
           match plan case Some(p) => Some(p.stopLoss) case None => None,
           match plan case Some(p) => Some(p.takeProfit) case None => None,
           status, a.stamp)
  }

  function Attempt(b: Book, last: map<string, real>, a: AttemptInput): AttemptResult {
    if !Guards(last, a) then AttemptResult(b, last, Skipped, false)
    else
      var last' := last[a.symbol := a.clock];
      var key := OwnKey(a);
      var plan := BuildPlan(a.entry, a.qty, a.slPct, a.tpPct);
      if a.fault.BeforeFirstRow? then AttemptResult(b, last', Aborted, false)
      else if plan.None? then
        AttemptResult(Write(b, key, RowFor(a, None, Failed), None), last', Ended(Failed), false)
      else
        var phase := Phase(CurrentStatus(b.rows, key));
        var b1 := Write(b, key, RowFor(a, plan, phase), None);
        if a.fault.AfterFirstRow? then AttemptResult(b1, last', Aborted, false)
        else if a.support.Callable? && StopAccepted(a.replies) then
          var verdict := Verify(a.answer, key);
          if verdict.Crashed? || a.fault.BeforeLastRow? then AttemptResult(b1, last', Aborted, false)
          else
            var final := Transition(phase, true, true, Some(verdict.status));
            AttemptResult(Write(b1, key, RowFor(a, plan, final), if final.Protected? then verdict.evidence else None),
                          last', Ended(final), false)
        else
          var reset := a.support.Callable? && a.closeAccepted;
          if a.fault.BeforeLastRow? then AttemptResult(b1, last', Aborted, reset)
          else AttemptResult(Write(b1, key, RowFor(a, plan, Failed), None), last', Ended(Failed), reset)
  }

  // ----- What an attempt promises ---------------------------------------------------------------

  /** The position's key: its symbol and side, index 0. */
  ghost function Own(a: AttemptInput): PosKey {
    PosKey(a.symbol, if a.qty > 0.0 then "Buy" else "Sell", 0)
  }

  /** The inputs allow a plan. */
  ghost predicate CanPlan(a: AttemptInput) {
    a.entry > 0.0 && a.qty != 0.0 && a.slPct > 0.0 && a.tpPct > 0.0 &&
        (if a.qty > 0.0 then a.slPct < 1.0 else a.tpPct < 1.0)
  }

  /** The exchange accepted the stop, at the first, second or third try. */
  ghost predicate Accepted(a: AttemptInput) {
    && a.support.Callable?
    && ((|a.replies| > 0 && a.replies[0]) || (|a.replies| > 1 && a.replies[1]) || (|a.replies| > 2 && a.replies[2]))
  }

  /** The attempt repairs: the open position's row says so, or that it is unprotected, or that an
      earlier attempt failed. */
  ghost predicate Repairs(b: Book, a: AttemptInput) {
    && Own(a) in b.rows && b.rows[Own(a)].qty != 0.0
    && (b.rows[Own(a)].status == Repairing || b.rows[Own(a)].status == Unprotected || b.rows[Own(a)].status == Failed)
  }

  lemma AcceptedMeans(a: AttemptInput)
    ensures a.support.Callable? && StopAccepted(a.replies) <==> Accepted(a)
  {
  }

  lemma PlanMeans(a: AttemptInput)
    ensures BuildPlan(a.entry, a.qty, a.slPct, a.tpPct).Some? <==> CanPlan(a)
    ensures CanPlan(a) ==>
              Brackets(BuildPlan(a.entry, a.qty, a.slPct, a.tpPct).value, a.entry, a.qty > 0.0, a.slPct, a.tpPct)
  {
    PlanIsSound(a.entry, a.qty, a.slPct, a.tpPct);
  }

  /** An attempt is skipped, changing nothing, exactly for a position below its floor (or below
      1e-12), without an entry price, or tried within the last eight seconds. */
  lemma SkippedIff(b: Book, last: map<string, real>, a: AttemptInput)
    ensures var r := Attempt(b, last, a);
            r.outcome == Skipped <==>
            || (a.qty < a.floor && -a.qty < a.floor)
            || (a.qty < 0.000000000001 && -a.qty < 0.000000000001)
            || a.entry <= 0.0
            || a.clock - (if a.symbol in last then last[a.symbol] else 0.0) < 8.0
    ensures Attempt(b, last, a).outcome == Skipped ==> Attempt(b, last, a) == AttemptResult(b, last, Skipped, false)
    ensures Attempt(b, last, a).outcome != Skipped ==> Attempt(b, last, a).last == last[a.symbol := a.clock]
  {
  }

  /** The row an attempt leaves when it gets to write. Its levels are where the percentages put them,
      or absent when there is no plan. */
  ghost predicate RowOfAttempt(row: PosRow, a: AttemptInput) {
    && row.qty == Abs(a.qty) && row.updatedAt == a.stamp
    && (if CanPlan(a)
        then row.stopLoss.Some? && row.takeProfit.Some? &&
             Brackets(Plan(row.stopLoss.value, row.takeProfit.value), a.entry, a.qty > 0.0, a.slPct, a.tpPct)
        else row.stopLoss.None? && row.takeProfit.None?)
  }

  /** Every attempt that is not skipped and gets to write leaves its own row, and changes no other.
      The row ends protected, closed, failed or unprotected, the last never on a repair; of an
      abandoned attempt it says "repairing" on a repair and "pending" otherwise. One abandoned
      before its first row changes no row at all. */
  lemma AttemptOutcome(b: Book, last: map<string, real>, a: AttemptInput)
    requires Guards(last, a)
    ensures a.fault.BeforeFirstRow? ==> Attempt(b, last, a).outcome == Aborted && Attempt(b, last, a).book == b
    ensures !a.fault.BeforeFirstRow? ==>
            var r := Attempt(b, last, a);
            && Own(a) in r.book.rows && RowOfAttempt(r.book.rows[Own(a)], a)
            && (r.outcome.Ended? ==>
                  && r.book.rows[Own(a)].status == r.outcome.status
                  && r.outcome.status in {Protected, Closed, Failed, Unprotected}
                  && (Repairs(b, a) ==> r.outcome.status != Unprotected))
            && (r.outcome.Aborted? ==> r.book.rows[Own(a)].status == if Repairs(b, a) then Repairing else Pending)
    ensures forall k | k != Own(a) :: (k in Attempt(b, last, a).book.rows <==> k in b.rows) &&
              (k in b.rows ==> Attempt(b, last, a).book.rows[k] == b.rows[k])
  {
    PlanMeans(a);
  }

  /** A database call, or the reading of the answer, raised on the way. */
  ghost predicate Abandoned(a: AttemptInput) {
    || a.fault.BeforeFirstRow?
    || (CanPlan(a) && !a.fault.NoFault?)
    || (CanPlan(a) && Accepted(a) && Verify(a.answer, Own(a)).Crashed?)
  }

  /** Nothing raised, the stop was accepted, and the exchange listed its positions. */
  ghost predicate Answered(a: AttemptInput) {
    a.fault.NoFault? && CanPlan(a) && Accepted(a) && a.answer.Listed? && Verify(a.answer, Own(a)).Verdict?
  }

  /** How an attempt ends, in terms of what the exchange showed: protected exactly when the evidence
      has both levels, unprotected exactly when a first try found it without, closed exactly when
      no open position of the symbol is listed, abandoned exactly when something raised. Everything
      else is a failure. The runtime state is reset exactly when the stop was refused three times
      and the market close accepted. */
  lemma OutcomeFollowsExchange(b: Book, last: map<string, real>, a: AttemptInput)
    requires Guards(last, a)
    ensures var r := Attempt(b, last, a);
            var evidence := if Answered(a) then Verify(a.answer, Own(a)).evidence else None;
            && (r.outcome == Ended(Protected) <==>
                  evidence.Some? && evidence.value.PosItem? && evidence.value.stopLoss > 0.0 &&
                      evidence.value.takeProfit > 0.0)
            && (r.outcome == Ended(Unprotected) <==>
                  evidence.Some? && evidence.value.PosItem? &&
                  (evidence.value.stopLoss <= 0.0 || evidence.value.takeProfit <= 0.0) && !Repairs(b, a))
            && (r.outcome == Ended(Closed) <==>
                  Answered(a) && forall i | 0 <= i < |a.answer.items| :: !OnSymbol(a.answer.items[i], a.symbol))
            && (r.outcome.Aborted? <==> Abandoned(a))
            && (r.resetRuntime <==>
                  !a.fault.BeforeFirstRow? && !a.fault.AfterFirstRow? && CanPlan(a) && a.support.Callable? &&
                  !Accepted(a) && a.closeAccepted)
  {
    PlanMeans(a);
    AcceptedMeans(a);
    if a.answer.Listed? && Verify(a.answer, Own(a)).Verdict? {
      VerifyMeaning(a.answer, Own(a));
    }
  }

  // ----- All the writers ----------------------------------------------------------------------

  /** The reconciler's writes, and a position found flat by the fill loop. */
  datatype Event =
    | Attempted(input: AttemptInput)
    | Reconciled(items: seq<PosItem>, stamp: int)
    | FlatClosed(symbol: string, wasLong: bool, stamp: int)

  datatype State = State(book: Book, last: map<string, real>)

  function SyncEvidence(evidence: map<PosKey, PosItem>, items: seq<PosItem>): map<PosKey, PosItem> {
    if items == [] then evidence
    else
      var n := |items| - 1;
      var before := SyncEvidence(evidence, items[..n]);
      if Usable(items[n]) then before[KeyOf(items[n]) := items[n]] else before
  }

  function Reconcile(b: Book, items: seq<PosItem>, stamp: int): Book {
    var good := Reconciliation.GoodPosPrefix(items);
    Book(SyncPositions(b.rows, good, stamp), SyncEvidence(b.evidence, good))
  }

  function FlatKey(symbol: string, wasLong: bool): PosKey {
    PosKey(symbol, if wasLong then "Buy" else "Sell", 0)
  }

  function Step(s: State, e: Event): State {
    match e
    case Attempted(a) => var r := Attempt(s.book, s.last, a); State(r.book, r.last)
    case Reconciled(items, stamp) => s.(book := Reconcile(s.book, items, stamp))
    case FlatClosed(symbol, wasLong, stamp) =>
      s.(book := Write(s.book, FlatKey(symbol, wasLong), PosRow(0.0, None, None, Closed, stamp), None))
  }

  function Run(s: State, events: seq<Event>): State {
    if events == [] then s else Step(Run(s, events[..|events| - 1]), events[|events| - 1])
  }

  lemma WriteKeepsBacked(b: Book, key: PosKey, row: PosRow, source: Option<PosItem>)
    requires Backed(b)
    requires row.status == Protected ==> source.Some? && Vouches(source.value, key.symbol)
    ensures Backed(Write(b, key, row, source))
  {
  }

  lemma AttemptKeepsBacked(b: Book, last: map<string, real>, a: AttemptInput)
    requires Backed(b)
    ensures Backed(Attempt(b, last, a).book)
  {
    if Guards(last, a) {
      var key := OwnKey(a);
      var plan := BuildPlan(a.entry, a.qty, a.slPct, a.tpPct);
      var phase := Phase(CurrentStatus(b.rows, key));
      WriteKeepsBacked(b, key, RowFor(a, None, Failed), None);
      WriteKeepsBacked(b, key, RowFor(a, plan, phase), None);
      var b1 := Write(b, key, RowFor(a, plan, phase), None);
      WriteKeepsBacked(b1, key, RowFor(a, plan, Failed), None);
      var verdict := Verify(a.answer, key);
      if verdict.Verdict? {
        var final := Transition(phase, true, true, Some(verdict.status));
        VerifyMeaning(a.answer, key);
        WriteKeepsBacked(b1, key, RowFor(a, plan, final), if final.Protected? then verdict.evidence else None);
      }
    }
  }

  lemma {:induction false} ReconcileKeepsBacked(b: Book, items: seq<PosItem>, stamp: int)
    requires Backed(b)
    ensures Backed(Book(SyncPositions(b.rows, items, stamp), SyncEvidence(b.evidence, items)))
  {
    if items != [] {
      ReconcileKeepsBacked(b, items[..|items| - 1], stamp);
    }
  }

  /** EVIDENCE. Over any interleaving of attempts, reconciliations and flat closes, a row that
      says "protected" was last written from an open exchange position on its symbol whose stop
      and target were both set. */
  lemma {:induction false} ProtectedIsBacked(s: State, events: seq<Event>)
    requires Backed(s.book)
    ensures Backed(Run(s, events).book)
  {
    if events != [] {
      var n := |events| - 1;
      ProtectedIsBacked(s, events[..n]);
      var before := Run(s, events[..n]);
      match events[n]
      case Attempted(a) => AttemptKeepsBacked(before.book, before.last, a);
      case Reconciled(items, stamp) => ReconcileKeepsBacked(before.book, Reconciliation.GoodPosPrefix(items), stamp);
      case FlatClosed(_, _, _) =>
    }
  }

  /** A position found flat: the row of the side it had, index 0, is closed and empty, without
      levels; no other row changes. */
  lemma FlatCloseMeans(s: State, symbol: string, wasLong: bool, stamp: int)
    ensures var after := Step(s, FlatClosed(symbol, wasLong, stamp));
            var key := PosKey(symbol, if wasLong then "Buy" else "Sell", 0);
            && after.last == s.last && key in after.book.rows
            && after.book.rows[key] == PosRow(0.0, None, None, Closed, stamp)
            && forall k | k != key :: (k in after.book.rows <==> k in s.book.rows) &&
                 (k in s.book.rows ==> after.book.rows[k] == s.book.rows[k])
  {
  }

  // ----- The entry gates ----------------------------------------------------------------------

  predicate OpenOn(rows: PosTable, symbol: string, k: PosKey) {
    k in rows && k.symbol == symbol && rows[k].qty != 0.0
  }

  /** A row the gates may read: an open one of the symbol that no other was written after. */
  ghost predicate Latest(rows: PosTable, symbol: string, k: PosKey) {
    OpenOn(rows, symbol, k) && forall j | OpenOn(rows, symbol, j) :: rows[j].updatedAt <= rows[k].updatedAt
  }

  /** The risk-state gate, the blocking-status gate and the parameter gate together; None when
      the symbol has no open row. */
  predicate Admits(status: Option<ProtectionStatus>, pnl: Option<real>, liqBps: Option<real>, slPct: real,
                   tpPct: real)
  {
    && (status.Some? ==> !EntryBlocking(Classify(status.value, pnl, liqBps)))
    && (status.Some? ==> !Blocking(status.value))
    && slPct > 0.0 && tpPct > 0.0
  }

  /** The combined gate opens exactly for a non-blocking status, a position neither near its
      liquidation price nor losing more than 3%, and both percentages set. */
  lemma GateIff(status: ProtectionStatus, pnl: Option<real>, liqBps: Option<real>, slPct: real, tpPct: real)
    ensures Admits(Some(status), pnl, liqBps, slPct, tpPct) <==>
            && (status == Protected || status == Closed || status == Unknown)
            && !(liqBps.Some? && liqBps.value <= 50.0)
            && !(pnl.Some? && pnl.value < -0.03)
            && slPct > 0.0 && tpPct > 0.0
  {
  }

  /** An attempt that ends neither protected nor closed shuts the gate, if no other row of the
      symbol carries the same or a later stamp - unless it is abandoned before its first row: then
      the gate stays as it was, open on a row that still says "protected". */
  lemma GateAfterFailureIff(b: Book, last: map<string, real>, a: AttemptInput, k: PosKey,
                            pnl: Option<real>, liqBps: Option<real>, slPct: real, tpPct: real)
    requires Guards(last, a)
    requires Attempt(b, last, a).outcome != Ended(Protected) && Attempt(b, last, a).outcome != Ended(Closed)
    requires forall j | OpenOn(b.rows, a.symbol, j) && j != OwnKey(a) :: b.rows[j].updatedAt < a.stamp
    requires Latest(Attempt(b, last, a).book.rows, a.symbol, k)
    ensures Admits(Some(Attempt(b, last, a).book.rows[k].status), pnl, liqBps, slPct, tpPct) <==>
            a.fault.BeforeFirstRow? && k in b.rows && Admits(Some(b.rows[k].status), pnl, liqBps, slPct, tpPct)
  {
    AttemptOutcome(b, last, a);
    var rows := Attempt(b, last, a).book.rows;
    var key := OwnKey(a);
    if !a.fault.BeforeFirstRow? {
      assert OpenOn(rows, a.symbol, key);
      if k != key { assert OpenOn(b.rows, a.symbol, k); }
    }
  }

  /** And it is not tried again for eight seconds: the throttle started before it was abandoned. */
  lemma AbandonedAttemptWaits(b: Book, last: map<string, real>, a: AttemptInput, next: AttemptInput)
    requires Guards(last, a) && a.fault.BeforeFirstRow? && next.symbol == a.symbol
    ensures var r := Attempt(b, last, a);
            r.book == b && (next.clock - a.clock < THROTTLE_SECONDS ==>
              Attempt(r.book, r.last, next) == AttemptResult(b, r.last, Skipped, false))
  {
  }

  /** Whatever row the gates read, a blocking one is never admitted; and a symbol with a blocking
      row is admitted through a later, sound row of its other side. */
  lemma GateReadsOnlyTheLatestRow(rows: PosTable, symbol: string, blocked: PosKey, sound: PosKey, slPct: real,
                                  tpPct: real)
    requires OpenOn(rows, symbol, blocked) && Blocking(rows[blocked].status)
    requires OpenOn(rows, symbol, sound) && !Blocking(rows[sound].status)
    requires forall j | OpenOn(rows, symbol, j) && j != sound :: rows[j].updatedAt < rows[sound].updatedAt
    requires slPct > 0.0 && tpPct > 0.0
    ensures forall k :: Latest(rows, symbol, k) <==> k == sound
    ensures Admits(Some(rows[sound].status), None, None, slPct, tpPct)
  {
    assert Latest(rows, symbol, sound);
  }

  // ----- The runtime --------------------------------------------------------------------------

  class Runtime {
    var rows: PosTable
    var last: map<string, real>
    ghost var evidence: map<PosKey, PosItem>

    ghost function Contents(): State
      reads this
    {
      State(Book(rows, evidence), last)
    }

    method WriteRow(key: PosKey, row: PosRow, ghost source: Option<PosItem>)
      modifies `rows, `evidence
      ensures Book(rows, evidence) == Write(old(Contents()).book, key, row, source)
    {
      rows := rows[key := row];
      match source {
        case Some(item) => evidence := evidence[key := item];
        case None => evidence := evidence - {key};
      }
    }

    /** Ask the exchange; the walk stops at the exact position. */
    method VerifyFromExchange(answer: VerifyAnswer, key: PosKey) returns (verdict: Verdict)
      ensures verdict == Verify(answer, key)
    {
      if answer.ApiFailure? {
        return Verdict(Failed, None);
      }
      var items := answer.items;
      var candidate := NotFound;
      var i := 0;
      while i < |items|
        invariant 0 <= i <= |items| && !candidate.Unreadable?
        invariant Search(items, key, NotFound) == Search(items[i..], key, candidate)
      {
        var item := items[i];
        assert items[i..][0] == item && items[i..][1..] == items[i + 1..];
        if item.BadPosition? {
          return Crashed;
        }
        if OnSymbol(item, key.symbol) {
          if Exact(item, key) {
            candidate := Found(item);
            break;
          }
          if candidate.NotFound? {
            candidate := Found(item);
          }
        }
        i := i + 1;
      }
      assert Search(items, key, NotFound) == candidate;
      match candidate {
        case Found(item) => return Verdict(if Guarded(item) then Protected else Unprotected, Some(item));
        case NotFound => return Verdict(Closed, None);
      }
    }

    /** Up to three tries at setting the stop. */
    method ApplyStop(replies: seq<bool>) returns (success: bool)
      requires |replies| >= MAX_RETRIES
      ensures success == StopAccepted(replies)
    {
      for i := 0 to MAX_RETRIES
        invariant forall j | 0 <= j < i :: !replies[j]
      {
        if replies[i] {
          return true;
        }
      }
      return false;
    }

    method EnsureProtection(a: AttemptInput) returns (outcome: Outcome, resetRuntime: bool)
      requires |a.replies| >= MAX_RETRIES
      modifies this
      ensures var r := Attempt(old(Contents()).book, old(last), a);
              Contents() == State(r.book, r.last) && outcome == r.outcome && resetRuntime == r.resetRuntime
    {
      resetRuntime := false;
      if Abs(a.qty) < (if a.floor > 0.000000000001 then a.floor else 0.000000000001) || a.entry <= 0.0 {
        return Skipped, false;
      }
      if a.clock - LastApply(last, a.symbol) < THROTTLE_SECONDS {
        return Skipped, false;
      }
      last := last[a.symbol := a.clock];
      if a.fault.BeforeFirstRow? {
        return Aborted, false;
      }
      var key := OwnKey(a);
      var current := CurrentStatus(rows, key);
      var plan := BuildPlan(a.entry, a.qty, a.slPct, a.tpPct);
      if plan.None? {
        WriteRow(key, RowFor(a, None, Transition(current, true, false, Some(Failed))), None);
        return Ended(Failed), false;
      }
      var phase := Phase(current);
      WriteRow(key, RowFor(a, plan, phase), None);
      if a.fault.AfterFirstRow? {
        return Aborted, false;
      }
      var success, verified := false, None;
      var source: Option<PosItem> := None;
      if a.support.Callable? {
        success := ApplyStop(a.replies);
      } else {
        verified := Some(Failed);
      }
      if success {
        var verdict := VerifyFromExchange(a.answer, key);
        if verdict.Crashed? {
          return Aborted, false;
        }
        verified, source := Some(verdict.status), verdict.evidence;
      }
      var final := Transition(phase, true, success, verified);
      if final != Protected && !success && a.support.Callable? {
        resetRuntime := a.closeAccepted;
      }
      if a.fault.BeforeLastRow? {
        return Aborted, resetRuntime;
      }
      WriteRow(key, RowFor(a, plan, final), if final.Protected? then source else None);
      return Ended(final), resetRuntime;
    }

    /** The flat-position write of the fill loop. */
    method CloseFlat(symbol: string, wasLong: bool, stamp: int)
      modifies `rows, `evidence
      ensures Contents() == Step(old(Contents()), FlatClosed(symbol, wasLong, stamp))
    {
      WriteRow(FlatKey(symbol, wasLong), PosRow(0.0, None, None, Closed, stamp), None);
    }
  }
}
