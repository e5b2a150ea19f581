/** Counting every execution once: the refresh loop over exchange pages, startup recovery, and
    the resets that drop a position from the books. */
module ExecutionSync {
  import opened PositionLedger
  import opened RealArith
  import opened SignalOutcome

  /** The id set is emptied once it holds more than this many. */
  const SEEN_CAP: nat := 20000

  datatype Exec = Exec(id: string, symbol: string, trade: Trade)

  /** What the loop knows about a symbol when it looks at an item: its size and notional
      floors, the market, and whether a failed protection attempt ends in a market close. */
  datatype Policy = Policy(floor: real, notionalFloor: real, spot: bool, emergencyClose: bool)

  /** Lost and Unsettled are polled items on which the loop raises: before the book is updated
      (unreadable number, refused database call), and after it but before the reset. Either way
      the id has been remembered. */
  datatype Event =
    | Replayed(exec: Exec)
    | Recovered(exec: Exec)
    | Polled(exec: Exec, policy: Policy)
    | Lost(exec: Exec)
    | Unsettled(exec: Exec)
    | Reset(symbol: string)

  datatype Tracker = Tracker(book: map<string, Position>, seen: set<string>, writtenOff: map<string, real>)

  const EMPTY := Tracker(map[], {}, map[])

  function Held(book: map<string, Position>, symbol: string): Position {
    if symbol in book then book[symbol] else FLAT
  }

  function Dropped(writtenOff: map<string, real>, symbol: string): real {
    if symbol in writtenOff then writtenOff[symbol] else 0.0
  }

  predicate Counted(e: Exec) {
    e.trade.fill.qty > 0.0 && e.trade.fill.side != OtherSide && Effective(e.trade).qty > 0.0
  }

  function Contribution(e: Exec): real {
    if Counted(e) then Signed(Effective(e.trade)) else 0.0
  }

  function ResetSymbol(t: Tracker, symbol: string): Tracker {
    t.(book := t.book[symbol := FLAT],
       writtenOff := t.writtenOff[symbol := Dropped(t.writtenOff, symbol) + Held(t.book, symbol).qty])
  }

  function Count(t: Tracker, e: Exec): Tracker {
    if Counted(e) then t.(book := t.book[e.symbol := ApplyFill(Held(t.book, e.symbol), Effective(e.trade))]) else t
  }

  predicate IsEffective(qty: real, price: real, p: Policy) {
    Abs(qty) >= p.floor && (!p.spot || p.notionalFloor <= 0.0 || Abs(qty) * price >= p.notionalFloor)
  }

  predicate MustReset(qty: real, price: real, p: Policy) {
    !IsEffective(qty, price, p) || (!p.spot && p.emergencyClose)
  }

  function Remember(seen: set<string>, id: string): set<string> {
    if |seen + {id}| > SEEN_CAP then {} else seen + {id}
  }

  function Poll(t: Tracker, e: Exec, p: Policy): Tracker {
    if e.id in t.seen then t
    else
      var counted := Count(t.(seen := Remember(t.seen, e.id)), e);
      if Counted(e) && MustReset(Held(counted.book, e.symbol).qty, e.trade.fill.price, p)
      then ResetSymbol(counted, e.symbol) else counted
  }

  /** What is left of an item when the loop raises on it. */
  function Break(t: Tracker, e: Exec, counted: bool): Tracker {
    if e.id in t.seen then t
    else
      var t' := t.(seen := Remember(t.seen, e.id));
      if counted then Count(t', e) else t'
  }

  function Step(t: Tracker, ev: Event): Tracker {
    match ev
    case Lost(e) => Break(t, e, false)
    case Unsettled(e) => Break(t, e, true)
    case Replayed(e) => Count(t.(seen := t.seen + {e.id}), e)
    case Recovered(e) => if e.id in t.seen then t else Count(t.(seen := t.seen + {e.id}), e)
    case Polled(e, p) => Poll(t, e, p)
    case Reset(s) => ResetSymbol(t, s)
  }

  function RunFrom(t: Tracker, events: seq<Event>): Tracker {
    if events == [] then t else Step(RunFrom(t, events[..|events| - 1]), events[|events| - 1])
  }

  // ----- The simple specification ---------------------------------------------------------

  function Log(events: seq<Event>): seq<Exec> {
    if events == [] then []
    else
      var ev := events[|events| - 1];
      Log(events[..|events| - 1]) + (if ev.Reset? then [] else [ev.exec])
  }

  function Ids(log: seq<Exec>): set<string> {
    set i | 0 <= i < |log| :: log[i].id
  }

  /** The log without repeats of an id already logged. */
  function FirstArrivals(log: seq<Exec>): seq<Exec> {
    if log == [] then []
    else
      var before, e := log[..|log| - 1], log[|log| - 1];
      FirstArrivals(before) + (if e.id in Ids(before) then [] else [e])
  }

  /** The executions whose first arrival was a lost one. */
  function LostArrivals(events: seq<Event>): seq<Exec> {
    if events == [] then []
    else
      var before, ev := events[..|events| - 1], events[|events| - 1];
      LostArrivals(before) + (if ev.Lost? && ev.exec.id !in Ids(Log(before)) then [ev.exec] else [])
  }

  function Share(e: Exec, symbol: string): real {
    if e.symbol == symbol then Contribution(e) else 0.0
  }

  function NetOf(log: seq<Exec>, symbol: string): real {
    if log == [] then 0.0 else NetOf(log[..|log| - 1], symbol) + Share(log[|log| - 1], symbol)
  }

  function Total(t: Tracker, symbol: string): real {
    Held(t.book, symbol).qty + Dropped(t.writtenOff, symbol)
  }

  // ----- One event ------------------------------------------------------------------------

  lemma ResetKeepsTotal(t: Tracker, s: string, symbol: string)
    ensures Total(ResetSymbol(t, s), symbol) == Total(t, symbol)
  {
  }

  lemma FillMovesBySigned(p: Position, f: Fill)
    ensures ApplyFill(p, f).qty == p.qty + Signed(f)
  {
    StepIdentity(p, f);
  }

  lemma CountAddsShare(t: Tracker, e: Exec, symbol: string)
    ensures Total(Count(t, e), symbol) == Total(t, symbol) + Share(e, symbol)
  {
    FillMovesBySigned(Held(t.book, e.symbol), Effective(e.trade));
  }

  /** A new id adds its share; a known one changes nothing. */
  lemma PollTotal(t: Tracker, e: Exec, p: Policy, symbol: string)
    ensures Total(Poll(t, e, p), symbol) == Total(t, symbol) + (if e.id in t.seen then 0.0 else Share(e, symbol))
    ensures Poll(t, e, p).seen == if e.id in t.seen then t.seen else Remember(t.seen, e.id)
  {
    if e.id !in t.seen {
      var t' := t.(seen := Remember(t.seen, e.id));
      assert Total(t', symbol) == Total(t, symbol);
      CountAddsShare(t', e, symbol);
      ResetKeepsTotal(Count(t', e), e.symbol, symbol);
    }
  }

  lemma BreakTotal(t: Tracker, e: Exec, counted: bool, symbol: string)
    ensures Total(Break(t, e, counted), symbol) ==
            Total(t, symbol) + (if counted && e.id !in t.seen then Share(e, symbol) else 0.0)
    ensures Break(t, e, counted).seen == if e.id in t.seen then t.seen else Remember(t.seen, e.id)
  {
    if e.id !in t.seen {
      var t' := t.(seen := Remember(t.seen, e.id));
      assert Total(t', symbol) == Total(t, symbol);
      CountAddsShare(t', e, symbol);
    }
  }

  // ----- Whole runs -----------------------------------------------------------------------

  lemma IdsStep(log: seq<Exec>, e: Exec)
    ensures Ids(log + [e]) == Ids(log) + {e.id}
  {
    var more := log + [e];
    assert more[|log|] == e;
    forall id | id in Ids(log) ensures id in Ids(more) {
      var i :| 0 <= i < |log| && log[i].id == id;
      assert more[i] == log[i];
    }
  }

  lemma IdsMonotone(log: seq<Exec>, e: Exec)
    ensures |Ids(log)| <= |Ids(log + [e])|
  {
    IdsStep(log, e);
    if e.id in Ids(log) {
      assert Ids(log) + {e.id} == Ids(log);
    }
  }

  /** Rows of the local table carry distinct ids and are replayed before those ids are seen. */
  ghost predicate ReplayedFirst(events: seq<Event>) {
    events == [] ||
    (var before, ev := events[..|events| - 1], events[|events| - 1];
     ReplayedFirst(before) && (ev.Replayed? ==> ev.exec.id !in Ids(Log(before))))
  }

  /** EXACTLY ONCE. While at most 20000 distinct ids turn up, whatever pages repeat, whatever
      resets happen and wherever the loop raises, the tracked quantity and the quantity written
      off add up to the signed effective quantity of the distinct executions, less that of the
      executions lost on their first arrival. */
  lemma {:induction false} ExactlyOnce(events: seq<Event>, symbol: string)
    requires ReplayedFirst(events) && |Ids(Log(events))| <= 20000
    ensures RunFrom(EMPTY, events).seen == Ids(Log(events))
    ensures Total(RunFrom(EMPTY, events), symbol) ==
            NetOf(FirstArrivals(Log(events)), symbol) - NetOf(LostArrivals(events), symbol)
  {
    if events != [] {
      var n := |events| - 1;
      var ev, log := events[n], Log(events[..n]);
      LogGrows(events);
      ExactlyOnce(events[..n], symbol);
      StepTotal(RunFrom(EMPTY, events[..n]), ev, symbol);
      LostStep(events, symbol);
      if !ev.Reset? {
        ArrivalStep(log, ev.exec, symbol);
      }
    }
  }

  lemma LostStep(events: seq<Event>, symbol: string)
    requires events != []
    ensures var n := |events| - 1;
            NetOf(LostArrivals(events), symbol) == NetOf(LostArrivals(events[..n]), symbol) +
              (if events[n].Lost? && events[n].exec.id !in Ids(Log(events[..n])) then Share(events[n].exec, symbol)
                  else 0.0)
  {
    var n := |events| - 1;
    var lost, e := LostArrivals(events[..n]), events[n];
    if e.Lost? && e.exec.id !in Ids(Log(events[..n])) {
      assert (lost + [e.exec])[..|lost|] == lost;
    } else {
      assert lost + [] == lost;
    }
  }

  /** Every distinct execution is accounted for exactly when those lost on first arrival come to
      nothing. */
  lemma NothingMissingIff(events: seq<Event>, symbol: string)
    requires ReplayedFirst(events) && |Ids(Log(events))| <= SEEN_CAP
    ensures Total(RunFrom(EMPTY, events), symbol) == NetOf(FirstArrivals(Log(events)), symbol) <==>
            NetOf(LostArrivals(events), symbol) == 0.0
  {
    ExactlyOnce(events, symbol);
  }

  // ----- The position, not only its size ---------------------------------------------------

  /** A new execution, at its first arrival and not lost. */
  predicate Arrives(events: seq<Event>, symbol: string) {
    events != [] &&
    (var before, ev := events[..|events| - 1], events[|events| - 1];
     !ev.Reset? && !ev.Lost? && ev.exec.symbol == symbol && ev.exec.id !in Ids(Log(before)) && Counted(ev.exec))
  }

  /** The effective fills counted for a symbol since its last reset, be it asked for or made by the
      refresh loop on finding the position of these fills too small, or its protection failed. */
  function FillsSince(events: seq<Event>, symbol: string): seq<Fill> {
    if events == [] then []
    else
      var before, ev := events[..|events| - 1], events[|events| - 1];
      if ev.Reset? && ev.symbol == symbol then []
      else if !Arrives(events, symbol) then FillsSince(before, symbol)
      else
        var fills := FillsSince(before, symbol) + [Effective(ev.exec.trade)];
        if ev.Polled? && MustReset(Replay(fills).qty, ev.exec.trade.fill.price, ev.policy) then [] else fills
  }

  lemma ReplayMore(fills: seq<Fill>, f: Fill)
    ensures Replay(fills + [f]) == ApplyFill(Replay(fills), f)
  {
    assert (fills + [f])[..|fills|] == fills;
  }

  /** One event, for the position of one symbol, as long as the id set has room. */
  lemma StepHeld(t: Tracker, ev: Event, symbol: string)
    requires ev.Replayed? ==> ev.exec.id !in t.seen
    requires !ev.Reset? ==> |t.seen + {ev.exec.id}| <= SEEN_CAP
    ensures var held := Held(t.book, symbol);
            Held(Step(t, ev).book, symbol) ==
            if ev.Reset? then (if ev.symbol == symbol then FLAT else held)
            else if ev.Lost? || ev.exec.id in t.seen || ev.exec.symbol != symbol || !Counted(ev.exec) then held
            else
              var next := ApplyFill(held, Effective(ev.exec.trade));
              if ev.Polled? && MustReset(next.qty, ev.exec.trade.fill.price, ev.policy) then FLAT else next
  {
  }

  /** THE POSITION. Over any replay, recovery, polls, lost and unsettled items and resets, the
      tracked position of a symbol, its average entry included, is the average-cost replay of the
      effective fills counted for it since its last reset. */
  lemma {:induction false} HeldIsReplay(events: seq<Event>, symbol: string)
    requires ReplayedFirst(events) && |Ids(Log(events))| <= SEEN_CAP
    ensures Held(RunFrom(EMPTY, events).book, symbol) == Replay(FillsSince(events, symbol))
  {
    if events != [] {
      var n := |events| - 1;
      var t, ev, fills := RunFrom(EMPTY, events[..n]), events[n], FillsSince(events[..n], symbol);
      LogGrows(events);
      ExactlyOnce(events[..n], symbol);
      HeldIsReplay(events[..n], symbol);
      StepHeld(t, ev, symbol);
      if Arrives(events, symbol) {
        ReplayMore(fills, Effective(ev.exec.trade));
      }
    }
  }

  /** So the ledger identity holds of the tracked books, and the average entry lies within the
      prices of the current leg. */
  lemma TrackedLedger(events: seq<Event>, symbol: string)
    requires ReplayedFirst(events) && |Ids(Log(events))| <= SEEN_CAP
    ensures var held, fills := Held(RunFrom(EMPTY, events).book, symbol), FillsSince(events, symbol);
            && Balanced(held, NetQty(fills), NetCash(fills), Realised(fills))
            && (held.avg == 0.0 <==> held.qty == 0.0)
            && (held.qty != 0.0 ==> Within(OpeningPrices(fills), held.avg))
  {
    HeldIsReplay(events, symbol);
    LedgerIdentity(FillsSince(events, symbol));
    AverageWithinLeg(FillsSince(events, symbol));
  }

  // ----- A loss is for good ---------------------------------------------------------------

  /** The history without anything that concerns an id. */
  function Without(events: seq<Event>, id: string): seq<Event> {
    if events == [] then []
    else
      var ev := events[|events| - 1];
      Without(events[..|events| - 1], id) + (if !ev.Reset? && ev.exec.id == id then [] else [ev])
  }

  /** The id first turned up on an item that was lost. */
  ghost predicate FirstLost(events: seq<Event>, id: string) {
    events != [] &&
    (var before, ev := events[..|events| - 1], events[|events| - 1];
     FirstLost(before, id) || (ev.Lost? && ev.exec.id == id && id !in Ids(Log(before))))
  }

  lemma {:induction false} WithoutUnseen(events: seq<Event>, id: string)
    requires id !in Ids(Log(events))
    ensures Without(events, id) == events
  {
    if events != [] {
      var n := |events| - 1;
      var ev, log := events[n], Log(events[..n]);
      if ev.Reset? {
        assert Log(events) == log;
      } else {
        assert Log(events) == log + [ev.exec];
        IdsStep(log, ev.exec);
      }
      WithoutUnseen(events[..n], id);
      assert events == events[..n] + [ev];
    }
  }

  /** Two trackers that agree but for one remembered id. */
  ghost predicate AgreeBut(t: Tracker, u: Tracker, id: string) {
    t.book == u.book && t.writtenOff == u.writtenOff && t.seen == u.seen + {id}
  }

  lemma KnownIdKeepsAgreement(t: Tracker, u: Tracker, ev: Event, id: string)
    requires AgreeBut(t, u, id) && !ev.Reset? && ev.exec.id == id && !ev.Replayed?
    ensures AgreeBut(Step(t, ev), u, id)
  {
    assert t.seen + {id} == t.seen;
  }

  lemma CountAgrees(t: Tracker, u: Tracker, e: Exec)
    requires t.book == u.book && t.writtenOff == u.writtenOff
    ensures Count(t, e).book == Count(u, e).book && Count(t, e).writtenOff == Count(u, e).writtenOff
    ensures Count(t, e).seen == t.seen && Count(u, e).seen == u.seen
  {
  }

  lemma PollAgrees(t: Tracker, u: Tracker, e: Exec, p: Policy, id: string)
    requires AgreeBut(t, u, id) && e.id != id
    requires |t.seen + {e.id}| <= SEEN_CAP && |u.seen + {e.id}| <= SEEN_CAP
    ensures AgreeBut(Poll(t, e, p), Poll(u, e, p), id)
  {
    CountAgrees(t.(seen := Remember(t.seen, e.id)), u.(seen := Remember(u.seen, e.id)), e);
  }

  lemma StepKeepsAgreement(t: Tracker, u: Tracker, ev: Event, id: string)
    requires AgreeBut(t, u, id)
    requires !ev.Reset? ==> |t.seen + {ev.exec.id}| <= SEEN_CAP
    requires ev.Replayed? ==> ev.exec.id !in t.seen
    ensures if !ev.Reset? && ev.exec.id == id then AgreeBut(Step(t, ev), u, id)
            else AgreeBut(Step(t, ev), Step(u, ev), id)
  {
    if !ev.Reset? {
      assert u.seen + {ev.exec.id} <= t.seen + {ev.exec.id};
      Subset(u.seen + {ev.exec.id}, t.seen + {ev.exec.id});
      if ev.exec.id == id {
        KnownIdKeepsAgreement(t, u, ev, id);
      } else if ev.Polled? {
        PollAgrees(t, u, ev.exec, ev.policy, id);
      } else {
        CountAgrees(t.(seen := t.seen + {ev.exec.id}), u.(seen := u.seen + {ev.exec.id}), ev.exec);
      }
    }
  }

  lemma {:induction false} Subset(a: set<string>, b: set<string>)
    requires a <= b
    ensures |a| <= |b|
  {
    if x :| x in a {
      Subset(a - {x}, b - {x});
    }
  }

  lemma RunWithout(events: seq<Event>, id: string)
    requires events != []
    ensures var before, ev := events[..|events| - 1], events[|events| - 1];
            RunFrom(EMPTY, Without(events, id)) ==
            if !ev.Reset? && ev.exec.id == id then RunFrom(EMPTY, Without(before, id))
            else Step(RunFrom(EMPTY, Without(before, id)), ev)
  {
    var before, ev := Without(events[..|events| - 1], id), events[|events| - 1];
    if !ev.Reset? && ev.exec.id == id {
      assert before + [] == before;
    } else {
      RunOneMore(EMPTY, before, ev);
    }
  }

  lemma {:induction false} AgreementLasts(events: seq<Event>, id: string)
    requires ReplayedFirst(events) && |Ids(Log(events))| <= SEEN_CAP && FirstLost(events, id)
    ensures AgreeBut(RunFrom(EMPTY, events), RunFrom(EMPTY, Without(events, id)), id)
  {
    var n := |events| - 1;
    var before, ev := events[..n], events[n];
    LogGrows(events);
    ExactlyOnce(before, "");
    RunWithout(events, id);
    if FirstLost(before, id) {
      AgreementLasts(before, id);
      StepKeepsAgreement(RunFrom(EMPTY, before), RunFrom(EMPTY, Without(before, id)), ev, id);
    } else {
      WithoutUnseen(before, id);
      LostLeavesOnlyItsId(RunFrom(EMPTY, before), ev);
    }
  }

  lemma LostLeavesOnlyItsId(t: Tracker, ev: Event)
    requires ev.Lost? && ev.exec.id !in t.seen && |t.seen + {ev.exec.id}| <= SEEN_CAP
    ensures AgreeBut(Step(t, ev), t, ev.exec.id)
  {
  }

  /** FOR GOOD. If an execution is lost when it first turns up, the books and the write-offs, and
      with them the total, are, for as long as the ids fit, those of a history in which it never
      existed: no later page of the session brings it back. */
  lemma LossErases(events: seq<Event>, id: string, symbol: string)
    requires ReplayedFirst(events) && |Ids(Log(events))| <= SEEN_CAP && FirstLost(events, id)
    ensures var with, without := RunFrom(EMPTY, events), RunFrom(EMPTY, Without(events, id));
            && with.book == without.book && with.writtenOff == without.writtenOff
            && Total(with, symbol) == Total(without, symbol)
  {
    AgreementLasts(events, id);
  }

  lemma LogGrows(events: seq<Event>)
    requires events != [] && ReplayedFirst(events)
    ensures var ev, log := events[|events| - 1], Log(events[..|events| - 1]);
            && |Ids(log)| <= |Ids(Log(events))|
            && (ev.Reset? ==> Log(events) == log)
            && (!ev.Reset? ==> Log(events) == log + [ev.exec] && Ids(Log(events)) == Ids(log) + {ev.exec.id})
            && (ev.Replayed? ==> ev.exec.id !in Ids(log))
  {
    var n := |events| - 1;
    var ev, log := events[n], Log(events[..n]);
    if !ev.Reset? {
      assert Log(events) == log + [ev.exec];
      IdsStep(log, ev.exec);
      IdsMonotone(log, ev.exec);
    } else {
      assert Log(events) == log;
    }
  }

  /** What one event does to the total and to the id set, as long as the set has room. */
  lemma StepTotal(t: Tracker, ev: Event, symbol: string)
    requires ev.Replayed? ==> ev.exec.id !in t.seen
    requires !ev.Reset? ==> |t.seen + {ev.exec.id}| <= SEEN_CAP
    ensures Step(t, ev).seen == if ev.Reset? then t.seen else t.seen + {ev.exec.id}
    ensures Total(Step(t, ev), symbol) == Total(t, symbol) +
            (if ev.Reset? || ev.Lost? || ev.exec.id in t.seen then 0.0 else Share(ev.exec, symbol))
  {
    if ev.Reset? {
      ResetKeepsTotal(t, ev.symbol, symbol);
    } else {
      if ev.exec.id in t.seen { assert t.seen + {ev.exec.id} == t.seen; }
      if ev.Polled? {
        PollTotal(t, ev.exec, ev.policy, symbol);
      } else if ev.Lost? || ev.Unsettled? {
        BreakTotal(t, ev.exec, ev.Unsettled?, symbol);
      } else {
        var t' := t.(seen := t.seen + {ev.exec.id});
        assert Total(t', symbol) == Total(t, symbol);
        CountAddsShare(t', ev.exec, symbol);
      }
    }
  }

  lemma ArrivalStep(log: seq<Exec>, e: Exec, symbol: string)
    ensures NetOf(FirstArrivals(log + [e]), symbol) ==
            NetOf(FirstArrivals(log), symbol) + (if e.id in Ids(log) then 0.0 else Share(e, symbol))
  {
    assert (log + [e])[..|log|] == log;
    var first := FirstArrivals(log);
    if e.id in Ids(log) {
      assert FirstArrivals(log + [e]) == first;
    } else {
      assert (first + [e])[..|first|] == first;
    }
  }

  // ----- Order and repetition do not matter ------------------------------------------------

  /** An id always comes with the same execution. */
  ghost predicate Consistent(log: seq<Exec>) {
    forall i, j | 0 <= i < |log| && 0 <= j < |log| && log[i].id == log[j].id :: log[i] == log[j]
  }

  function Elements(log: seq<Exec>): set<Exec> {
    set i | 0 <= i < |log| :: log[i]
  }

  ghost function SumOver(s: set<Exec>, symbol: string): real {
    if s == {} then 0.0
    else
      var e :| e in s;
      SumOver(s - {e}, symbol) + Share(e, symbol)
  }

  lemma {:induction false} SumOverAdd(s: set<Exec>, e: Exec, symbol: string)
    requires e !in s
    ensures SumOver(s + {e}, symbol) == SumOver(s, symbol) + Share(e, symbol)
    decreases s
  {
    var all := s + {e};
    var x :| x in all && SumOver(all, symbol) == SumOver(all - {x}, symbol) + Share(x, symbol);
    if x == e {
      assert all - {e} == s;
    } else {
      assert all - {x} == (s - {x}) + {e};
      SumOverAdd(s - {x}, e, symbol);
      assert (s - {x}) + {x} == s;
      SumOverAdd(s - {x}, x, symbol);
    }
  }

  lemma ElementsStep(log: seq<Exec>, e: Exec)
    ensures Elements(log + [e]) == Elements(log) + {e}
  {
    var more := log + [e];
    assert more[|log|] == e;
    forall x | x in Elements(log) ensures x in Elements(more) {
      var i :| 0 <= i < |log| && log[i] == x;
      assert more[i] == x;
    }
  }

  lemma {:induction false} NetIsSumOver(log: seq<Exec>, symbol: string)
    requires Consistent(log)
    ensures NetOf(FirstArrivals(log), symbol) == SumOver(Elements(log), symbol)
  {
    if log != [] {
      var n := |log| - 1;
      var before, e := log[..n], log[n];
      assert log == before + [e];
      assert forall i | 0 <= i < n :: before[i] == log[i];
      NetIsSumOver(before, symbol);
      ArrivalStep(before, e, symbol);
      ElementsStep(before, e);
      if e.id in Ids(before) {
        var i :| 0 <= i < |before| && before[i].id == e.id;
        assert before[i] == log[i] == e;
        assert Elements(before) + {e} == Elements(before);
      } else {
        assert e !in Elements(before);
        SumOverAdd(Elements(before), e, symbol);
      }
    }
  }

  /** Two histories that deliver the same executions, in any order, over any pages and with any
      resets in between, account for the same quantity, their losses put back. */
  lemma SameExecutionsSameTotal(events: seq<Event>, others: seq<Event>, symbol: string)
    requires ReplayedFirst(events) && |Ids(Log(events))| <= SEEN_CAP && Consistent(Log(events))
    requires ReplayedFirst(others) && |Ids(Log(others))| <= SEEN_CAP && Consistent(Log(others))
    requires Elements(Log(events)) == Elements(Log(others))
    ensures Total(RunFrom(EMPTY, events), symbol) + NetOf(LostArrivals(events), symbol) ==
            Total(RunFrom(EMPTY, others), symbol) + NetOf(LostArrivals(others), symbol)
  {
    ExactlyOnce(events, symbol);
    ExactlyOnce(others, symbol);
    NetIsSumOver(Log(events), symbol);
    NetIsSumOver(Log(others), symbol);
  }

  // ----- Limits ----------------------------------------------------------------------------

  /** On futures markets, a write-off by the refresh loop itself is below the size floor. */
  lemma LinearWriteOffBelowFloor(t: Tracker, e: Exec, p: Policy, symbol: string)
    requires !p.spot && !p.emergencyClose
    ensures var change := Dropped(Poll(t, e, p).writtenOff, symbol) - Dropped(t.writtenOff, symbol);
            change == 0.0 || Abs(change) < p.floor
  {
  }

  /** Which executions count, and for how much: a purchase for what its fee leaves of it, a sale for
      its size and its fee, and nothing for an unusable side or size; without a price one counts,
      and may drop a position, but moves nothing. */
  lemma ContributionIs(e: Exec)
    ensures var f, fee := e.trade.fill, e.trade.baseFee;
            && (Counted(e) <==> f.qty > 0.0 && (f.side == Sell || (f.side == Buy && fee < f.qty)))
            && Contribution(e) ==
                 (if f.qty <= 0.0 || f.price <= 0.0 then 0.0
                  else match f.side
                    case Buy => Max(f.qty - fee, 0.0)
                    case Sell => -(f.qty + Max(fee, 0.0))
                    case OtherSide => 0.0)
  {
  }

  /** When the refresh loop keeps a position: it has the size, on spot with a notional floor also the
      value, and on futures its protection did not end in a market close. */
  lemma KeptIff(qty: real, price: real, p: Policy)
    ensures !MustReset(qty, price, p) <==>
            && Abs(qty) >= p.floor
            && (p.spot && p.notionalFloor > 0.0 ==> Abs(qty) * price >= p.notionalFloor)
            && (p.spot || !p.emergencyClose)
  {
  }

  /** A counted execution leaves its symbol either flat or with a position that still counts, and
      what was dropped is then exactly what would not have. */
  lemma PollLeavesNoDust(t: Tracker, e: Exec, p: Policy)
    requires e.id !in t.seen && Counted(e)
    ensures var after := Poll(t, e, p);
            var price := e.trade.fill.price;
            var moved := Held(t.book, e.symbol).qty + Contribution(e);
            && (Held(after.book, e.symbol).qty == 0.0 || IsEffective(Held(after.book, e.symbol).qty, price, p))
            && (IsEffective(moved, price, p) && !p.emergencyClose ==>
                  Held(after.book, e.symbol).qty == moved && after.writtenOff == t.writtenOff)
            && (!IsEffective(moved, price, p) ==>
                  Held(after.book, e.symbol) == FLAT &&
                  Dropped(after.writtenOff, e.symbol) == Dropped(t.writtenOff, e.symbol) + moved)
            && (forall s | s != e.symbol ::
                  Held(after.book, s) == Held(t.book, s) && Dropped(after.writtenOff, s) == Dropped(t.writtenOff, s))
  {
    FillMovesBySigned(Held(t.book, e.symbol), Effective(e.trade));
  }

  /** Polling an execution a second time is harmless exactly while the set has room for it. */
  lemma SecondPollHarmlessIff(t: Tracker, e: Exec, p: Policy)
    requires e.id !in t.seen && Contribution(e) != 0.0 && |t.seen| <= 20000
    ensures Total(Poll(Poll(t, e, p), e, p), e.symbol) == Total(Poll(t, e, p), e.symbol) <==> |t.seen| < 20000
  {
    PollTotal(t, e, p, e.symbol);
    PollTotal(Poll(t, e, p), e, p, e.symbol);
    assert |t.seen + {e.id}| == |t.seen| + 1;
  }

  /** Selling half of 1 @ 100 at 110 when the size floor is 0.6: the loop finds the position flat,
      writes the other half off, and so records 10 where the fill realised 5. */
  lemma HalfCloseRecordsDouble()
    ensures var held, half := Position(1.0, 100.0), Fill(Sell, 0.5, 110.0);
            var t := Tracker(map["BTCUSDT" := held], {}, map[]);
            var after := Poll(t, Exec("e1", "BTCUSDT", Trade(half, 0.0)), Policy(0.6, 0.0, false, false));
            && !IsEffective(ApplyFill(held, half).qty, half.price, Policy(0.6, 0.0, false, false))
            && Held(after.book, "BTCUSDT") == FLAT && Dropped(after.writtenOff, "BTCUSDT") == 0.5
            && PositionFlatGross(held, half.price) == 10.0 && RealisedBy(held, half) == 5.0
  {
    var held, half := Position(1.0, 100.0), Fill(Sell, 0.5, 110.0);
    assert ApplyFill(held, half) == Position(0.5, 100.0);
    assert |{"e1"}| == 1 && {} + {"e1"} == {"e1"};
  }

  // ----- The loops -------------------------------------------------------------------------

  /** Where the loop raises on an item, if it does. */
  datatype Fault = NoFault | BeforeBook | BeforeReset

  datatype Item = Item(exec: Exec, policy: Policy, fault: Fault)

  function EventOf(item: Item): Event {
    match item.fault
    case NoFault => Polled(item.exec, item.policy)
    case BeforeBook => Lost(item.exec)
    case BeforeReset => if Counted(item.exec) then Unsettled(item.exec) else Polled(item.exec, item.policy)
  }

  /** A known id is skipped before anything can raise. */
  predicate Raises(t: Tracker, item: Item) {
    item.exec.id !in t.seen && !EventOf(item).Polled?
  }

  /** A page lists the newest execution first and is walked from its end, up to the first item on
      which the loop raises. */
  function PageEvents(t: Tracker, page: seq<Item>): seq<Event>
    decreases |page|
  {
    if page == [] then []
    else
      var item := page[|page| - 1];
      [EventOf(item)] + (if Raises(t, item) then [] else PageEvents(Step(t, EventOf(item)), page[..|page| - 1]))
  }

  /** The walk reaches the end of the page. */
  predicate PageEnds(t: Tracker, page: seq<Item>)
    decreases |page|
  {
    page == [] ||
    (!Raises(t, page[|page| - 1]) && PageEnds(Step(t, EventOf(page[|page| - 1])), page[..|page| - 1]))
  }

  /** The loop raises on a new id before the book, or, of one that counts, before the reset. */
  lemma RaisesIff(t: Tracker, item: Item)
    ensures Raises(t, item) <==>
            item.exec.id !in t.seen &&
            (item.fault == BeforeBook || (item.fault == BeforeReset && Counted(item.exec)))
    ensures EventOf(item) ==
            if item.fault == BeforeBook then Lost(item.exec)
            else if item.fault == BeforeReset && Counted(item.exec) then Unsettled(item.exec)
            else Polled(item.exec, item.policy)
  {
  }

  /** The events are the items of a page, from the last to the first, polled. */
  ghost predicate PollsBackwards(events: seq<Event>, page: seq<Item>) {
    |events| == |page| &&
    forall i | 0 <= i < |page| :: events[i] == Polled(page[|page| - 1 - i].exec, page[|page| - 1 - i].policy)
  }

  lemma PollOneMore(events: seq<Event>, page: seq<Item>)
    requires page != [] && PollsBackwards(events, page[..|page| - 1])
    ensures PollsBackwards([Polled(page[|page| - 1].exec, page[|page| - 1].policy)] + events, page)
  {
  }

  /** A page on which nothing raises is polled whole, from its last item to its first. */
  lemma {:induction false} CleanPage(t: Tracker, page: seq<Item>)
    requires forall item | item in page :: item.fault == NoFault
    ensures PageEnds(t, page) && PollsBackwards(PageEvents(t, page), page)
    decreases |page|
  {
    if page != [] {
      var item, rest := page[|page| - 1], page[..|page| - 1];
      assert item in page && item.fault == NoFault;
      var after := Step(t, EventOf(item));
      CleanPage(after, rest);
      PollOneMore(PageEvents(after, rest), page);
    }
  }

  /** Recovery takes the exchange's list from its end, the replay takes the local rows in order. */
  lemma {:induction false} StartupOrder(rows: seq<Exec>)
    ensures |ReplayEvents(rows)| == |RecoverEvents(rows)| == |rows|
    ensures forall i | 0 <= i < |rows| ::
              ReplayEvents(rows)[i] == Replayed(rows[i]) && RecoverEvents(rows)[|rows| - 1 - i] == Recovered(rows[i])
    decreases |rows|
  {
    if rows != [] {
      var n := |rows| - 1;
      StartupOrder(rows[..n]);
      StartupOrder(rows[1..]);
      forall i | 0 <= i <= n
        ensures ReplayEvents(rows)[i] == Replayed(rows[i]) && RecoverEvents(rows)[n - i] == Recovered(rows[i])
      {
        assert i < n ==> ReplayEvents(rows[..n])[i] == Replayed(rows[..n][i]);
        assert i > 0 ==> RecoverEvents(rows[1..])[n - 1 - (i - 1)] == Recovered(rows[1..][i - 1]);
      }
    }
  }

  lemma {:induction false} RunOneFirst(t: Tracker, ev: Event, events: seq<Event>)
    ensures RunFrom(t, [ev] + events) == RunFrom(Step(t, ev), events)
  {
    if events == [] {
      assert [ev] + events == [ev] && [ev][..0] == [];
    } else {
      var n := |events| - 1;
      assert ([ev] + events)[..n + 1] == [ev] + events[..n];
      RunOneFirst(t, ev, events[..n]);
    }
  }

  lemma RunOneMore(t: Tracker, events: seq<Event>, ev: Event)
    ensures RunFrom(t, events + [ev]) == Step(RunFrom(t, events), ev)
  {
    assert (events + [ev])[..|events|] == events;
  }

  class Runtime {
    var book: map<string, Position>
    var seen: set<string>
    ghost var writtenOff: map<string, real>

    ghost function Contents(): Tracker
      reads this
    {
      Tracker(book, seen, writtenOff)
    }

    constructor ()
      ensures Contents() == EMPTY
    {
      book, seen, writtenOff := map[], {}, map[];
    }

    method ResetRuntimeState(symbol: string)
      modifies this
      ensures Contents() == ResetSymbol(old(Contents()), symbol)
    {
      writtenOff := writtenOff[symbol := Dropped(writtenOff, symbol) + Held(book, symbol).qty];
      book := book[symbol := FLAT];
    }

    /** One page of one symbol's executions; stops where the loop raises. */
    method RefreshPage(page: seq<Item>) returns (ok: bool)
      modifies this
      ensures Contents() == RunFrom(old(Contents()), PageEvents(old(Contents()), page))
      ensures ok == PageEnds(old(Contents()), page)
    {
      var i := |page|;
      assert page[..|page|] == page;
      ok := true;
      while i > 0 && ok
        invariant 0 <= i <= |page|
        invariant RunFrom(old(Contents()), PageEvents(old(Contents()), page)) ==
                  if ok then RunFrom(Contents(), PageEvents(Contents(), page[..i])) else Contents()
        invariant PageEnds(old(Contents()), page) == (ok && PageEnds(Contents(), page[..i]))
        decreases i, ok
      {
        ghost var before := Contents();
        var item := page[i - 1];
        assert page[..i][..i - 1] == page[..i - 1];
        ok := RefreshItem(item);
        RunOneFirst(before, EventOf(item), if ok then PageEvents(Contents(), page[..i - 1]) else []);
        i := i - 1;
      }
    }

    /** Add one execution to the books, if it counts. */
    method CountExec(e: Exec)
      modifies `book
      ensures Contents() == Count(old(Contents()), e)
    {
      if Counted(e) {
        book := book[e.symbol := ApplyFill(Held(book, e.symbol), Effective(e.trade))];
      }
    }

    /** One item of a page; not ok when the loop raises on it. */
    method RefreshItem(item: Item) returns (ok: bool)
      modifies this
      ensures Contents() == Step(old(Contents()), EventOf(item))
      ensures ok == !Raises(old(Contents()), item)
    {
      var e := item.exec;
      if e.id in seen {
        return true;
      }
      seen := seen + {e.id};
      if |seen| > SEEN_CAP {
        seen := {};
      }
      if item.fault.BeforeBook? {
        return false;
      }
      CountExec(e);
      if Counted(e) {
        if item.fault.BeforeReset? {
          return false;
        }
        if MustReset(Held(book, e.symbol).qty, e.trade.fill.price, item.policy) {
          ResetRuntimeState(e.symbol);
        }
      }
      return true;
    }

    /** Startup: the local rows, then the exchange's list. */
    method RecoverOnStartup(rows: seq<Exec>, page: seq<Exec>)
      modifies this
      ensures Contents() == RunFrom(RunFrom(old(Contents()), ReplayEvents(rows)), RecoverEvents(page))
    {
      ReplayRows(rows);
      RecoverPage(page);
    }

    method ReplayRows(rows: seq<Exec>)
      modifies this
      ensures Contents() == RunFrom(old(Contents()), ReplayEvents(rows))
    {
      for i := 0 to |rows|
        invariant Contents() == RunFrom(old(Contents()), ReplayEvents(rows[..i]))
      {
        assert rows[..i + 1][..i] == rows[..i];
        RunOneMore(old(Contents()), ReplayEvents(rows[..i]), Replayed(rows[i]));
        seen := seen + {rows[i].id};
        CountExec(rows[i]);
      }
      assert rows[..|rows|] == rows;
    }

    method RecoverPage(page: seq<Exec>)
      modifies this
      ensures Contents() == RunFrom(old(Contents()), RecoverEvents(page))
    {
      var j := |page|;
      while j > 0
        invariant 0 <= j <= |page|
        invariant Contents() == RunFrom(old(Contents()), RecoverEvents(page[j..]))
      {
        j := j - 1;
        assert page[j..][1..] == page[j + 1..];
        RunOneMore(old(Contents()), RecoverEvents(page[j + 1..]), Recovered(page[j]));
        if page[j].id !in seen {
          seen := seen + {page[j].id};
          CountExec(page[j]);
        }
      }
      assert page[0..] == page;
    }
  }

  function ReplayEvents(rows: seq<Exec>): seq<Event> {
    if rows == [] then [] else ReplayEvents(rows[..|rows| - 1]) + [Replayed(rows[|rows| - 1])]
  }

  function RecoverEvents(page: seq<Exec>): seq<Event> {
    if page == [] then [] else RecoverEvents(page[1..]) + [Recovered(page[0])]
  }
}
