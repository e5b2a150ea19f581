/** Paginated download of candle history into the price table. */
module Backfill {

  const PAGE: nat := 1000

  /** One element of a page: always an open time, and a close unless the rest is unreadable. */
  datatype Kline = Kline(time: int, close: real) | Unreadable(time: int)

  type PriceTable = map<int, Kline>

  /** The exchange: what it answers for a start time (oldest first), and whether the database takes
      the n-th page. */
  datatype World = World(fetch: int -> seq<Kline>, dbOk: nat -> bool)

  predicate Storable(c: Kline) {
    c.Kline? && c.close > 0.0
  }

  // ----- Saving a page ------------------------------------------------------------------------------

  /** Insert-or-ignore: a time already in the table keeps its row. */
  function Insert(table: PriceTable, c: Kline): PriceTable {
    if Storable(c) && c.time !in table then table[c.time := c] else table
  }

  function InsertAll(table: PriceTable, cs: seq<Kline>): PriceTable {
    if cs == [] then table else Insert(InsertAll(table, cs[..|cs| - 1]), cs[|cs| - 1])
  }

  /** A candle worth having: readable, with a positive close. */
  ghost predicate Closes(c: Kline) {
    c.Kline? && c.close > 0.0
  }

  lemma {:induction false} InsertAllEffect(table: PriceTable, cs: seq<Kline>)
    ensures var after := InsertAll(table, cs);
            && (forall t | t in table :: t in after && after[t] == table[t])
            && (forall i | 0 <= i < |cs| && Closes(cs[i]) :: cs[i].time in after)
            && (forall t | t in after && t !in table ::
                  exists i :: 0 <= i < |cs| && Closes(cs[i]) && cs[i] == after[t] && cs[i].time == t)
            && |after| >= |table|
  {
    if cs != [] {
      var n := |cs| - 1;
      InsertAllEffect(table, cs[..n]);
      var mid, after := InsertAll(table, cs[..n]), InsertAll(table, cs);
      forall i | 0 <= i < |cs| && Closes(cs[i]) ensures cs[i].time in after {
        if i < n { assert cs[..n][i] == cs[i]; }
      }
      forall t | t in after && t !in table
        ensures exists i :: 0 <= i < |cs| && Closes(cs[i]) && cs[i] == after[t] && cs[i].time == t
      {
        if t in mid {
          var i :| 0 <= i < n && Closes(cs[..n][i]) && cs[..n][i] == mid[t] && cs[..n][i].time == t;
          assert cs[i] == after[t];
        } else {
          assert cs[n] == after[t];
        }
      }
    }
  }

  // ----- A source that behaves ------------------------------------------------------------------------

  /** The exchange's candles, oldest first and at least an interval apart. */
  ghost predicate Spaced(all: seq<Kline>, interval: int) {
    forall i, j | 0 <= i < j < |all| :: all[i].time + interval <= all[j].time
  }

  /** The number of candles before a start time. */
  function Before(all: seq<Kline>, start: int): nat {
    if all == [] || all[0].time >= start then 0 else 1 + Before(all[1..], start)
  }

  lemma {:induction false} BeforeSplits(all: seq<Kline>, start: int, interval: int)
    requires Spaced(all, interval) && interval > 0
    ensures Before(all, start) <= |all|
    ensures forall i | 0 <= i < |all| :: i < Before(all, start) <==> all[i].time < start
  {
    if all != [] && all[0].time < start {
      assert forall i | 1 <= i < |all| :: all[1..][i - 1] == all[i];
      BeforeSplits(all[1..], start, interval);
      forall i | 0 <= i < |all| ensures i < Before(all, start) <==> all[i].time < start {
        if i > 0 { assert all[1..][i - 1] == all[i]; }
      }
    } else if all != [] {
      forall i | 0 <= i < |all| ensures all[i].time >= start {
        if i > 0 { assert all[0].time + interval <= all[i].time; }
      }
    }
  }

  /** It answers with the first candles at or after the start, up to a thousand of them. */
  function PageOf(all: seq<Kline>, start: int): seq<Kline>
    requires Before(all, start) <= |all|
  {
    var from := Before(all, start);
    if |all| - from <= 1000 then all[from..] else all[from..from + 1000]
  }

  ghost predicate Serves(w: World, all: seq<Kline>, interval: int) {
    && interval > 0 && Spaced(all, interval)
    && (forall start :: Before(all, start) <= |all| && w.fetch(start) == PageOf(all, start))
    && (forall n :: w.dbOk(n))
  }

  // ----- The loop -----------------------------------------------------------------------------------------

  /** Every storable candle from the start up to (not including) a time is in the table. */
  ghost predicate Covered(table: PriceTable, all: seq<Kline>, from: int, upTo: int) {
    forall i | 0 <= i < |all| && Closes(all[i]) && from <= all[i].time < upTo :: all[i].time in table
  }

  /** Rows are only added, and each added row is a candle of the source. */
  ghost predicate Grows(before: PriceTable, after: PriceTable) {
    forall t | t in before :: t in after && after[t] == before[t]
  }

  ghost predicate FromSource(before: PriceTable, after: PriceTable, all: seq<Kline>) {
    forall t | t in after && t !in before ::
      exists i :: 0 <= i < |all| && all[i] == after[t] && all[i].time == t && Closes(all[i])
  }

  /** Where a download has got to. */
  ghost predicate Progress(all: seq<Kline>, from: int, upTo: int, start: PriceTable, table: PriceTable) {
    Covered(table, all, from, upTo) && FromSource(start, table, all)
  }

  lemma PageElement(all: seq<Kline>, interval: int, start: int, page: seq<Kline>, i: nat)
    requires interval > 0 && Spaced(all, interval) && Before(all, start) <= |all| && page == PageOf(all, start)
    requires i < |page|
    ensures page[i] in all && page[i].time >= start
  {
    BeforeSplits(all, start, interval);
    assert page[i] == all[Before(all, start) + i];
  }

  lemma PageHas(all: seq<Kline>, interval: int, start: int, page: seq<Kline>, i: nat)
    requires interval > 0 && Spaced(all, interval) && Before(all, start) <= |all| && page == PageOf(all, start)
    requires i < |all| && start <= all[i].time
    requires |page| < PAGE || (page != [] && all[i].time < page[|page| - 1].time + interval)
    ensures all[i] in page
  {
    var from := Before(all, start);
    BeforeSplits(all, start, interval);
    assert from <= i;
    if |page| >= PAGE {
      assert page[|page| - 1] == all[from + |page| - 1];
    }
    assert page[i - from] == all[i];
  }

  /** A page, if the source behaves: everything it can cover is covered. */
  lemma PageCovers(all: seq<Kline>, interval: int, start: int, page: seq<Kline>)
    requires interval > 0 && Spaced(all, interval) && Before(all, start) <= |all| && page == PageOf(all, start)
    ensures forall i | 0 <= i < |page| :: page[i] in all && page[i].time >= start
    ensures page != [] ==>
              forall i | 0 <= i < |all| && start <= all[i].time < page[|page| - 1].time + interval :: all[i] in page
    ensures |page| < PAGE ==> forall i | 0 <= i < |all| && start <= all[i].time :: all[i] in page
  {
    forall i | 0 <= i < |page| ensures page[i] in all && page[i].time >= start {
      PageElement(all, interval, start, page, i);
    }
    forall i | 0 <= i < |all| && start <= all[i].time &&
        (|page| < PAGE || (page != [] && all[i].time < page[|page| - 1].time + interval))
      ensures all[i] in page
    {
      PageHas(all, interval, start, page, i);
    }
  }

  class Worker {
    var table: PriceTable

    constructor (table: PriceTable)
      ensures this.table == table
    {
      this.table := table;
    }

    /** Store a page; the number of rows that were new, 0 when the database refuses. */
    method SaveCandles(page: seq<Kline>, dbOk: bool) returns (saved: nat)
      modifies this
      ensures table == if dbOk then InsertAll(old(table), page) else old(table)
      ensures saved == |table| - |old(table)|
    {
      InsertAllEffect(table, page);
      if !dbOk {
        return 0;
      }
      saved := 0;
      for i := 0 to |page|
        invariant table == InsertAll(old(table), page[..i]) && saved == |table| - |old(table)|
      {
        assert page[..i + 1][..i] == page[..i];
        if Storable(page[i]) && page[i].time !in table {
          table := table[page[i].time := page[i]];
          saved := saved + 1;
        }
      }
      assert page[..|page|] == page;
    }

    /** Page after page from startMs until the present. Terminates whatever the source answers; the
        count is the number of new rows; rows are never changed. */
    method RunBackfill(w: World, startMs: int, nowMs: int, interval: int, ghost all: seq<Kline>) returns (total: nat)
      modifies this
      ensures total == |table| - |old(table)| && Grows(old(table), table)
      ensures Serves(w, all, interval) ==> Progress(all, startMs, nowMs, old(table), table)
    {
      total := 0;
      var current, round := startMs, 0;
      ghost var start, serves := table, Serves(w, all, interval);
      while current < nowMs
        invariant total == |table| - |start| && Grows(start, table)
        invariant serves ==> Progress(all, startMs, current, start, table)
        decreases nowMs - current
      {
        var page, saved := FetchAndSave(w, round, current, interval, all, startMs, start);
        if page == [] {
          break;
        }
        round := round + 1;
        total := total + saved;
        var next := page[|page| - 1].time + interval;
        if next <= current {
          break;
        }
        current := next;
        if |page| < PAGE {
          break;
        }
      }
    }

    /** One round: ask for the page at `current` and store it. */
    method FetchAndSave(w: World, round: nat, current: int, interval: int,
                        ghost all: seq<Kline>, ghost from: int, ghost start: PriceTable)
      returns (page: seq<Kline>, saved: nat)
      requires Grows(start, table)
      modifies this
      ensures page == w.fetch(current) && saved == |table| - |old(table)| && Grows(start, table)
      ensures page == [] ==> table == old(table)
      ensures Serves(w, all, interval) && Progress(all, from, current, start, old(table)) ==>
                && (page != [] ==> page[|page| - 1].time + interval > current &&
                                   Progress(all, from, page[|page| - 1].time + interval, start, table))
                && (|page| < PAGE ==> forall upTo :: Progress(all, from, upTo, start, table))
    {
      page := w.fetch(current);
      if page == [] {
        if Serves(w, all, interval) {
          PageCovers(all, interval, current, page);
        }
        return page, 0;
      }
      ghost var before := table;
      InsertAllEffect(table, page);
      saved := SaveCandles(page, w.dbOk(round));
      if Serves(w, all, interval) && Progress(all, from, current, start, before) {
        AfterPage(w, all, interval, from, current, before, table, start);
      }
    }

    static lemma PageExtendsCover(w: World, all: seq<Kline>, interval: int, from: int, current: int,
                                  before: PriceTable, after: PriceTable)
      requires Serves(w, all, interval) && w.fetch(current) != []
      requires after == InsertAll(before, w.fetch(current)) && Covered(before, all, from, current)
      ensures var page := w.fetch(current);
              && page[|page| - 1].time + interval > current
              && Covered(after, all, from, page[|page| - 1].time + interval)
              && (|page| < PAGE ==> forall upTo :: Covered(after, all, from, upTo))
    {
      var page := w.fetch(current);
      PageCovers(all, interval, current, page);
      InsertAllEffect(before, page);
      forall i | 0 <= i < |all| && Closes(all[i]) && from <= all[i].time && (all[i].time < current || all[i] in page)
        ensures all[i].time in after
      {
        if all[i].time >= current {
          var j :| 0 <= j < |page| && page[j] == all[i];
        }
      }
    }

    static lemma PageIsFromSource(w: World, all: seq<Kline>, interval: int, current: int,
                                  before: PriceTable, after: PriceTable, start: PriceTable)
      requires Serves(w, all, interval) && w.fetch(current) != []
      requires after == InsertAll(before, w.fetch(current)) && FromSource(start, before, all)
      ensures FromSource(start, after, all)
    {
      var page := w.fetch(current);
      PageCovers(all, interval, current, page);
      InsertAllEffect(before, page);
      forall t | t in after && t !in start
        ensures exists i :: 0 <= i < |all| && all[i] == after[t] && all[i].time == t && Closes(all[i])
      {
        if t !in before {
          var i :| 0 <= i < |page| && Closes(page[i]) && page[i] == after[t] && page[i].time == t;
          assert page[i] in all;
        }
      }
    }

    /** What a saved page adds, when the source behaves. */
    static lemma AfterPage(w: World, all: seq<Kline>, interval: int, from: int, current: int,
                           before: PriceTable, after: PriceTable, start: PriceTable)
      requires Serves(w, all, interval) && w.fetch(current) != []
      requires after == InsertAll(before, w.fetch(current)) && Progress(all, from, current, start, before)
      ensures var page := w.fetch(current);
              && page[|page| - 1].time + interval > current
              && Progress(all, from, page[|page| - 1].time + interval, start, after)
              && (|page| < PAGE ==> forall upTo :: Progress(all, from, upTo, start, after))
    {
      PageExtendsCover(w, all, interval, from, current, before, after);
      PageIsFromSource(w, all, interval, current, before, after, start);
    }
  }
}
