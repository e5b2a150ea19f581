/** Rebuilding an order book from snapshots and deltas, and what is read off it. */
module OrderBook {
  import opened Options

  datatype Level = Level(price: real, size: real)

  type Book = map<real, real>

  // ----- Applying updates -----------------------------------------------------------------------------

  function ApplyUpdate(book: Book, u: Level): Book {
    if u.size == 0.0 then book - {u.price} else book[u.price := u.size]
  }

  function ApplyDelta(book: Book, updates: seq<Level>): Book {
    if updates == [] then book else ApplyUpdate(ApplyDelta(book, updates[..|updates| - 1]), updates[|updates| - 1])
  }

  /** A snapshot is taken as it comes, later entries over earlier ones, zero sizes included. */
  function FromSnapshot(levels: seq<Level>): Book {
    if levels == [] then map[]
    else FromSnapshot(levels[..|levels| - 1])[levels[|levels| - 1].price := levels[|levels| - 1].size]
  }

  datatype Side = Bids | Asks

  datatype Message = Message(symbol: string, snapshot: bool, bids: seq<Level>, asks: seq<Level>)

  function LevelsOf(m: Message, side: Side): seq<Level> {
    if side == Bids then m.bids else m.asks
  }

  /** One side of one symbol's book after a stream of messages. */
  function Replay(stream: seq<Message>, symbol: string, side: Side): Book {
    if stream == [] then map[]
    else
      var before, m := Replay(stream[..|stream| - 1], symbol, side), stream[|stream| - 1];
      if m.symbol != symbol then before
      else if m.snapshot then FromSnapshot(LevelsOf(m, side))
      else ApplyDelta(before, LevelsOf(m, side))
  }

  lemma ReplayMore(stream: seq<Message>, m: Message, symbol: string, side: Side)
    ensures var before := Replay(stream, symbol, side);
            Replay(stream + [m], symbol, side) ==
            if m.symbol != symbol then before
            else if m.snapshot then FromSnapshot(LevelsOf(m, side)) else ApplyDelta(before, LevelsOf(m, side))
  {
    assert (stream + [m])[..|stream|] == stream;
  }

  // ----- Last write wins ---------------------------------------------------------------------------------

  /** The last size written for a price in a list. */
  function LastWrite(levels: seq<Level>, price: real): Option<real> {
    if levels == [] then None
    else if levels[|levels| - 1].price == price then Some(levels[|levels| - 1].size)
    else LastWrite(levels[..|levels| - 1], price)
  }

  /** Everything written to a side since its latest snapshot (or from the start), in order. */
  function WritesSince(stream: seq<Message>, symbol: string, side: Side): seq<Level> {
    if stream == [] then []
    else
      var before, m := WritesSince(stream[..|stream| - 1], symbol, side), stream[|stream| - 1];
      if m.symbol != symbol then before
      else if m.snapshot then LevelsOf(m, side)
      else before + LevelsOf(m, side)
  }

  function SizeAt(book: Book, price: real): Option<real> {
    if price in book then Some(book[price]) else None
  }

  /** What a list of writes leaves at a price: its last size, unless that is zero. */
  function Standing(writes: seq<Level>, price: real): Option<real> {
    var last := LastWrite(writes, price);
    if last == Some(0.0) then None else last
  }

  /** Snapshots of the stream carry no zero sizes for this side. */
  ghost predicate CleanSnapshots(stream: seq<Message>, symbol: string, side: Side) {
    forall i, j | 0 <= i < |stream| && stream[i].symbol == symbol && stream[i].snapshot &&
        0 <= j < |LevelsOf(stream[i], side)| ::
      LevelsOf(stream[i], side)[j].size != 0.0
  }

  lemma {:induction false} LastWriteConcat(a: seq<Level>, b: seq<Level>, price: real)
    ensures LastWrite(a + b, price) == if LastWrite(b, price).Some? then LastWrite(b, price) else LastWrite(a, price)
  {
    if b == [] {
      assert a + b == a;
    } else {
      var n := |b| - 1;
      assert (a + b)[..|a| + n] == a + b[..n];
      LastWriteConcat(a, b[..n], price);
    }
  }

  lemma {:induction false} DeltaAt(book: Book, updates: seq<Level>, price: real)
    ensures SizeAt(ApplyDelta(book, updates), price) ==
            if LastWrite(updates, price).Some? then Standing(updates, price) else SizeAt(book, price)
  {
    if updates != [] {
      DeltaAt(book, updates[..|updates| - 1], price);
    }
  }

  lemma {:induction false} SnapshotAt(levels: seq<Level>, price: real)
    ensures SizeAt(FromSnapshot(levels), price) == LastWrite(levels, price)
  {
    if levels != [] {
      SnapshotAt(levels[..|levels| - 1], price);
    }
  }

  lemma {:induction false} LastWriteIsWritten(levels: seq<Level>, price: real)
    ensures LastWrite(levels, price).Some? ==>
              exists i :: 0 <= i < |levels| && levels[i] == Level(price, LastWrite(levels, price).value)
  {
    if levels != [] {
      var n := |levels| - 1;
      if levels[n].price == price {
        assert levels[n] == Level(price, LastWrite(levels, price).value);
      } else {
        LastWriteIsWritten(levels[..n], price);
        if LastWrite(levels, price).Some? {
          var i :| 0 <= i < n && levels[..n][i] == Level(price, LastWrite(levels, price).value);
          assert levels[i] == levels[..n][i];
        }
      }
    }
  }

  /** A price keeps a zero: the latest snapshot's last entry for it is zero, and no delta since has
      written it. */
  predicate KeepsZero(stream: seq<Message>, symbol: string, side: Side, price: real) {
    stream != [] &&
    (var before, m := stream[..|stream| - 1], stream[|stream| - 1];
     if m.symbol != symbol then KeepsZero(before, symbol, side, price)
     else if m.snapshot then LastWrite(LevelsOf(m, side), price) == Some(0.0)
     else LastWrite(LevelsOf(m, side), price).None? && KeepsZero(before, symbol, side, price))
  }

  /** REPLAY. After any stream, each side shows at every price the last size written since its
      latest snapshot, and nothing where that size was zero, except that a kept zero stands. */
  lemma {:induction false} ReplayAt(stream: seq<Message>, symbol: string, side: Side, price: real)
    ensures SizeAt(Replay(stream, symbol, side), price) ==
            if KeepsZero(stream, symbol, side, price) then Some(0.0)
            else Standing(WritesSince(stream, symbol, side), price)
    ensures KeepsZero(stream, symbol, side, price) ==> LastWrite(WritesSince(stream, symbol, side), price) == Some(0.0)
  {
    if stream != [] {
      var n := |stream| - 1;
      var m, levels := stream[n], LevelsOf(stream[n], side);
      ReplayAt(stream[..n], symbol, side, price);
      if m.symbol == symbol {
        if m.snapshot {
          SnapshotAt(levels, price);
        } else {
          DeltaAt(Replay(stream[..n], symbol, side), levels, price);
          LastWriteConcat(WritesSince(stream[..n], symbol, side), levels, price);
        }
      }
    }
  }

  /** So the book is the plain last-write-wins replay at a price if and only if no zero is kept
      there: snapshots, unlike deltas, store the zeros they carry. */
  lemma ReplayIsLastWriteIff(stream: seq<Message>, symbol: string, side: Side, price: real)
    ensures SizeAt(Replay(stream, symbol, side), price) == Standing(WritesSince(stream, symbol, side), price) <==>
            !KeepsZero(stream, symbol, side, price)
  {
    ReplayAt(stream, symbol, side, price);
  }

  lemma {:induction false} CleanKeepsNoZero(stream: seq<Message>, symbol: string, side: Side, price: real)
    requires CleanSnapshots(stream, symbol, side)
    ensures !KeepsZero(stream, symbol, side, price)
  {
    if stream != [] {
      var n := |stream| - 1;
      assert forall i | 0 <= i < n :: stream[..n][i] == stream[i];
      CleanKeepsNoZero(stream[..n], symbol, side, price);
      if stream[n].symbol == symbol && stream[n].snapshot {
        LastWriteIsWritten(LevelsOf(stream[n], side), price);
      }
    }
  }

  /** When no snapshot carries a zero, every price shows its last write. */
  lemma ReplayIsLastWrite(stream: seq<Message>, symbol: string, side: Side, price: real)
    requires CleanSnapshots(stream, symbol, side)
    ensures SizeAt(Replay(stream, symbol, side), price) == Standing(WritesSince(stream, symbol, side), price)
  {
    CleanKeepsNoZero(stream, symbol, side, price);
    ReplayIsLastWriteIff(stream, symbol, side, price);
  }

  /** If no negative size was written, a standing level has a positive size unless it is a kept
      zero. */
  lemma SizesArePositiveIff(stream: seq<Message>, symbol: string, side: Side, price: real)
    requires forall i | 0 <= i < |WritesSince(stream, symbol, side)| :: WritesSince(stream, symbol, side)[i].size >= 0.0
    requires price in Replay(stream, symbol, side)
    ensures Replay(stream, symbol, side)[price] > 0.0 <==> !KeepsZero(stream, symbol, side, price)
  {
    ReplayAt(stream, symbol, side, price);
    LastWriteIsWritten(WritesSince(stream, symbol, side), price);
  }

  /** The latest entry for a price on one side: entry j of message k, after which the message has no
      other for it, and no later message of the symbol is a snapshot or has one. */
  ghost predicate WrittenLast(stream: seq<Message>, symbol: string, side: Side, k: nat, j: nat, price: real) {
    && k < |stream| && stream[k].symbol == symbol
    && (match side
        case Bids =>
          && j < |stream[k].bids| && stream[k].bids[j].price == price
          && (forall i | j < i < |stream[k].bids| :: stream[k].bids[i].price != price)
          && forall l, i | k < l < |stream| && stream[l].symbol == symbol && 0 <= i < |stream[l].bids| ::
            stream[l].bids[i].price != price
        case Asks =>
          && j < |stream[k].asks| && stream[k].asks[j].price == price
          && (forall i | j < i < |stream[k].asks| :: stream[k].asks[i].price != price)
          && forall l, i | k < l < |stream| && stream[l].symbol == symbol && 0 <= i < |stream[l].asks| ::
            stream[l].asks[i].price != price)
    && forall l | k < l < |stream| && stream[l].symbol == symbol :: !stream[l].snapshot
  }

  lemma {:induction false} LastEntry(levels: seq<Level>, j: nat, price: real)
    requires j < |levels| && levels[j].price == price
    requires forall i | j < i < |levels| :: levels[i].price != price
    ensures LastWrite(levels, price) == Some(levels[j].size)
  {
    if j < |levels| - 1 {
      LastEntry(levels[..|levels| - 1], j, price);
    }
  }

  lemma {:induction false} NoEntry(levels: seq<Level>, price: real)
    requires forall i | 0 <= i < |levels| :: levels[i].price != price
    ensures LastWrite(levels, price).None?
  {
    if levels != [] {
      NoEntry(levels[..|levels| - 1], price);
    }
  }

  /** Each side of a book shows, at each price, the size its own side of the messages gave last; a
      delta of size zero takes the price away, a snapshot's zero is kept. */
  lemma {:induction false} BookShowsLastEntry(stream: seq<Message>, symbol: string, side: Side, k: nat, j: nat,
                                              price: real)
    requires WrittenLast(stream, symbol, side, k, j, price)
    ensures var size := if side == Bids then stream[k].bids[j].size else stream[k].asks[j].size;
            SizeAt(Replay(stream, symbol, side), price) ==
            if size == 0.0 && !stream[k].snapshot then None else Some(size)
  {
    var n := |stream| - 1;
    var before, levels := Replay(stream[..n], symbol, side), LevelsOf(stream[n], side);
    if k < n {
      BookShowsLastEntry(stream[..n], symbol, side, k, j, price);
      if stream[n].symbol == symbol {
        NoEntry(levels, price);
        DeltaAt(before, levels, price);
      }
    } else {
      LastEntry(levels, j, price);
      DeltaAt(before, levels, price);
      SnapshotAt(levels, price);
    }
  }

  // ----- Sorted levels ---------------------------------------------------------------------------------------

  predicate Precedes(a: real, b: real, descending: bool) {
    if descending then a > b else a < b
  }

  ghost predicate Ordered(levels: seq<Level>, descending: bool) {
    forall i, j | 0 <= i < j < |levels| :: Precedes(levels[i].price, levels[j].price, descending)
  }

  ghost predicate ListsBook(levels: seq<Level>, book: Book) {
    && (forall i | 0 <= i < |levels| :: levels[i].price in book && book[levels[i].price] == levels[i].size)
    && (forall p | p in book :: exists i :: 0 <= i < |levels| && levels[i].price == p)
  }

  /** Put one more level in its place. */
  method InsertLevel(levels: seq<Level>, l: Level, descending: bool) returns (r: seq<Level>)
    requires Ordered(levels, descending) && forall i | 0 <= i < |levels| :: levels[i].price != l.price
    ensures Ordered(r, descending)
    ensures forall x :: x in r <==> x in levels || x == l
  {
    var i := 0;
    while i < |levels| && Precedes(levels[i].price, l.price, descending)
      invariant 0 <= i <= |levels|
      invariant forall j | 0 <= j < i :: Precedes(levels[j].price, l.price, descending)
    {
      i := i + 1;
    }
    r := levels[..i] + [l] + levels[i..];
    assert levels == levels[..i] + levels[i..];
  }

  lemma EmptyOrInhabited(s: set<real>)
    ensures s == {} || exists p :: p in s
  {
    if forall p :: p !in s {
      assert s == {};
    }
  }

  /** The book's levels in price order. */
  method BookToSortedList(book: Book, descending: bool) returns (levels: seq<Level>)
    ensures Ordered(levels, descending) && ListsBook(levels, book)
  {
    levels := [];
    var todo: set<real> := book.Keys;
    while todo != {}
      invariant todo <= book.Keys && Ordered(levels, descending)
      invariant forall l | l in levels :: l.price in book && l.price !in todo && book[l.price] == l.size
      invariant forall p | p in book && p !in todo :: Level(p, book[p]) in levels
      decreases todo
    {
      EmptyOrInhabited(todo);
      var p: real :| p in todo;
      todo := todo - {p};
      levels := InsertLevel(levels, Level(p, book[p]), descending);
    }
    forall p | p in book ensures exists i :: 0 <= i < |levels| && levels[i].price == p {
      var i :| 0 <= i < |levels| && levels[i] == Level(p, book[p]);
    }
  }

  lemma EmptyListEmptyBook(levels: seq<Level>, book: Book)
    requires ListsBook(levels, book)
    ensures levels == [] <==> book == map[]
  {
    if levels == [] {
      assert forall p :: p !in book;
      assert book == map[];
    } else {
      assert levels[0].price in book;
    }
  }

  /** The first bid is the highest price, the first ask the lowest. */
  lemma FirstIsBest(levels: seq<Level>, book: Book, descending: bool)
    requires Ordered(levels, descending) && ListsBook(levels, book) && levels != []
    ensures levels[0].price in book
    ensures forall p | p in book :: if descending then p <= levels[0].price else levels[0].price <= p
  {
    forall p | p in book ensures if descending then p <= levels[0].price else levels[0].price <= p {
      var i :| 0 <= i < |levels| && levels[i].price == p;
      assert i > 0 ==> Precedes(levels[0].price, levels[i].price, descending);
    }
  }

  /** The head of the sorted levels. */
  method BestLevel(book: Book, descending: bool) returns (best: Option<Level>)
    ensures best.None? <==> book == map[]
    ensures best.Some? ==>
              && best.value.price in book && book[best.value.price] == best.value.size
              && forall p | p in book :: if descending then p <= best.value.price else best.value.price <= p
  {
    var levels := BookToSortedList(book, descending);
    EmptyListEmptyBook(levels, book);
    if levels == [] {
      return None;
    }
    FirstIsBest(levels, book, descending);
    return Some(levels[0]);
  }

  // ----- Tick size ----------------------------------------------------------------------------------------------

  const DEPTH := 25
  const LEAST_TICK := 0.000000000001

  function Gap(a: Level, b: Level): real {
    if a.price > b.price then a.price - b.price else b.price - a.price
  }

  function Top(levels: seq<Level>): seq<Level> {
    if |levels| <= DEPTH then levels else levels[..DEPTH]
  }

  /** d is a gap between two levels of one of the sides, and no such gap is smaller. */
  ghost predicate IsLeastGap(bids: seq<Level>, asks: seq<Level>, d: real) {
    && (HasGap(bids, d) || HasGap(asks, d))
    && (forall i, j, e | IsGap(bids, i, j, e) || IsGap(asks, i, j, e) :: d <= e)
  }

  ghost predicate IsGap(levels: seq<Level>, i: int, j: int, d: real) {
    0 <= i < j < |levels| && Gap(levels[i], levels[j]) == d
  }

  ghost predicate HasGap(levels: seq<Level>, d: real) {
    exists i, j :: IsGap(levels, i, j, d)
  }

  /** Neighbours are never further apart than the levels around them. */
  lemma NeighbourGap(levels: seq<Level>, descending: bool, i: nat, j: nat)
    requires Ordered(levels, descending) && i < j < |levels|
    ensures 0.0 < Gap(levels[i], levels[i + 1]) <= Gap(levels[i], levels[j])
  {
    assert Precedes(levels[i].price, levels[i + 1].price, descending);
    assert i + 1 < j ==> Precedes(levels[i + 1].price, levels[j].price, descending);
  }

  /** The least gap between neighbours on one side, starting from the least so far. */
  method LeastNeighbourGap(levels: seq<Level>, descending: bool, so: Option<real>) returns (least: Option<real>)
    requires Ordered(levels, descending)
    ensures least.None? <==> so.None? && |levels| < 2
    ensures so.Some? ==> least.Some? && least.value <= so.value
    ensures forall i, j, e | IsGap(levels, i, j, e) :: least.Some? && least.value <= e
    ensures least.Some? ==> least == so || HasGap(levels, least.value)
  {
    least := so;
    var k := 1;
    while k < |levels|
      invariant 1 <= k
      invariant so.Some? ==> least.Some? && least.value <= so.value
      invariant k >= 2 ==> least.Some?
      invariant least.Some? ==> forall i, j | 0 <= i && j == i + 1 && j < k && j < |levels| ::
          least.value <= Gap(levels[i], levels[j])
      invariant least.Some? ==> least == so || HasGap(levels, least.value)
    {
      var diff := Gap(levels[k - 1], levels[k]);
      NeighbourGap(levels, descending, k - 1, k);
      assert IsGap(levels, k - 1, k, diff);
      if diff > 0.0 && (least.None? || diff < least.value) {
        least := Some(diff);
      }
      k := k + 1;
    }
    forall i, j, e | IsGap(levels, i, j, e) ensures least.Some? && least.value <= e {
      NeighbourGap(levels, descending, i, j);
    }
  }

  /** The inferred tick: the least gap among the top levels of either side, though only neighbours
      are compared; the fallback when no side has two levels; never below the floor. */
  method InferTickSize(bids: seq<Level>, asks: seq<Level>, fallback: real) returns (tick: real)
    requires Ordered(bids, true) && Ordered(asks, false)
    ensures tick >= 0.000000000001
    ensures |bids| < 2 && |asks| < 2 ==> tick == if fallback > 0.000000000001 then fallback else 0.000000000001
    ensures |bids| >= 2 || |asks| >= 2 ==>
              var nearBids, nearAsks :=
                bids[..if |bids| < 25 then |bids| else 25], asks[..if |asks| < 25 then |asks| else 25];
              exists d :: IsLeastGap(nearBids, nearAsks, d) &&
                tick == if d > 0.000000000001 then d else 0.000000000001
  {
    assert Top(bids) == bids[..if |bids| < 25 then |bids| else 25];
    assert Top(asks) == asks[..if |asks| < 25 then |asks| else 25];
    var least := LeastNeighbourGap(Top(bids), true, None);
    least := LeastNeighbourGap(Top(asks), false, least);
    var d := if least.Some? then least.value else fallback;
    tick := if d > LEAST_TICK then d else LEAST_TICK;
    assert least.Some? ==> IsLeastGap(Top(bids), Top(asks), d);
  }

  // ----- The client ------------------------------------------------------------------------------------------------

  function Dedup(symbols: seq<string>): seq<string> {
    if symbols == [] then []
    else
      var before, s := Dedup(symbols[..|symbols| - 1]), symbols[|symbols| - 1];
      if s == "" || s in before then before else before + [s]
  }

  function Elements(xs: seq<string>): set<string> {
    set x | x in xs
  }

  /** Each requested symbol once, in the order asked for, and no empty name. */
  lemma {:induction false} DedupKeepsEach(symbols: seq<string>)
    ensures Elements(Dedup(symbols)) == set s | s in symbols && s != ""
    ensures forall i, j | 0 <= i < j < |Dedup(symbols)| :: Dedup(symbols)[i] != Dedup(symbols)[j]
  {
    if symbols != [] {
      var n := |symbols| - 1;
      DedupKeepsEach(symbols[..n]);
      var before, s := Dedup(symbols[..n]), symbols[n];
      assert symbols == symbols[..n] + [s];
      assert s in before ==> s in Elements(before);
      assert forall x :: x in Elements(Dedup(symbols)) <==> x in Elements(before) || (x == s && s != "");
    }
  }

  /** What the client meets: book messages and changes of the subscription. */
  datatype Input = Received(message: Message) | Subscribed(wanted: seq<string>)

  /** The subscription after some inputs; an empty request changes nothing. */
  function Subscription(initial: set<string>, inputs: seq<Input>): set<string> {
    if inputs == [] then initial
    else
      var before, last := Subscription(initial, inputs[..|inputs| - 1]), inputs[|inputs| - 1];
      if last.Subscribed? && Elements(Dedup(last.wanted)) != {} then Elements(Dedup(last.wanted)) else before
  }

  /** The messages a symbol has received since it was last taken into the subscription. */
  function Since(initial: set<string>, inputs: seq<Input>, symbol: string): seq<Message> {
    if inputs == [] || symbol !in Subscription(initial, inputs[..|inputs| - 1]) then []
    else
      var before, last := Since(initial, inputs[..|inputs| - 1], symbol), inputs[|inputs| - 1];
      if last.Received? then before + [last.message]
      else if symbol in Subscription(initial, inputs) then before else []
  }

  function SubscriptionAfter(before: set<string>, last: Input): set<string> {
    if last.Subscribed? && Elements(Dedup(last.wanted)) != {} then Elements(Dedup(last.wanted)) else before
  }

  lemma OneMoreInput(initial: set<string>, inputs: seq<Input>, last: Input)
    ensures Subscription(initial, inputs + [last]) == SubscriptionAfter(Subscription(initial, inputs), last)
  {
    assert (inputs + [last])[..|inputs|] == inputs;
  }

  /** One side of a symbol's book, rebuilt from what it received since it was subscribed. */
  function Rebuilt(initial: set<string>, inputs: seq<Input>, symbol: string, side: Side): Book {
    Replay(Since(initial, inputs, symbol), symbol, side)
  }

  lemma RebuiltOnMessage(initial: set<string>, inputs: seq<Input>, m: Message, symbol: string, side: Side)
    requires symbol in Subscription(initial, inputs)
    ensures var before := Rebuilt(initial, inputs, symbol, side);
            Rebuilt(initial, inputs + [Received(m)], symbol, side) ==
            if m.symbol != symbol then before
            else if m.snapshot then FromSnapshot(LevelsOf(m, side)) else ApplyDelta(before, LevelsOf(m, side))
  {
    assert (inputs + [Received(m)])[..|inputs|] == inputs;
    ReplayMore(Since(initial, inputs, symbol), m, symbol, side);
  }

  lemma RebuiltOnChange(initial: set<string>, inputs: seq<Input>, wanted: seq<string>, symbol: string, side: Side)
    requires symbol in Subscription(initial, inputs + [Subscribed(wanted)])
    ensures Rebuilt(initial, inputs + [Subscribed(wanted)], symbol, side) ==
            if symbol in Subscription(initial, inputs) then Rebuilt(initial, inputs, symbol, side) else map[]
  {
    assert (inputs + [Subscribed(wanted)])[..|inputs|] == inputs;
  }

  /** One side of all books: exactly the subscribed symbols, each rebuilt. */
  ghost predicate AllRebuilt(books: map<string, Book>, initial: set<string>, inputs: seq<Input>, side: Side) {
    books.Keys == Subscription(initial, inputs) && forall s | s in books ::
        books[s] == Rebuilt(initial, inputs, s, side)
  }

  lemma MessageKeepsRebuilt(before: map<string, Book>, after: map<string, Book>, m: Message,
                            initial: set<string>, inputs: seq<Input>, side: Side)
    requires AllRebuilt(before, initial, inputs, side) && after.Keys == before.Keys
    requires forall s | s in after && s != m.symbol :: after[s] == before[s]
    requires m.symbol in after ==>
               after[m.symbol] ==
               if m.snapshot then FromSnapshot(LevelsOf(m, side)) else ApplyDelta(before[m.symbol], LevelsOf(m, side))
    ensures AllRebuilt(after, initial, inputs + [Received(m)], side)
  {
    OneMoreInput(initial, inputs, Received(m));
    forall s | s in after ensures after[s] == Rebuilt(initial, inputs + [Received(m)], s, side) {
      RebuiltOnMessage(initial, inputs, m, s, side);
    }
  }

  lemma ChangeKeepsRebuilt(before: map<string, Book>, after: map<string, Book>, wanted: seq<string>,
                           initial: set<string>, inputs: seq<Input>, side: Side)
    requires AllRebuilt(before, initial, inputs, side)
    requires after.Keys == SubscriptionAfter(before.Keys, Subscribed(wanted))
    requires forall s | s in after :: after[s] == if s in before then before[s] else map[]
    ensures AllRebuilt(after, initial, inputs + [Subscribed(wanted)], side)
  {
    OneMoreInput(initial, inputs, Subscribed(wanted));
    forall s | s in after ensures after[s] == Rebuilt(initial, inputs + [Subscribed(wanted)], s, side) {
      RebuiltOnChange(initial, inputs, wanted, s, side);
    }
  }

  class Client {
    var symbols: seq<string>
    var bids: map<string, Book>
    var asks: map<string, Book>

    /** Books are kept for exactly the subscribed symbols. */
    ghost predicate Valid()
      reads this
    {
      bids.Keys == asks.Keys == Elements(symbols)
    }

    constructor (wanted: seq<string>)
      ensures Valid() && symbols == Dedup(wanted)
      ensures forall s | s in bids :: bids[s] == map[] && asks[s] == map[]
    {
      symbols := Dedup(wanted);
      bids := map s | s in Dedup(wanted) :: map[];
      asks := map s | s in Dedup(wanted) :: map[];
    }

    method ApplyLevels(book: Book, levels: seq<Level>, snapshot: bool) returns (r: Book)
      ensures r == if snapshot then FromSnapshot(levels) else ApplyDelta(book, levels)
    {
      r := if snapshot then map[] else book;
      for i := 0 to |levels|
        invariant r == if snapshot then FromSnapshot(levels[..i]) else ApplyDelta(book, levels[..i])
      {
        assert levels[..i + 1][..i] == levels[..i];
        if snapshot {
          r := r[levels[i].price := levels[i].size];
        } else if levels[i].size == 0.0 {
          r := r - {levels[i].price};
        } else {
          r := r[levels[i].price := levels[i].size];
        }
      }
      assert levels[..|levels|] == levels;
    }

    /** One order-book message; one for a symbol without a book is ignored. */
    method HandleMessage(m: Message) returns (published: Option<(Level, Level)>)
      requires Valid()
      modifies `bids, `asks
      ensures Valid()
      ensures forall s | s in bids && s != m.symbol :: bids[s] == old(bids[s]) && asks[s] == old(asks[s])
      ensures m.symbol in bids ==>
                && bids[m.symbol] == (if m.snapshot then FromSnapshot(m.bids)
                    else ApplyDelta(old(bids[m.symbol]), m.bids))
                && asks[m.symbol] == (if m.snapshot then FromSnapshot(m.asks)
                    else ApplyDelta(old(asks[m.symbol]), m.asks))
      ensures published.Some? <==> m.symbol in bids && bids[m.symbol] != map[] && asks[m.symbol] != map[]
      ensures published.Some? ==>
                && published.value.0.price in bids[m.symbol] &&
                    (forall p | p in bids[m.symbol] :: p <= published.value.0.price)
                && published.value.1.price in asks[m.symbol] &&
                    (forall p | p in asks[m.symbol] :: published.value.1.price <= p)
    {
      if m.symbol !in bids {
        return None;
      }
      var newBids := ApplyLevels(bids[m.symbol], m.bids, m.snapshot);
      var newAsks := ApplyLevels(asks[m.symbol], m.asks, m.snapshot);
      bids := bids[m.symbol := newBids];
      asks := asks[m.symbol := newAsks];
      var bestBid := BestLevel(newBids, true);
      var bestAsk := BestLevel(newAsks, false);
      if bestBid.None? || bestAsk.None? {
        return None;
      }
      return Some((bestBid.value, bestAsk.value));
    }

    /** Change the subscription; symbols that stay keep their books. */
    method UpdateSymbols(wanted: seq<string>) returns (changed: bool)
      requires Valid()
      modifies this
      ensures Valid()
      ensures var new' := set s | s in wanted && s != "";
              && changed == (new' != {} && new' != old(Elements(symbols)))
              && Elements(symbols) == (if changed then new' else old(Elements(symbols)))
      ensures forall s | s in bids && s in old(bids) :: bids[s] == old(bids[s]) && asks[s] == old(asks[s])
      ensures forall s | s in bids && s !in old(bids) :: bids[s] == map[] && asks[s] == map[]
    {
      var fresh' := Dedup(wanted);
      var newSet, oldSet := Elements(fresh'), Elements(symbols);
      DedupKeepsEach(wanted);
      if newSet == {} || newSet == oldSet {
        return false;
      }
      symbols := fresh';
      var added: map<string, Book> := map s | s in newSet - oldSet :: map[];
      bids := (bids + added) - (oldSet - newSet);
      asks := (asks + added) - (oldSet - newSet);
      return true;
    }

    /** Every book is the replay of what its symbol received since it was subscribed. */
    ghost predicate Replays(initial: set<string>, inputs: seq<Input>)
      reads this
    {
      Valid() && AllRebuilt(bids, initial, inputs, Bids) && AllRebuilt(asks, initial, inputs, Asks)
    }

    method Receive(m: Message, ghost initial: set<string>, ghost done: seq<Input>)
      requires Replays(initial, done)
      modifies `bids, `asks
      ensures Replays(initial, done + [Received(m)])
    {
      ghost var oldBids, oldAsks := bids, asks;
      var _ := HandleMessage(m);
      MessageKeepsRebuilt(oldBids, bids, m, initial, done, Bids);
      MessageKeepsRebuilt(oldAsks, asks, m, initial, done, Asks);
    }

    method Subscribe(wanted: seq<string>, ghost initial: set<string>, ghost done: seq<Input>)
      requires Replays(initial, done)
      modifies this
      ensures Replays(initial, done + [Subscribed(wanted)])
    {
      ghost var oldBids, oldAsks := bids, asks;
      DedupKeepsEach(wanted);
      var _ := UpdateSymbols(wanted);
      ChangeKeepsRebuilt(oldBids, bids, wanted, initial, done, Bids);
      ChangeKeepsRebuilt(oldAsks, asks, wanted, initial, done, Asks);
    }

    /** A whole stream of messages and subscription changes: every subscribed side ends as the
        replay of what its symbol received since its latest subscription. */
    method HandleStream(inputs: seq<Input>)
      requires Valid() && forall s | s in bids :: bids[s] == map[] && asks[s] == map[]
      modifies this
      ensures Replays(old(Elements(symbols)), inputs)
    {
      ghost var initial, done: seq<Input> := Elements(symbols), [];
      for i := 0 to |inputs|
        invariant done == inputs[..i] && Replays(initial, done)
      {
        match inputs[i] {
          case Received(m) => Receive(m, initial, done);
          case Subscribed(wanted) => Subscribe(wanted, initial, done);
        }
        done := done + [inputs[i]];
      }
      assert inputs[..|inputs|] == inputs;
    }
  }
}
