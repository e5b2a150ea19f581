/** The futures position table: one row per (symbol, side, index), and the effect on it of
    one exchange position list. */
module FuturesStore {
  import opened Options

  datatype ProtectionStatus =
    Unknown | Pending | Protected | Unprotected | Repairing | Closed | Failed

  datatype PosKey = PosKey(symbol: string, side: string, idx: int)

  datatype PosRow = PosRow(qty: real, stopLoss: Option<real>, takeProfit: Option<real>,
                           status: ProtectionStatus, updatedAt: int)

  type PosTable = map<PosKey, PosRow>

  /** One element of the exchange's position list; BadPosition is one that cannot be read and
      makes the reader raise. */
  datatype PosItem =
    | BadPosition
    | PosItem(symbol: string, side: string, idx: int, size: real, stopLoss: real, takeProfit: real)

  predicate Usable(item: PosItem) {
    item.PosItem? && item.symbol != "" && item.side != "" && item.size != 0.0
  }

  predicate Guarded(item: PosItem) {
    item.PosItem? && item.stopLoss > 0.0 && item.takeProfit > 0.0
  }

  function KeyOf(item: PosItem): PosKey
    requires item.PosItem?
  {
    PosKey(item.symbol, item.side, item.idx)
  }

  function Positive(x: real): Option<real> {
    if x > 0.0 then Some(x) else None
  }

  function RowOf(item: PosItem, now: int): PosRow
    requires item.PosItem?
  {
    PosRow(item.size, Positive(item.stopLoss), Positive(item.takeProfit),
           if Guarded(item) then Protected else Unprotected, now)
  }

  function SyncPosition(rows: PosTable, item: PosItem, now: int): PosTable {
    if Usable(item) then rows[KeyOf(item) := RowOf(item, now)] else rows
  }

  function SyncPositions(rows: PosTable, items: seq<PosItem>, now: int): PosTable {
    if items == [] then rows
    else SyncPosition(SyncPositions(rows, items[..|items| - 1], now), items[|items| - 1], now)
  }

  function NonZero(rows: PosTable): set<PosKey> {
    set k | k in rows && rows[k].qty != 0.0
  }

  function ExchangeKeys(items: seq<PosItem>): set<PosKey> {
    set i | 0 <= i < |items| && Usable(items[i]) :: KeyOf(items[i])
  }

  /** Keys grow one element at a time with the list. */
  lemma ExchangeKeysStep(items: seq<PosItem>)
    requires items != []
    ensures var n := |items| - 1;
            ExchangeKeys(items) ==
            ExchangeKeys(items[..n]) + (if Usable(items[n]) then {KeyOf(items[n])} else {})
  {
    var n := |items| - 1;
    var shorter := items[..n];
    forall k | k in ExchangeKeys(shorter) ensures k in ExchangeKeys(items) {
      var i :| 0 <= i < |shorter| && Usable(shorter[i]) && KeyOf(shorter[i]) == k;
      assert items[i] == shorter[i];
    }
    forall k | k in ExchangeKeys(items) && !(Usable(items[n]) && k == KeyOf(items[n]))
      ensures k in ExchangeKeys(shorter)
    {
      var i :| 0 <= i < |items| && Usable(items[i]) && KeyOf(items[i]) == k;
      assert shorter[i] == items[i];
    }
  }

  /** A row shows a position: its size, each level it has (an absent one is 0), and that it is
      protected exactly when it has both. */
  ghost predicate Shows(row: PosRow, item: PosItem, now: int)
    requires item.PosItem?
  {
    && row.qty == item.size && row.updatedAt == now
    && (if item.stopLoss > 0.0 then row.stopLoss == Some(item.stopLoss) else row.stopLoss.None?)
    && (if item.takeProfit > 0.0 then row.takeProfit == Some(item.takeProfit) else row.takeProfit.None?)
    && row.status == (if item.stopLoss > 0.0 && item.takeProfit > 0.0 then Protected else Unprotected)
  }

  /** Elements that are skipped: those without symbol, side or size. */
  predicate Listed(item: PosItem, k: PosKey) {
    item.PosItem? && item.size != 0.0 && k.symbol != "" && k.side != "" &&
    k.symbol == item.symbol && k.side == item.side && k.idx == item.idx
  }

  /** The last element listed for a key. */
  ghost predicate LastListed(items: seq<PosItem>, i: int, k: PosKey) {
    0 <= i < |items| && Listed(items[i], k) && forall j | i < j < |items| :: !Listed(items[j], k)
  }

  lemma {:induction false} SyncKeys(rows: PosTable, items: seq<PosItem>, now: int)
    ensures var after := SyncPositions(rows, items, now);
            && after.Keys == rows.Keys + ExchangeKeys(items)
            && (forall k | k in after && k !in ExchangeKeys(items) :: after[k] == rows[k])
  {
    if items != [] {
      SyncKeys(rows, items[..|items| - 1], now);
      ExchangeKeysStep(items);
    }
  }

  /** The element a key's row shows. */
  lemma {:induction false} RowShowsLast(rows: PosTable, items: seq<PosItem>, now: int, k: PosKey) returns (i: nat)
    requires k in ExchangeKeys(items)
    ensures var after := SyncPositions(rows, items, now);
            i < |items| && LastListed(items, i, k) && k in after && Shows(after[k], items[i], now)
  {
    var n := |items| - 1;
    ExchangeKeysStep(items);
    if Listed(items[n], k) {
      i := n;
    } else {
      i := RowShowsLast(rows, items[..n], now, k);
      assert items[i] == items[..n][i] && forall j | i < j < n :: items[j] == items[..n][j];
    }
  }

  /** A synchronised table: keys on the exchange become non-zero, all other rows are as they
      were, and every row on the exchange shows the last element listed for its key. */
  lemma SyncEffect(rows: PosTable, items: seq<PosItem>, now: int)
    ensures var after := SyncPositions(rows, items, now);
            && after.Keys == rows.Keys + ExchangeKeys(items)
            && (forall k | k in after && k !in ExchangeKeys(items) :: after[k] == rows[k])
            && (forall k | k in ExchangeKeys(items) ::
                  exists i :: 0 <= i < |items| && LastListed(items, i, k) && Shows(after[k], items[i], now))
  {
    SyncKeys(rows, items, now);
    var after := SyncPositions(rows, items, now);
    forall k | k in ExchangeKeys(items)
      ensures exists i :: 0 <= i < |items| && LastListed(items, i, k) && Shows(after[k], items[i], now)
    {
      var i := RowShowsLast(rows, items, now, k);
    }
  }

  /** The open positions after a synchronisation are the old ones and those on the exchange. */
  lemma SyncNonZero(rows: PosTable, items: seq<PosItem>, now: int)
    ensures NonZero(SyncPositions(rows, items, now)) == NonZero(rows) + ExchangeKeys(items)
  {
    SyncEffect(rows, items, now);
    var after := SyncPositions(rows, items, now);
    forall k ensures k in NonZero(after) <==> k in NonZero(rows) + ExchangeKeys(items) {
      if k in ExchangeKeys(items) {
        var i :| 0 <= i < |items| && LastListed(items, i, k) && Shows(after[k], items[i], now);
      }
    }
  }
}
