/**
 * The ledger snapshot: the four spreadsheet tables (Stocks, Trades, Dividends,
 * Bonus) as the dashboard receives them, one value refreshed as a whole.
 *
 * Every table keeps the spreadsheet's layout: its first row is the header and
 * only the rows after it are data. Each cell the dashboard reads as a number
 * is kept as the outcome of parsing it: `Some(v)` when it parsed, `None` when
 * it did not.
 */
module Ledger {

  datatype Option<+T> = None | Some(value: T)

  /** The brokerage fee rate: added to what a buy costs, deducted from what a sell yields. */
  const FEE_RATE: real := 0.001725124

  /** The type-column label of a buy (the Arabic word for "buy"). */
  const BUY_LABEL: string := "\U{0634}\U{0631}\U{0627}\U{0621}"

  /** The type-column label of a sell (the Arabic word for "sell"). */
  const SELL_LABEL: string := "\U{0628}\U{064A}\U{0639}"

  /** What a trade row's type column says; anything but the two labels is `Other`. */
  datatype TradeKind = Buy | Sell | Other

  /** Reads a type column: labels are compared exactly, character by character. */
  function KindOf(cell: string): (k: TradeKind)
    ensures k == Buy <==> cell == BUY_LABEL
    ensures k == Sell <==> cell == SELL_LABEL
    ensures k == Other <==> cell != BUY_LABEL && cell != SELL_LABEL
  {
    if cell == BUY_LABEL then Buy
    else if cell == SELL_LABEL then Sell
    else Other
  }

  /** A parsed numeric cell, with a cell that failed to parse read as zero. */
  function NumOrZero(cell: Option<real>): (v: real)
    ensures cell.None? ==> v == 0.0
    ensures cell.Some? ==> v == cell.value
  {
    match cell
    case Some(x) => x
    case None => 0.0
  }

  /** Stocks table row: symbol, display name, sector. */
  datatype StockRow = StockRow(symbol: string, name: string, sector: string)

  /**
   * Trades table row: date, type, symbol, (an unused column), quantity, unit
   * price. The type column is held already classified: `kind` is `KindOf` of
   * the cell.
   */
  datatype TradeRow = TradeRow(date: string, kind: TradeKind, symbol: string,
                               qty: Option<real>, price: Option<real>)

  /** Dividends table row: date, symbol, (an unused column), amount. */
  datatype DividendRow = DividendRow(date: string, symbol: string, amount: Option<real>)

  /** Bonus table row: date, symbol, (an unused column), quantity of bonus shares. */
  datatype BonusRow = BonusRow(date: string, symbol: string, qty: Option<real>)

  /** One complete snapshot of the four tables, each with its header row first. */
  datatype Snapshot = Snapshot(stocks: seq<StockRow>, trades: seq<TradeRow>,
                               dividends: seq<DividendRow>, bonus: seq<BonusRow>)

  /** The data rows of a table: everything after the header row (none for an empty table). */
  function DataRows<T>(table: seq<T>): (rows: seq<T>)
    ensures |rows| == if |table| == 0 then 0 else |table| - 1
    ensures forall i :: 0 <= i < |rows| ==> rows[i] == table[i + 1]
  {
    if |table| == 0 then [] else table[1..]
  }

  /** Appending a row to a table that has its header appends it to the data rows. */
  lemma DataRowsAppend<T>(table: seq<T>, row: T)
    requires |table| > 0
    ensures DataRows(table + [row]) == DataRows(table) + [row]
  {
    assert (table + [row])[1..] == table[1..] + [row];
  }
}
