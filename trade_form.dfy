/**
 * The trade entry form. A sell of more shares than the symbol's current
 * quantity is refused and nothing is sent; any other entry is sent to the
 * store as a new Trades row, which the next snapshot holds at the end of the
 * Trades table.
 */
module TradeForm {
  import opened Ledger
  import opened Metrics

  /**
   * What the form submits: date, type, symbol, quantity (parsed on submit)
   * and unit price. The type arrives already classified, as `KindOf` reads
   * the type column.
   */
  datatype TradeEntry = TradeEntry(date: string, kind: TradeKind, symbol: string,
                                   qty: Option<real>, price: Option<real>)

  /**
   * The sell guard: a sell whose quantity is larger than the symbol's
   * current quantity, that is, one that would take the total sold past the
   * total bought plus the bonus shares. A quantity that did not parse
   * compares as larger than nothing, so it is never refused.
   */
  predicate SellExceedsHolding(snap: Snapshot, e: TradeEntry): (refused: bool)
    ensures refused ==> e.kind == Sell && e.qty.Some?
    ensures refused <==> e.kind == Sell && e.qty.Some? &&
                         e.qty.value + TradesOf(snap, e.symbol).sQty > TradesOf(snap, e.symbol).bQty + BonusOf(snap, e.symbol)
  {
    e.kind == Sell && e.qty.Some? && e.qty.value > MetricsOf(snap, e.symbol).currentQty
  }

  /** The Trades row an entry is sent as (the unused column left empty). */
  function RowOf(e: TradeEntry): TradeRow
  {
    TradeRow(e.date, e.kind, e.symbol, e.qty, e.price)
  }

  /**
   * The form's submit handler: `None` is a refused sell, for which nothing
   * is sent; `Some(row)` is the row sent to the store.
   */
  method SubmitTrade(snap: Snapshot, e: TradeEntry) returns (sent: Option<TradeRow>)
    ensures sent.None? <==> SellExceedsHolding(snap, e)
    ensures sent.Some? ==> sent.value == RowOf(e) && sent.value.symbol == e.symbol
  {
    if e.kind == Sell {
      var metrics := GetStockMetrics(snap, e.symbol);
      if e.qty.Some? && e.qty.value > metrics.currentQty {
        return None;
      }
    }
    sent := Some(RowOf(e));
  }

  /** The snapshot after the store has appended `row` to the Trades table and the dashboard has fetched again. */
  function Recorded(snap: Snapshot, row: TradeRow): Snapshot
  {
    snap.(trades := snap.trades + [row])
  }

  /** The snapshot after one submission: unchanged when the sell is refused. */
  function AfterSubmit(snap: Snapshot, e: TradeEntry): Snapshot
  {
    if SellExceedsHolding(snap, e) then snap else Recorded(snap, RowOf(e))
  }

  /**
   * A recorded sell lowers its symbol's current quantity by the quantity
   * sold (by nothing when the quantity did not parse) and leaves the costs of
   * buying where they were.
   */
  lemma RecordedSellLowersHolding(snap: Snapshot, e: TradeEntry)
    requires e.kind == Sell && |snap.trades| > 0
    ensures var m, m' := MetricsOf(snap, e.symbol), MetricsOf(Recorded(snap, RowOf(e)), e.symbol);
            m'.currentQty == m.currentQty - NumOrZero(e.qty) && m'.totalBuyCost == m.totalBuyCost
  {
    AppendTradeRow(snap, RowOf(e), e.symbol);
  }

  /**
   * The guard keeps holdings from going negative: starting from a
   * non-negative current quantity, a submitted sell (refused or recorded)
   * leaves it non-negative, and so does any other entry whose quantity is
   * not negative.
   */
  lemma SubmitKeepsHoldingNonNegative(snap: Snapshot, e: TradeEntry)
    requires MetricsOf(snap, e.symbol).currentQty >= 0.0
    requires e.kind != Sell && e.qty.Some? ==> e.qty.value >= 0.0
    ensures MetricsOf(AfterSubmit(snap, e), e.symbol).currentQty >= 0.0
  {
    if !SellExceedsHolding(snap, e) {
      AppendTradeRow(snap, RowOf(e), e.symbol);
    }
  }

  /** Recording a trade of one symbol changes no metric of any other symbol. */
  lemma RecordedTradeLeavesOtherStocks(snap: Snapshot, row: TradeRow, symbol: string)
    requires row.symbol != symbol
    ensures MetricsOf(Recorded(snap, row), symbol) == MetricsOf(snap, symbol)
  {
    AppendTradeRow(snap, row, symbol);
  }
}
