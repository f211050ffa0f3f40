/**
 * Per-stock metrics: position, cost, dividends, yield and average-cost
 * realized profit or loss of one symbol, computed from a ledger snapshot.
 *
 * `GetStockMetrics` is the imperative computation (three accumulation loops
 * over the data rows, then the derivation); `MetricsOf` is its specification,
 * built from sums over the data rows, and the lemmas below state what those
 * sums and the derivation promise.
 */
module Metrics {
  import opened Ledger

  /** The four trade accumulators of one symbol: bought quantity and cost, sold quantity and value. */
  datatype TradeSums = TradeSums(bQty: real, bCost: real, sQty: real, sValue: real)
  {
    function Plus(other: TradeSums): TradeSums {
      TradeSums(bQty + other.bQty, bCost + other.bCost, sQty + other.sQty, sValue + other.sValue)
    }
  }

  const NoTrades: TradeSums := TradeSums(0.0, 0.0, 0.0, 0.0)

  /**
   * The figures the dashboard shows for one stock. `pl` is `None` when the
   * average cost is undefined: something was sold while the bought quantity
   * is zero (the division by zero of the average-cost formula).
   */
  datatype StockMetrics = StockMetrics(currentQty: real, netCost: real, divAmt: real,
                                       yieldPct: real, pl: Option<real>, totalBuyCost: real)

  // ----- what each data row adds --------------------------------------------

  /**
   * What one trade row adds to the accumulators of `symbol`: a buy its
   * quantity and its quantity times price with the fee added, a sell its
   * quantity and its quantity times price with the fee deducted, and any
   * other row, or one whose quantity did not parse, nothing.
   */
  function TradeDelta(t: TradeRow, symbol: string): (d: TradeSums)
    ensures var q, p := NumOrZero(t.qty), NumOrZero(t.price);
            && (t.symbol == symbol && t.kind == Buy ==> d == TradeSums(q, q * p * (1.0 + FEE_RATE), 0.0, 0.0))
            && (t.symbol == symbol && t.kind == Sell ==> d == TradeSums(0.0, 0.0, q, q * p * (1.0 - FEE_RATE)))
            && (t.symbol != symbol || t.kind == Other || t.qty.None? ==> d == NoTrades)
  {
    if t.symbol != symbol then NoTrades
    else
      var q, p := NumOrZero(t.qty), NumOrZero(t.price);
      var rawTotal := q * p;
      assert rawTotal + rawTotal * FEE_RATE == q * p * (1.0 + FEE_RATE);
      assert rawTotal - rawTotal * FEE_RATE == q * p * (1.0 - FEE_RATE);
      match t.kind
      case Buy => TradeSums(q, rawTotal + rawTotal * FEE_RATE, 0.0, 0.0)
      case Sell => TradeSums(0.0, 0.0, q, rawTotal - rawTotal * FEE_RATE)
      case Other => NoTrades
  }

  function DividendDelta(d: DividendRow, symbol: string): real
  {
    if d.symbol == symbol then NumOrZero(d.amount) else 0.0
  }

  function BonusDelta(b: BonusRow, symbol: string): real
  {
    if b.symbol == symbol then NumOrZero(b.qty) else 0.0
  }

  // ----- sums over a run of data rows, in row order -------------------------

  function TradeTotals(rows: seq<TradeRow>, symbol: string): TradeSums
  {
    if rows == [] then NoTrades
    else TradeTotals(rows[..|rows| - 1], symbol).Plus(TradeDelta(rows[|rows| - 1], symbol))
  }

  function DividendTotal(rows: seq<DividendRow>, symbol: string): real
  {
    if rows == [] then 0.0
    else DividendTotal(rows[..|rows| - 1], symbol) + DividendDelta(rows[|rows| - 1], symbol)
  }

  function BonusTotal(rows: seq<BonusRow>, symbol: string): real
  {
    if rows == [] then 0.0
    else BonusTotal(rows[..|rows| - 1], symbol) + BonusDelta(rows[|rows| - 1], symbol)
  }

  // ----- the specification of getStockMetrics -------------------------------

  /** The trade accumulators of `symbol` over the snapshot's trade data rows. */
  function TradesOf(snap: Snapshot, symbol: string): TradeSums
  {
    TradeTotals(DataRows(snap.trades), symbol)
  }

  function DividendsOf(snap: Snapshot, symbol: string): real
  {
    DividendTotal(DataRows(snap.dividends), symbol)
  }

  function BonusOf(snap: Snapshot, symbol: string): real
  {
    BonusTotal(DataRows(snap.bonus), symbol)
  }

  /**
   * The derived figures, from the six accumulators: the position is what
   * was bought plus the bonus shares less what was sold; the net cost is the
   * bought cost less the sold value; the yield is the dividends as a
   * percentage of a positive bought cost (zero without one); the realized
   * profit is zero when nothing was sold, undefined when something was sold
   * and nothing bought, and otherwise the sold value less the sold quantity
   * valued at the average bought cost per share.
   */
  function Derive(ts: TradeSums, divAmt: real, bonusQty: real): (m: StockMetrics)
    ensures m.currentQty + ts.sQty == ts.bQty + bonusQty
    ensures m.netCost + ts.sValue == m.totalBuyCost == ts.bCost && m.divAmt == divAmt
    ensures ts.bCost > 0.0 ==> m.yieldPct * ts.bCost == 100.0 * divAmt
    ensures ts.bCost <= 0.0 ==> m.yieldPct == 0.0
    ensures m.pl.None? <==> ts.sQty > 0.0 && ts.bQty == 0.0
    ensures ts.sQty <= 0.0 ==> m.pl == Some(0.0)
    ensures ts.sQty > 0.0 && m.pl.Some? ==> (ts.sValue - m.pl.value) * ts.bQty == ts.sQty * ts.bCost
  {
    assert ts.bQty != 0.0 ==> ts.sQty * (ts.bCost / ts.bQty) * ts.bQty == ts.sQty * ts.bCost;
    var currentQty := (ts.bQty + bonusQty) - ts.sQty;
    var pl :=
      if ts.sQty > 0.0 then
        (if ts.bQty == 0.0 then None else Some(ts.sValue - ts.sQty * (ts.bCost / ts.bQty)))
      else Some(0.0);
    var yieldPct := if ts.bCost > 0.0 then divAmt * 100.0 / ts.bCost else 0.0;
    StockMetrics(currentQty, ts.bCost - ts.sValue, divAmt, yieldPct, pl, ts.bCost)
  }

  /** The metrics of `symbol` in `snap`. */
  function MetricsOf(snap: Snapshot, symbol: string): StockMetrics
  {
    Derive(TradesOf(snap, symbol), DividendsOf(snap, symbol), BonusOf(snap, symbol))
  }

  /**
   * The dashboard's computation of one stock's metrics: one pass over the
   * data rows of each of the three transaction tables, keeping the rows of
   * `symbol`, then the derivation of the figures from the six accumulators.
   */
  method GetStockMetrics(snap: Snapshot, symbol: string) returns (m: StockMetrics)
    ensures m == MetricsOf(snap, symbol)
  {
    var bQty, bCost, sQty, sValue, divAmt, bonusQty := 0.0, 0.0, 0.0, 0.0, 0.0, 0.0;

    var trades := DataRows(snap.trades);
    for i := 0 to |trades|
      invariant TradeSums(bQty, bCost, sQty, sValue) == TradeTotals(trades[..i], symbol)
    {
      var t := trades[i];
      if t.symbol == symbol {
        var q, p := NumOrZero(t.qty), NumOrZero(t.price);
        var rawTotal := q * p;
        if t.kind == Buy {
          bQty := bQty + q;
          bCost := bCost + (rawTotal + rawTotal * FEE_RATE);
        } else if t.kind == Sell {
          sQty := sQty + q;
          sValue := sValue + (rawTotal - rawTotal * FEE_RATE);
        }
      }
      assert trades[..i + 1][..i] == trades[..i];
    }
    assert trades[..|trades|] == trades;

    var dividends := DataRows(snap.dividends);
    for i := 0 to |dividends|
      invariant divAmt == DividendTotal(dividends[..i], symbol)
    {
      if dividends[i].symbol == symbol {
        divAmt := divAmt + NumOrZero(dividends[i].amount);
      }
      assert dividends[..i + 1][..i] == dividends[..i];
    }
    assert dividends[..|dividends|] == dividends;

    var bonus := DataRows(snap.bonus);
    for i := 0 to |bonus|
      invariant bonusQty == BonusTotal(bonus[..i], symbol)
    {
      if bonus[i].symbol == symbol {
        bonusQty := bonusQty + NumOrZero(bonus[i].qty);
      }
      assert bonus[..i + 1][..i] == bonus[..i];
    }
    assert bonus[..|bonus|] == bonus;

    m := Derive(TradeSums(bQty, bCost, sQty, sValue), divAmt, bonusQty);
  }

  // ----- rows of other symbols ----------------------------------------------

  /** The trade rows of `symbol`, in order, each as many times as it occurs. */
  function TradesFor(rows: seq<TradeRow>, symbol: string): (r: seq<TradeRow>)
    ensures forall t :: t in r <==> t in rows && t.symbol == symbol
    ensures forall t :: multiset(r)[t] == if t.symbol == symbol then multiset(rows)[t] else 0
    ensures (forall i :: 0 <= i < |rows| ==> rows[i].symbol != symbol) ==> r == []
  {
    if rows == [] then []
    else
      var init, last := rows[..|rows| - 1], rows[|rows| - 1];
      assert rows == init + [last];
      if last.symbol == symbol then TradesFor(init, symbol) + [last] else TradesFor(init, symbol)
  }

  /** The dividend rows of `symbol`, in order, each as many times as it occurs. */
  function DividendsFor(rows: seq<DividendRow>, symbol: string): (r: seq<DividendRow>)
    ensures forall d :: d in r <==> d in rows && d.symbol == symbol
    ensures forall d :: multiset(r)[d] == if d.symbol == symbol then multiset(rows)[d] else 0
    ensures (forall i :: 0 <= i < |rows| ==> rows[i].symbol != symbol) ==> r == []
  {
    if rows == [] then []
    else
      var init, last := rows[..|rows| - 1], rows[|rows| - 1];
      assert rows == init + [last];
      if last.symbol == symbol then DividendsFor(init, symbol) + [last] else DividendsFor(init, symbol)
  }

  /** The bonus rows of `symbol`, in order, each as many times as it occurs. */
  function BonusFor(rows: seq<BonusRow>, symbol: string): (r: seq<BonusRow>)
    ensures forall b :: b in r <==> b in rows && b.symbol == symbol
    ensures forall b :: multiset(r)[b] == if b.symbol == symbol then multiset(rows)[b] else 0
    ensures (forall i :: 0 <= i < |rows| ==> rows[i].symbol != symbol) ==> r == []
  {
    if rows == [] then []
    else
      var init, last := rows[..|rows| - 1], rows[|rows| - 1];
      assert rows == init + [last];
      if last.symbol == symbol then BonusFor(init, symbol) + [last] else BonusFor(init, symbol)
  }

  lemma {:induction false} TradeTotalsOnlyMatching(rows: seq<TradeRow>, symbol: string)
    ensures TradeTotals(rows, symbol) == TradeTotals(TradesFor(rows, symbol), symbol)
  {
    if rows != [] {
      var init, last := rows[..|rows| - 1], rows[|rows| - 1];
      TradeTotalsOnlyMatching(init, symbol);
      if last.symbol == symbol {
        var kept := TradesFor(init, symbol) + [last];
        assert kept[..|kept| - 1] == TradesFor(init, symbol);
      }
    }
  }

  lemma {:induction false} DividendTotalOnlyMatching(rows: seq<DividendRow>, symbol: string)
    ensures DividendTotal(rows, symbol) == DividendTotal(DividendsFor(rows, symbol), symbol)
  {
    if rows != [] {
      var init, last := rows[..|rows| - 1], rows[|rows| - 1];
      DividendTotalOnlyMatching(init, symbol);
      if last.symbol == symbol {
        var kept := DividendsFor(init, symbol) + [last];
        assert kept[..|kept| - 1] == DividendsFor(init, symbol);
      }
    }
  }

  lemma {:induction false} BonusTotalOnlyMatching(rows: seq<BonusRow>, symbol: string)
    ensures BonusTotal(rows, symbol) == BonusTotal(BonusFor(rows, symbol), symbol)
  {
    if rows != [] {
      var init, last := rows[..|rows| - 1], rows[|rows| - 1];
      BonusTotalOnlyMatching(init, symbol);
      if last.symbol == symbol {
        var kept := BonusFor(init, symbol) + [last];
        assert kept[..|kept| - 1] == BonusFor(init, symbol);
      }
    }
  }

  /** The header row of a table, if it has one. */
  function Header<T>(table: seq<T>): seq<T>
  {
    if |table| == 0 then [] else table[..1]
  }

  /**
   * The snapshot cut down to what concerns `symbol`: every header row kept,
   * every data row of another symbol dropped.
   */
  function OwnRows(snap: Snapshot, symbol: string): Snapshot
  {
    Snapshot(snap.stocks,
             Header(snap.trades) + TradesFor(DataRows(snap.trades), symbol),
             Header(snap.dividends) + DividendsFor(DataRows(snap.dividends), symbol),
             Header(snap.bonus) + BonusFor(DataRows(snap.bonus), symbol))
  }

  /**
   * A stock's metrics depend only on the data rows that carry its symbol:
   * dropping every row of every other symbol changes no metric.
   */
  lemma MetricsDependOnlyOnOwnRows(snap: Snapshot, symbol: string)
    ensures MetricsOf(OwnRows(snap, symbol), symbol) == MetricsOf(snap, symbol)
  {
    var own := OwnRows(snap, symbol);
    assert DataRows(own.trades) == TradesFor(DataRows(snap.trades), symbol);
    assert DataRows(own.dividends) == DividendsFor(DataRows(snap.dividends), symbol);
    assert DataRows(own.bonus) == BonusFor(DataRows(snap.bonus), symbol);
    TradeTotalsOnlyMatching(DataRows(snap.trades), symbol);
    DividendTotalOnlyMatching(DataRows(snap.dividends), symbol);
    BonusTotalOnlyMatching(DataRows(snap.bonus), symbol);
  }

  /** Row 0 of each table is a header: whatever it holds, no metric changes. */
  lemma HeaderRowsIgnored(snap: Snapshot, symbol: string, stock: StockRow, trade: TradeRow,
                          dividend: DividendRow, bonus: BonusRow)
    requires |snap.stocks| > 0 && |snap.trades| > 0 && |snap.dividends| > 0 && |snap.bonus| > 0
    ensures MetricsOf(Snapshot([stock] + snap.stocks[1..], [trade] + snap.trades[1..],
                               [dividend] + snap.dividends[1..], [bonus] + snap.bonus[1..]), symbol)
            == MetricsOf(snap, symbol)
  {
    assert ([trade] + snap.trades[1..])[1..] == snap.trades[1..];
    assert ([dividend] + snap.dividends[1..])[1..] == snap.dividends[1..];
    assert ([bonus] + snap.bonus[1..])[1..] == snap.bonus[1..];
  }

  /** A stock with no trade, dividend or bonus rows after the headers has all-zero metrics. */
  lemma InactiveStockHasZeroMetrics(snap: Snapshot, symbol: string)
    requires forall i :: 1 <= i < |snap.trades| ==> snap.trades[i].symbol != symbol
    requires forall i :: 1 <= i < |snap.dividends| ==> snap.dividends[i].symbol != symbol
    requires forall i :: 1 <= i < |snap.bonus| ==> snap.bonus[i].symbol != symbol
    ensures MetricsOf(snap, symbol) == StockMetrics(0.0, 0.0, 0.0, 0.0, Some(0.0), 0.0)
  {
    assert TradesOf(snap, symbol) == NoTrades by {
      assert TradesFor(DataRows(snap.trades), symbol) == [];
      TradeTotalsOnlyMatching(DataRows(snap.trades), symbol);
    }
    assert DividendsOf(snap, symbol) == 0.0 by {
      assert DividendsFor(DataRows(snap.dividends), symbol) == [];
      DividendTotalOnlyMatching(DataRows(snap.dividends), symbol);
    }
    assert BonusOf(snap, symbol) == 0.0 by {
      assert BonusFor(DataRows(snap.bonus), symbol) == [];
      BonusTotalOnlyMatching(DataRows(snap.bonus), symbol);
    }
  }

  // ----- what appending a row does ------------------------------------------

  /**
   * A trade row appended to the Trades table: a buy of `symbol` adds its
   * quantity to the bought quantity and quantity times price plus the fee to
   * the bought cost; a sell adds its quantity to the sold quantity and
   * quantity times price less the fee to the sold value; any other row
   * changes nothing, and so does a row whose quantity did not parse. On a
   * table without even a header the row becomes the header and counts for
   * nothing.
   */
  lemma AppendTradeRow(snap: Snapshot, t: TradeRow, symbol: string)
    ensures var before, after := TradesOf(snap, symbol), TradesOf(snap.(trades := snap.trades + [t]), symbol);
            var q, p := NumOrZero(t.qty), NumOrZero(t.price);
            && (|snap.trades| > 0 && t.symbol == symbol && t.kind == Buy ==>
                  after == before.(bQty := before.bQty + q, bCost := before.bCost + q * p * (1.0 + FEE_RATE)))
            && (|snap.trades| > 0 && t.symbol == symbol && t.kind == Sell ==>
                  after == before.(sQty := before.sQty + q, sValue := before.sValue + q * p * (1.0 - FEE_RATE)))
            && (|snap.trades| == 0 || t.symbol != symbol || t.kind == Other || t.qty.None? ==> after == before)
  {
    var snap' := snap.(trades := snap.trades + [t]);
    if |snap.trades| > 0 {
      assert TradesOf(snap', symbol) == TradesOf(snap, symbol).Plus(TradeDelta(t, symbol)) by {
        var rows := DataRows(snap.trades);
        DataRowsAppend(snap.trades, t);
        assert (rows + [t])[..|rows|] == rows;
      }
    } else {
      assert DataRows(snap'.trades) == [];
    }
  }

  /**
   * A bonus row of `symbol` raises the current quantity by its quantity and
   * changes nothing else: not the bought cost, the net cost, the yield or the
   * realized profit. On a table without even a header the row becomes the
   * header and counts for nothing.
   */
  lemma AppendBonusRow(snap: Snapshot, b: BonusRow, symbol: string)
    ensures var m, m' := MetricsOf(snap, symbol), MetricsOf(snap.(bonus := snap.bonus + [b]), symbol);
            && (|snap.bonus| > 0 && b.symbol == symbol ==> m' == m.(currentQty := m.currentQty + NumOrZero(b.qty)))
            && (|snap.bonus| == 0 || b.symbol != symbol ==> m' == m)
  {
    var snap' := snap.(bonus := snap.bonus + [b]);
    assert TradesOf(snap', symbol) == TradesOf(snap, symbol);
    assert DividendsOf(snap', symbol) == DividendsOf(snap, symbol);
    if |snap.bonus| > 0 {
      var rows := DataRows(snap.bonus);
      DataRowsAppend(snap.bonus, b);
      assert (rows + [b])[..|rows|] == rows;
      assert BonusOf(snap', symbol) == BonusOf(snap, symbol) + BonusDelta(b, symbol);
    } else {
      assert DataRows(snap'.bonus) == [];
    }
  }

  /**
   * A dividend row of `symbol` adds its amount to the dividends and leaves
   * the position, the costs and the realized profit as they were. On a
   * table without even a header the row becomes the header and counts for
   * nothing.
   */
  lemma AppendDividendRow(snap: Snapshot, d: DividendRow, symbol: string)
    ensures var m, m' := MetricsOf(snap, symbol), MetricsOf(snap.(dividends := snap.dividends + [d]), symbol);
            && (|snap.dividends| > 0 && d.symbol == symbol ==>
                  m'.divAmt == m.divAmt + NumOrZero(d.amount) &&
                  m' == m.(divAmt := m'.divAmt, yieldPct := m'.yieldPct))
            && (|snap.dividends| == 0 || d.symbol != symbol ==> m' == m)
  {
    var snap' := snap.(dividends := snap.dividends + [d]);
    assert TradesOf(snap', symbol) == TradesOf(snap, symbol);
    assert BonusOf(snap', symbol) == BonusOf(snap, symbol);
    if |snap.dividends| > 0 {
      var rows := DataRows(snap.dividends);
      DataRowsAppend(snap.dividends, d);
      assert (rows + [d])[..|rows|] == rows;
      assert DividendsOf(snap', symbol) == DividendsOf(snap, symbol) + DividendDelta(d, symbol);
    } else {
      assert DataRows(snap'.dividends) == [];
    }
  }

  // ----- the derived figures ------------------------------------------------

  /**
   * The current quantity is what was bought plus the bonus shares less what
   * was sold, and the net cost is the bought cost less the sold value.
   */
  lemma PositionAndNetCost(snap: Snapshot, symbol: string)
    ensures var ts, m := TradesOf(snap, symbol), MetricsOf(snap, symbol);
            && m.currentQty + ts.sQty == ts.bQty + BonusOf(snap, symbol)
            && m.netCost + ts.sValue == m.totalBuyCost == ts.bCost
            && m.divAmt == DividendsOf(snap, symbol)
  {
  }

  /**
   * The yield is the dividends as a percentage of the bought cost: with a
   * positive cost, yield times cost is a hundred times the dividends; with
   * no positive cost, the yield is zero.
   */
  lemma YieldIsDividendsOverCost(snap: Snapshot, symbol: string)
    ensures var m := MetricsOf(snap, symbol);
            && (m.totalBuyCost > 0.0 ==> m.yieldPct * m.totalBuyCost == 100.0 * m.divAmt)
            && (m.totalBuyCost <= 0.0 ==> m.yieldPct == 0.0)
  {
    var m := MetricsOf(snap, symbol);
    if m.totalBuyCost > 0.0 {
      assert m.yieldPct == m.divAmt * 100.0 / m.totalBuyCost;
    }
  }

  /**
   * The realized profit is undefined exactly when something was sold and
   * the bought quantity is zero; it is zero when nothing was sold; otherwise
   * it is the sold value less the sold quantity valued at the average
   * bought cost per share.
   */
  lemma RealizedProfitAtAverageCost(snap: Snapshot, symbol: string)
    ensures var ts, m := TradesOf(snap, symbol), MetricsOf(snap, symbol);
            && (m.pl.None? <==> ts.sQty > 0.0 && ts.bQty == 0.0)
            && (ts.sQty <= 0.0 ==> m.pl == Some(0.0))
            && (ts.sQty > 0.0 && ts.bQty != 0.0 ==>
                  m.pl.Some? && (ts.sValue - m.pl.value) * ts.bQty == ts.sQty * ts.bCost)
  {
    var ts := TradesOf(snap, symbol);
    if ts.sQty > 0.0 && ts.bQty != 0.0 {
      var avg := ts.bCost / ts.bQty;
      assert avg * ts.bQty == ts.bCost;
      assert ts.sQty * avg * ts.bQty == ts.sQty * ts.bCost;
    }
  }

  /**
   * Selling the whole bought quantity of a stock that had no bonus shares
   * closes the position, and the realized profit is then the sold value less
   * the bought cost: the negated net cost.
   */
  lemma ClosedPositionRealizesNetCost(snap: Snapshot, symbol: string)
    requires BonusOf(snap, symbol) == 0.0
    requires TradesOf(snap, symbol).sQty == TradesOf(snap, symbol).bQty > 0.0
    ensures var m := MetricsOf(snap, symbol);
            m.currentQty == 0.0 && m.pl == Some(-m.netCost)
  {
    var ts, m := TradesOf(snap, symbol), MetricsOf(snap, symbol);
    assert m == Derive(ts, DividendsOf(snap, symbol), 0.0);
    assert (ts.sValue - m.pl.value) * ts.bQty == ts.bCost * ts.bQty;
    assert ts.sValue - m.pl.value == ts.bCost;
  }

  /**
   * A worked example: a buy of 100 shares at 10 costs 1001.725124 with the
   * fee, and a sell of 50 at 20 yields 998.274876 after it.
   */
  lemma BuyThenSellSums(date: string, symbol: string, header: TradeRow)
    ensures TradesOf(Snapshot([], [header, TradeRow(date, Buy, symbol, Some(100.0), Some(10.0)),
                                       TradeRow(date, Sell, symbol, Some(50.0), Some(20.0))], [], []), symbol)
            == TradeSums(100.0, 1001.725124, 50.0, 998.274876)
  {
    var buy := TradeRow(date, Buy, symbol, Some(100.0), Some(10.0));
    var sell := TradeRow(date, Sell, symbol, Some(50.0), Some(20.0));
    var empty := Snapshot([], [header], [], []);
    var bought := empty.(trades := [header] + [buy]);
    var sold := bought.(trades := [header] + [buy] + [sell]);
    assert TradesOf(bought, symbol) == TradeSums(100.0, 1001.725124, 0.0, 0.0) by {
      assert TradesOf(empty, symbol) == NoTrades;
      AppendTradeRow(empty, buy, symbol);
    }
    assert TradesOf(sold, symbol) == TradeSums(100.0, 1001.725124, 50.0, 998.274876) by {
      AppendTradeRow(bought, sell, symbol);
    }
    assert sold.trades == [header, buy, sell];
  }

  /**
   * The same trades give a current quantity of 50 and, at the average cost
   * of 10.01725124 a share, a realized profit of 497.412314.
   */
  lemma BuyThenSellExample(date: string, symbol: string, header: TradeRow)
    ensures var m := MetricsOf(Snapshot([], [header, TradeRow(date, Buy, symbol, Some(100.0), Some(10.0)),
                                                 TradeRow(date, Sell, symbol, Some(50.0), Some(20.0))], [], []), symbol);
            && m.currentQty == 50.0
            && m.netCost == 3.450248
            && m.pl == Some(497.412314)
  {
    BuyThenSellSums(date, symbol, header);
  }
}
