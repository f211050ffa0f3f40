# Portfolio ledger engine — a Dafny model

This project models the computational core of a small single-page portfolio
dashboard. It reads four spreadsheet tables:

- Stocks
- Trades
- Dividends
- Bonus (bonus-share issues)

In each table the first row is a header. From these tables the dashboard
derives per-stock figures and portfolio totals.

- **Per-stock metrics** (`getStockMetrics`). The dashboard sums these over the data rows of one symbol:
  - bought quantity;
  - bought cost, with the fixed fee rate 0.001725124 added;
  - sold quantity;
  - sold value, with the fee deducted;
  - dividends;
  - bonus shares.

  From those sums it derives:
  - the current quantity;
  - the net cost;
  - the dividend yield;
  - the realized profit, using the average-cost method.
- **Portfolio totals** (the loop in `renderDashboard`). Share count, net cost, dividends, realized profit and buy cost are summed over every stock row after the header. The portfolio yield is total dividends over total cost. It is not an average of the per-stock yields.
- **The sell guard** of the trade form. A sell of more shares than the current quantity is refused, and nothing is sent to the store.
- **Name lookup** (`getStockName`). This returns the name of the first Stocks row with the symbol. When no row has it, the symbol itself is returned.

Modules:

- `Ledger` holds the data model. Rows are records. A numeric cell is an
  `Option<real>`: `None` is a cell that does not parse and is read as 0.
  The trade type is `Buy | Sell | Other`, held in each row already
  classified by `KindOf`. The whole `Snapshot` is passed as
  an immutable value; the source keeps it in a global variable.
- `Metrics` holds `GetStockMetrics`, a method with one accumulation loop per
  table. Each loop invariant ties the accumulators to recursive sums over the
  rows seen so far. The method is proved equal to the specification
  `MetricsOf`, and the lemmas state what that specification promises.
- `Dashboard` holds `DashboardTotals`, the totals loop. It is proved equal
  to a sum over the per-stock metrics, and lemmas prove the sum's properties.
- `TradeForm` holds the submit handler with its sell guard, plus the
  snapshot after the store has appended the new row.
- `Names` holds `GetStockName`.

Arithmetic is exact `real` arithmetic.

The average-cost formula divides by the bought quantity and has no guard. In
the model the realized profit is therefore an `Option<real>`. It is `None`
exactly when something was sold and the bought quantity is zero; there the
source computes a non-finite number. A portfolio total that includes such a
stock is `None` as well.

Three details of the code are modelled as written:

- The name lookup searches the whole Stocks table, header row included,
  while every other computation skips row 0.
- A trade whose type is neither the buy label nor the sell label contributes
  nothing to any accumulator.
- A form quantity that does not parse passes the sell guard. It is recorded
  and later counts as 0.

The average cost is bought cost over bought quantity, and bonus shares are
not part of it. As a result, the identity "realized profit = − net cost once
the position is closed" (`ClosedPositionRealizesNetCost`) holds only for a
stock without bonus shares.

## Model

| member | source | states |
|---|---|---|
| `Ledger.KindOf` | script.js:59-60 | a type cell is a buy exactly when it equals the buy label, a sell exactly when it equals the sell label, otherwise neither; rows hold their type already classified this way |
| `Ledger.NumOrZero` | script.js:57 | a numeric cell that failed to parse counts as 0, one that parsed counts as its value |
| `Ledger.DataRows` | script.js:55 | the data rows of a table are its rows after the header, in order; an empty table has none |
| `Metrics.GetStockMetrics` | script.js:52-71 | the three accumulation loops and the derivation compute exactly `MetricsOf`, the metrics defined by sums over the data rows |
| `Metrics.TradesFor` | script.js:56 | the trade rows of a symbol are exactly the rows carrying it, each as many times as it occurs in the table; none when no row carries it |
| `Metrics.DividendsFor` | script.js:64 | the dividend rows of a symbol are exactly the rows carrying it, each as many times as it occurs; none when no row carries it |
| `Metrics.BonusFor` | script.js:65 | the bonus rows of a symbol are exactly the rows carrying it, each as many times as it occurs; none when no row carries it |
| `Metrics.TradeTotalsOnlyMatching` | script.js:55-62 | the trade sums of a symbol equal the sums over its own rows alone |
| `Metrics.DividendTotalOnlyMatching` | script.js:64 | the dividend total of a symbol equals the total over its own rows alone |
| `Metrics.BonusTotalOnlyMatching` | script.js:65 | the bonus total of a symbol equals the total over its own rows alone |
| `Metrics.MetricsDependOnlyOnOwnRows` | script.js:55-65 | dropping every data row of every other symbol changes no metric of this one: rows of other symbols never contribute |
| `Metrics.HeaderRowsIgnored` | script.js:55-65 | replacing row 0 of every table by anything changes no metric |
| `Metrics.InactiveStockHasZeroMetrics` | script.js:52-70 | a symbol with no data rows has zero quantity, net cost, dividends, yield, cost and a realized profit of 0 |
| `Metrics.AppendTradeRow` | script.js:55-62 | a buy adds q to bought quantity and q·p·(1+fee) to bought cost; a sell adds q to sold quantity and q·p·(1−fee) to sold value; other types, other symbols, unparsed quantities and a row landing in the header position change nothing |
| `Metrics.TradeDelta` | script.js:56-60 | one matching buy contributes q and q·p·(1+fee), one matching sell q and q·p·(1−fee); any other row, or one whose quantity did not parse, contributes nothing |
| `Metrics.AppendBonusRow` | script.js:65-70 | a bonus row raises the current quantity by its quantity and leaves every other metric, including bought and net cost, unchanged; a row of another symbol, or one landing in the header position, changes nothing |
| `Metrics.AppendDividendRow` | script.js:64-70 | a dividend row adds its amount to the dividends and leaves position, costs and realized profit unchanged; a row of another symbol, or one landing in the header position, changes nothing |
| `Metrics.Derive` | script.js:67-70 | position + sold = bought + bonus; net cost + sold value = bought cost; yield × cost = 100 × dividends with positive cost, else 0; profit undefined iff something was sold with zero bought quantity, 0 when nothing was sold, otherwise (sold value − profit) × bought quantity = sold quantity × bought cost |
| `Metrics.PositionAndNetCost` | script.js:67-70 | current quantity + sold = bought + bonus; net cost + sold value = bought cost = the reported buy cost |
| `Metrics.YieldIsDividendsOverCost` | script.js:70 | with positive bought cost, yield × cost = 100 × dividends; otherwise the yield is 0 |
| `Metrics.RealizedProfitAtAverageCost` | script.js:68 | realized profit is undefined iff something was sold with zero bought quantity; 0 when nothing was sold; otherwise (sold value − profit) × bought quantity = sold quantity × bought cost |
| `Metrics.ClosedPositionRealizesNetCost` | script.js:67-70 | selling all bought shares of a stock without bonus shares closes the position and realizes exactly the negated net cost |
| `Metrics.BuyThenSellSums` | script.js:57-60 | buy 100 at 10 then sell 50 at 20: bought cost 1001.725124, sold value 998.274876 |
| `Metrics.BuyThenSellExample` | script.js:67-70 | the same trades: current quantity 50, net cost 3.450248, realized profit 497.412314 |
| `Dashboard.AddPL` | script.js:81 | a sum of profits is defined iff both terms are, and is then their sum |
| `Dashboard.PerStock` | script.js:78-79 | one metrics record per stock row after the header, each that row's symbol's metrics |
| `Dashboard.AvgYield` | script.js:96 | with positive total cost, portfolio yield × total cost = 100 × total dividends; otherwise 0 |
| `Dashboard.DashboardTotals` | script.js:76-96 | the totals loop computes exactly the sum of the per-stock metrics of every stock row after the header, and the portfolio yield of those totals |
| `Dashboard.SumMetricsAppend` | script.js:76-84 | totals are additive: the totals of two lists of stocks in sequence are the two totals combined |
| `Dashboard.AppendStockRow` | script.js:78-84 | a new stock row adds its symbol's metrics to the totals and nothing else (a duplicated symbol counts twice) |
| `Dashboard.SumMetricsPermutation` | script.js:78-84 | any two lists holding the same per-stock metrics, each as many times, have the same totals |
| `Dashboard.StockRowsPermutation` | script.js:78-79 | listing the same stock rows in another order lists the same metrics in another order |
| `Dashboard.StockOrderIrrelevant` | script.js:76-84 | two Stocks tables whose data rows are the same rows, each as many times, in any order, give the same totals |
| `Dashboard.TotalPLDefinedIffEveryStock` | script.js:81 | the total realized profit is defined iff every stock's is |
| `Dashboard.MetricsYieldConsistent` | script.js:70 | every computed metric's yield is its dividends over its bought cost (0 without positive cost) |
| `Dashboard.PortfolioYieldIsCostWeighted` | script.js:96 | 100 × total dividends is the cost-weighted sum of the per-stock yields, so the portfolio yield is their cost-weighted mean, when every stock with dividends has positive cost |
| `Dashboard.WeightedYieldExample` | script.js:96 | stocks with cost 1000/dividends 50 and cost 3000/no dividends give a portfolio yield of 1.25, not the 2.5 average of 5 and 0 |
| `TradeForm.SellExceedsHolding` | script.js:153-155 | a trade is refused exactly when it is a sell with a parsed quantity that would take the total sold past the total bought plus the bonus shares |
| `TradeForm.SubmitTrade` | script.js:145-160 | nothing is sent iff the entry is a sell whose parsed quantity exceeds the symbol's current quantity; otherwise the entry's row is sent |
| `TradeForm.RecordedSellLowersHolding` | script.js:153-160 | a recorded sell lowers the current quantity by the quantity sold and leaves the bought cost unchanged |
| `TradeForm.SubmitKeepsHoldingNonNegative` | script.js:153-160 | from a non-negative current quantity, a submitted sell (refused or recorded) keeps it non-negative, and so does any entry with a non-negative quantity |
| `TradeForm.RecordedTradeLeavesOtherStocks` | script.js:160 | recording a trade of one symbol changes no metric of another symbol |
| `Names.FindStock` | script.js:6 | finds the first row, header included, whose symbol matches; none when no row matches |
| `Names.GetStockName` | script.js:5-8 | the name is that of the first matching row, or the symbol itself when no row matches |
| `Names.NameIgnoresLaterRows` | script.js:6 | once a row matches, rows added after it do not change the name |

## Left out

- Network I/O is not modelled: fetching the snapshot, sending rows and the delayed refetch (script.js:1, 25-41, 131-137). A sent row reaches the model only as `TradeForm.Recorded`, the next snapshot with the row appended.
- DOM rendering, navigation and the loading overlay are not modelled, and neither are the HTML-building parts of the dashboard or the form resets (script.js:17-23, 43-50, 74-75, 86-129, 182-183).
- The stock, dividend and bonus form handlers are not modelled (script.js:139-143, 164-180). They have no guard: each only sends one row, and the effect of such a row is stated by `Metrics.AppendDividendRow`, `Metrics.AppendBonusRow` and `Dashboard.AppendStockRow`.
- `setDefaultDates` is not modelled because it reads the wall clock.
- Number formatting for display is not modelled.
- IEEE-754 rounding is not modelled: all arithmetic is exact `real`.
- Infinite values that `parseFloat` can return are not modelled.
- The distinction between NaN, +Infinity and −Infinity in the realized profit is collapsed into `None`.
- `parseFloat`'s string rules are abstracted: each numeric cell is already parsed to `Option<real>`.
- Cells are compared after conversion to strings. The model keeps every symbol as that string.
- The unused column of trade, dividend and bonus rows is not represented.
- The global variable holding the snapshot, and its wholesale replacement on fetch, are not modelled: the snapshot is an explicit value.
- Re-running a computation on the same snapshot gives the same result because every specification is a function. No separate lemma states this.
