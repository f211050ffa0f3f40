/**
 * Display names: a symbol is shown as the name of the first row of the
 * Stocks table that carries it, or as the symbol itself when no row does.
 * The search covers the whole table, header row included.
 */
module Names {
  import opened Ledger

  /** The index of the first row of `stocks` whose symbol is `symbol`, if any. */
  function FindStock(stocks: seq<StockRow>, symbol: string): (r: Option<nat>)
    ensures r.Some? ==> r.value < |stocks| && stocks[r.value].symbol == symbol
    ensures r.Some? ==> forall j :: 0 <= j < r.value ==> stocks[j].symbol != symbol
    ensures r.None? ==> forall j :: 0 <= j < |stocks| ==> stocks[j].symbol != symbol
  {
    if stocks == [] then None
    else if stocks[0].symbol == symbol then Some(0)
    else
      match FindStock(stocks[1..], symbol)
      case None => None
      case Some(i) => Some(i + 1)
  }

  /** The name shown for `symbol`. */
  function GetStockName(stocks: seq<StockRow>, symbol: string): (name: string)
    ensures (forall j :: 0 <= j < |stocks| ==> stocks[j].symbol != symbol) ==> name == symbol
    ensures forall i ::
              (0 <= i < |stocks| && stocks[i].symbol == symbol &&
               forall j :: 0 <= j < i ==> stocks[j].symbol != symbol) ==> name == stocks[i].name
  {
    match FindStock(stocks, symbol)
    case Some(i) => stocks[i].name
    case None => symbol
  }

  /** Rows after the first match do not change the name shown. */
  lemma NameIgnoresLaterRows(stocks: seq<StockRow>, more: seq<StockRow>, symbol: string)
    requires exists i :: 0 <= i < |stocks| && stocks[i].symbol == symbol
    ensures GetStockName(stocks + more, symbol) == GetStockName(stocks, symbol)
  {
    var i :| 0 <= i < |stocks| && stocks[i].symbol == symbol;
    var k := FindStock(stocks, symbol);
    assert k.Some?;
    assert forall j :: 0 <= j < |stocks| ==> (stocks + more)[j] == stocks[j];
  }
}
