/** Portfolio accounting over a ledger of BUY/SELL transactions: per-symbol
    holdings valued against current prices, a summary of the totals, and the
    sign conventions of the P&L formatters (utils/portfolio.ts). */
module Portfolio {
  import opened Common
  import opened RealAlgebra

  /** One ledger entry. `kind` is the transaction type; anything but "BUY" is
      treated as a sell. The owner and the timestamp play no part here. */
  datatype Transaction = Transaction(id: int, symbol: string, kind: string, amount: real, pricePerCoin: real)

  /** A symbol still held, valued at the current price. */
  datatype Holding = Holding(
    symbol: string,
    amount: real,
    averageBuyPrice: real,
    totalInvested: real,
    currentPrice: real,
    currentValue: real,
    pnl: real,
    pnlPercentage: real)

  datatype PortfolioSummary = PortfolioSummary(
    totalInvested: real,
    currentValue: real,
    totalPnl: real,
    totalPnlPercentage: real,
    holdings: seq<Holding>,
    totalTransactions: nat)

  /** The running per-symbol accumulator: net amount, gross buy cost and the
      number of buys. */
  datatype Position = Position(amount: real, totalCost: real, buyCount: nat)

  const EmptyPosition: Position := Position(0.0, 0.0, 0)

  predicate IsBuy(tx: Transaction)
  {
    tx.kind == "BUY"
  }

  /** One transaction applied to its symbol's accumulator: a buy adds its
      amount and its cost, anything else only removes its amount. */
  function Apply(p: Position, tx: Transaction): Position
  {
    if IsBuy(tx) then
      Position(p.amount + tx.amount, p.totalCost + Mul(tx.amount, tx.pricePerCoin), p.buyCount + 1)
    else
      Position(p.amount - tx.amount, p.totalCost, p.buyCount)
  }

  /** The accumulator of symbol `s` after the whole ledger, in ledger order. */
  function PositionOf(txs: seq<Transaction>, s: string): Position
  {
    if txs == [] then EmptyPosition
    else
      var p := PositionOf(txs[..|txs| - 1], s);
      var tx := txs[|txs| - 1];
      if tx.symbol == s then Apply(p, tx) else p
  }

  // ---------------------------------------------------------------------
  // Reference definitions: what each symbol's figures mean
  // ---------------------------------------------------------------------

  /** The amounts of the buys of `s`, in ledger order. */
  function BuyAmounts(txs: seq<Transaction>, s: string): seq<real>
  {
    if txs == [] then []
    else
      var tx := txs[|txs| - 1];
      BuyAmounts(txs[..|txs| - 1], s) + (if tx.symbol == s && IsBuy(tx) then [tx.amount] else [])
  }

  /** The amounts of the sells of `s` (every non-buy), in ledger order. */
  function SellAmounts(txs: seq<Transaction>, s: string): seq<real>
  {
    if txs == [] then []
    else
      var tx := txs[|txs| - 1];
      SellAmounts(txs[..|txs| - 1], s) + (if tx.symbol == s && !IsBuy(tx) then [tx.amount] else [])
  }

  /** The cost amount·price of each buy of `s`, in ledger order. */
  function BuyCosts(txs: seq<Transaction>, s: string): (r: seq<real>)
    ensures |r| == |BuyAmounts(txs, s)|
  {
    if txs == [] then []
    else
      var tx := txs[|txs| - 1];
      BuyCosts(txs[..|txs| - 1], s) + (if tx.symbol == s && IsBuy(tx) then [Mul(tx.amount, tx.pricePerCoin)] else [])
  }

  /** Σ bought − Σ sold of symbol `s`. */
  function NetAmount(txs: seq<Transaction>, s: string): real
  {
    Sum(BuyAmounts(txs, s)) - Sum(SellAmounts(txs, s))
  }

  /** Σ amount·price over the buys of `s`: the gross spend, which sells never
      reduce. */
  function BuySpend(txs: seq<Transaction>, s: string): real
  {
    Sum(BuyCosts(txs, s))
  }

  /** The fold computes the reference figures: the net amount, the gross buy
      spend and the number of buys. */
  lemma {:induction false} PositionOfIsNet(txs: seq<Transaction>, s: string)
    ensures PositionOf(txs, s).amount == NetAmount(txs, s)
    ensures PositionOf(txs, s).totalCost == BuySpend(txs, s)
    ensures PositionOf(txs, s).buyCount == |BuyAmounts(txs, s)|
  {
    if txs != [] {
      var init := txs[..|txs| - 1];
      var tx := txs[|txs| - 1];
      PositionOfIsNet(init, s);
      if tx.symbol == s && IsBuy(tx) {
        SumSnoc(BuyAmounts(init, s), tx.amount);
        SumSnoc(BuyCosts(init, s), Mul(tx.amount, tx.pricePerCoin));
        assert SellAmounts(txs, s) == SellAmounts(init, s) + [];
        assert SellAmounts(init, s) + [] == SellAmounts(init, s);
      } else if tx.symbol == s {
        SumSnoc(SellAmounts(init, s), tx.amount);
        assert BuyAmounts(txs, s) == BuyAmounts(init, s) + [];
        assert BuyAmounts(init, s) + [] == BuyAmounts(init, s);
        assert BuyCosts(txs, s) == BuyCosts(init, s) + [];
        assert BuyCosts(init, s) + [] == BuyCosts(init, s);
      } else {
        assert SellAmounts(init, s) + [] == SellAmounts(init, s);
        assert BuyAmounts(init, s) + [] == BuyAmounts(init, s);
        assert BuyCosts(init, s) + [] == BuyCosts(init, s);
      }
    }
  }

  /** A symbol without buys has spent nothing. */
  lemma NoBuysNoSpend(txs: seq<Transaction>, s: string)
    requires |BuyAmounts(txs, s)| == 0
    ensures BuySpend(txs, s) == 0.0
  {
    assert BuyCosts(txs, s) == [];
  }

  // ---------------------------------------------------------------------
  // The symbols of a ledger, in the order a Map first sees them
  // ---------------------------------------------------------------------

  predicate Distinct(r: seq<string>)
  {
    forall i, j :: 0 <= i < j < |r| ==> r[i] != r[j]
  }

  predicate Mentions(txs: seq<Transaction>, s: string)
  {
    exists i :: 0 <= i < |txs| && txs[i].symbol == s
  }

  /** The distinct symbols of the ledger in order of first occurrence: the
      iteration order of a JavaScript `Map` filled by `set`. */
  function Symbols(txs: seq<Transaction>): seq<string>
  {
    if txs == [] then []
    else
      var r := Symbols(txs[..|txs| - 1]);
      var s := txs[|txs| - 1].symbol;
      if s in r then r else r + [s]
  }

  /** The symbols listed are distinct and are exactly those the ledger
      mentions. */
  lemma {:induction false} SymbolsMentioned(txs: seq<Transaction>)
    ensures Distinct(Symbols(txs))
    ensures forall s :: s in Symbols(txs) <==> Mentions(txs, s)
  {
    if txs != [] {
      var init := txs[..|txs| - 1];
      var tx := txs[|txs| - 1];
      SymbolsMentioned(init);
      forall s ensures Mentions(txs, s) <==> Mentions(init, s) || s == tx.symbol {
        if Mentions(txs, s) {
          var i :| 0 <= i < |txs| && txs[i].symbol == s;
          if i < |txs| - 1 {
            assert init[i].symbol == s;
          }
        }
        if Mentions(init, s) {
          var i :| 0 <= i < |init| && init[i].symbol == s;
          assert txs[i].symbol == s;
        }
      }
    }
  }

  /** A symbol the ledger never mentions keeps the empty accumulator. */
  lemma {:induction false} UnmentionedPosition(txs: seq<Transaction>, s: string)
    requires !Mentions(txs, s)
    ensures PositionOf(txs, s) == EmptyPosition
  {
    if txs != [] {
      var init := txs[..|txs| - 1];
      forall i | 0 <= i < |init| ensures init[i].symbol != s {
        assert init[i] == txs[i];
      }
      UnmentionedPosition(init, s);
    }
  }

  // ---------------------------------------------------------------------
  // Valuation
  // ---------------------------------------------------------------------

  /** `currentPrices.get(symbol) || 0`: a missing symbol is priced at 0. */
  function PriceOf(prices: map<string, real>, s: string): real
  {
    if s in prices then prices[s] else 0.0
  }

  /** The holding of a symbol whose net amount is positive: its average buy
      price, cost basis, current value and P&L. */
  function MakeHolding(s: string, p: Position, prices: map<string, real>): Holding
    requires p.amount > 0.0
  {
    var currentPrice := PriceOf(prices, s);
    var averageBuyPrice := if p.buyCount > 0 then Quot(p.totalCost, p.amount) else 0.0;
    var currentValue := Mul(p.amount, currentPrice);
    var costBasis := Mul(p.amount, averageBuyPrice);
    var pnl := currentValue - costBasis;
    var pnlPercentage := if costBasis > 0.0 then Mul(Quot(pnl, costBasis), 100.0) else 0.0;
    Holding(s, p.amount, averageBuyPrice, costBasis, currentPrice, currentValue, pnl, pnlPercentage)
  }

  /** The hidden-product form of `(part / whole) * 100`, guarded by a
      positive whole. */
  lemma PercentOf(part: real, whole: real)
    ensures (if whole > 0.0 then Mul(Quot(part, whole), 100.0) else 0.0)
         == (if whole > 0.0 then part / whole * 100.0 else 0.0)
  {
    if whole > 0.0 {
      QuotIsQuotient(part, whole);
      MulIsProduct(Quot(part, whole), 100.0);
    }
  }

  /** The cost basis amount·(totalCost/amount) is the gross buy spend. */
  lemma CostBasisIsSpend(txs: seq<Transaction>, s: string, prices: map<string, real>)
    requires PositionOf(txs, s).amount > 0.0
    ensures MakeHolding(s, PositionOf(txs, s), prices).totalInvested == BuySpend(txs, s)
  {
    var p := PositionOf(txs, s);
    PositionOfIsNet(txs, s);
    if p.buyCount > 0 {
      MulQuotCancels(p.totalCost, p.amount);
    } else {
      NoBuysNoSpend(txs, s);
      MulIsProduct(p.amount, 0.0);
    }
  }

  /** A holding per listed symbol whose net amount is positive, in list order
      (the second loop of `calculateHoldings`, before the sort). */
  function Valued(syms: seq<string>, txs: seq<Transaction>, prices: map<string, real>): (r: seq<Holding>)
    ensures forall h :: h in r ==>
              h.symbol in syms && PositionOf(txs, h.symbol).amount > 0.0 &&
              h == MakeHolding(h.symbol, PositionOf(txs, h.symbol), prices)
    ensures forall s :: s in syms && PositionOf(txs, s).amount > 0.0 ==>
              MakeHolding(s, PositionOf(txs, s), prices) in r
  {
    if syms == [] then []
    else
      var s := syms[|syms| - 1];
      var p := PositionOf(txs, s);
      Valued(syms[..|syms| - 1], txs, prices) + (if p.amount > 0.0 then [MakeHolding(s, p, prices)] else [])
  }

  predicate UniqueSymbols(hs: seq<Holding>)
  {
    forall i, j :: 0 <= i < j < |hs| ==> hs[i].symbol != hs[j].symbol
  }

  /** Distinct symbols give holdings with distinct symbols. */
  lemma {:induction false} ValuedUnique(syms: seq<string>, txs: seq<Transaction>, prices: map<string, real>)
    requires Distinct(syms)
    ensures UniqueSymbols(Valued(syms, txs, prices))
  {
    if syms != [] {
      var init := syms[..|syms| - 1];
      var s := syms[|syms| - 1];
      assert Distinct(init);
      ValuedUnique(init, txs, prices);
      assert s !in init;
      var v := Valued(init, txs, prices);
      assert forall h :: h in v ==> h.symbol != s;
    }
  }

  // ---------------------------------------------------------------------
  // Sorting by current value, descending
  // ---------------------------------------------------------------------

  predicate Descending(hs: seq<Holding>)
  {
    forall i, j :: 0 <= i < j < |hs| ==> hs[i].currentValue >= hs[j].currentValue
  }

  /** Places `x` before the first element worth no more than it. */
  function Insert(x: Holding, s: seq<Holding>): (r: seq<Holding>)
    ensures multiset(r) == multiset(s) + multiset{x}
  {
    if s == [] || s[0].currentValue <= x.currentValue then
      [x] + s
    else
      var t := Insert(x, s[1..]);
      assert s == [s[0]] + s[1..];
      [s[0]] + t
  }

  /** `holdings.sort((a, b) => b.currentValue - a.currentValue)`: a stable
      insertion sort, largest current value first. */
  function SortByValue(hs: seq<Holding>): (r: seq<Holding>)
    ensures multiset(r) == multiset(hs)
  {
    if hs == [] then []
    else
      assert hs == [hs[0]] + hs[1..];
      Insert(hs[0], SortByValue(hs[1..]))
  }

  /** Inserting into a descending list keeps it descending. */
  lemma {:induction false} InsertDescending(x: Holding, s: seq<Holding>)
    requires Descending(s)
    ensures Descending(Insert(x, s))
  {
    if !(s == [] || s[0].currentValue <= x.currentValue) {
      var t := Insert(x, s[1..]);
      InsertDescending(x, s[1..]);
      InsertFirst(x, s[1..]);
      assert Descending([s[0]] + t) by {
        forall j | 0 < j < |t| + 1 ensures s[0].currentValue >= ([s[0]] + t)[j].currentValue {
          assert ([s[0]] + t)[j] == t[j - 1];
          assert t[j - 1].currentValue <= t[0].currentValue;
        }
      }
    }
  }

  /** The first element after an insertion is the inserted one or the old
      first one. */
  lemma InsertFirst(x: Holding, s: seq<Holding>)
    ensures var r := Insert(x, s);
            |r| > 0 && (r[0] == x || (s != [] && r[0] == s[0]))
  {
  }

  /** The sort leaves the holdings in descending order of current value. */
  lemma {:induction false} SortDescending(hs: seq<Holding>)
    ensures Descending(SortByValue(hs))
  {
    if hs != [] {
      SortDescending(hs[1..]);
      InsertDescending(hs[0], SortByValue(hs[1..]));
    }
  }

  lemma {:induction false} InsertUnique(x: Holding, s: seq<Holding>)
    requires UniqueSymbols(s)
    requires forall y :: y in s ==> y.symbol != x.symbol
    ensures UniqueSymbols(Insert(x, s))
  {
    if !(s == [] || s[0].currentValue <= x.currentValue) {
      InsertUnique(x, s[1..]);
      var t := Insert(x, s[1..]);
      forall y | y in t ensures y.symbol != s[0].symbol {
        assert y in multiset(t);
        if y != x {
          assert y in multiset(s[1..]);
        }
      }
    }
  }

  /** Sorting never puts two holdings of one symbol side by side: the
      symbols stay distinct. */
  lemma {:induction false} SortUnique(hs: seq<Holding>)
    requires UniqueSymbols(hs)
    ensures UniqueSymbols(SortByValue(hs))
  {
    if hs != [] {
      SortUnique(hs[1..]);
      var t := SortByValue(hs[1..]);
      forall y | y in t ensures y.symbol != hs[0].symbol {
        assert y in multiset(t);
        assert y in multiset(hs[1..]);
        var k :| 0 <= k < |hs[1..]| && hs[1..][k] == y;
        assert hs[k + 1] == y;
      }
      InsertUnique(hs[0], t);
    }
  }

  // ---------------------------------------------------------------------
  // calculateHoldings
  // ---------------------------------------------------------------------

  /** What `calculateHoldings(transactions, currentPrices)` returns. */
  function Holdings(txs: seq<Transaction>, prices: map<string, real>): seq<Holding>
  {
    SortByValue(Valued(Symbols(txs), txs, prices))
  }

  /** One more transaction updates its own symbol's accumulator only. */
  lemma PositionStep(txs: seq<Transaction>, i: int, s: string)
    requires 0 <= i < |txs|
    ensures PositionOf(txs[..i + 1], s)
         == if txs[i].symbol == s then Apply(PositionOf(txs[..i], s), txs[i]) else PositionOf(txs[..i], s)
  {
    assert txs[..i + 1][..i] == txs[..i];
  }

  /** The Map of accumulators and its key order after a prefix of the
      ledger. */
  ghost predicate Tracks(txs: seq<Transaction>, book: map<string, Position>, order: seq<string>)
  {
    && order == Symbols(txs)
    && (forall s :: s in book <==> s in order)
    && (forall s :: s in book ==> book[s] == PositionOf(txs, s))
  }

  /** One pass of the ledger loop keeps the Map in step with the ledger. */
  lemma TracksStep(txs: seq<Transaction>, i: int, book: map<string, Position>, order: seq<string>)
    requires 0 <= i < |txs| && Tracks(txs[..i], book, order)
    ensures var tx := txs[i];
            var existing := if tx.symbol in book then book[tx.symbol] else EmptyPosition;
            Tracks(txs[..i + 1], book[tx.symbol := Apply(existing, tx)],
                   if tx.symbol in book then order else order + [tx.symbol])
  {
    var tx := txs[i];
    assert txs[..i + 1][..i] == txs[..i];
    if tx.symbol !in book {
      SymbolsMentioned(txs[..i]);
      UnmentionedPosition(txs[..i], tx.symbol);
    }
    var book' := book[tx.symbol := Apply(if tx.symbol in book then book[tx.symbol] else EmptyPosition, tx)];
    forall s | s in book'
      ensures book'[s] == PositionOf(txs[..i + 1], s)
    {
      PositionStep(txs, i, s);
    }
  }

  /** `calculateHoldings`: folds the ledger into a per-symbol Map, turns the
      entries with a positive amount into valued holdings, and sorts them. */
  method CalculateHoldings(txs: seq<Transaction>, prices: map<string, real>) returns (r: seq<Holding>)
    ensures r == Holdings(txs, prices)
  {
    var book, order := GroupBySymbol(txs);
    var holdings: seq<Holding> := [];
    var j := 0;
    while j < |order|
      invariant 0 <= j <= |order|
      invariant holdings == Valued(order[..j], txs, prices)
    {
      var symbol := order[j];
      assert order[..j + 1][..j] == order[..j];
      var data := book[symbol];
      if data.amount > 0.0 {
        holdings := holdings + [MakeHolding(symbol, data, prices)];
      }
      j := j + 1;
    }
    assert order[..|order|] == order;
    r := SortByValue(holdings);
  }

  /** The first loop of `calculateHoldings`: each transaction updates its
      symbol's accumulator in the Map, a new symbol joining the key order. */
  method GroupBySymbol(txs: seq<Transaction>) returns (book: map<string, Position>, order: seq<string>)
    ensures order == Symbols(txs)
    ensures forall s :: s in book <==> s in order
    ensures forall s :: s in book ==> book[s] == PositionOf(txs, s)
  {
    book := map[];
    order := [];
    var i := 0;
    while i < |txs|
      invariant 0 <= i <= |txs|
      invariant Tracks(txs[..i], book, order)
    {
      var tx := txs[i];
      TracksStep(txs, i, book, order);
      var existing := if tx.symbol in book then book[tx.symbol] else EmptyPosition;
      ghost var before := existing;
      if tx.kind == "BUY" {
        existing := existing.(amount := existing.amount + tx.amount,
                              totalCost := existing.totalCost + Mul(tx.amount, tx.pricePerCoin),
                              buyCount := existing.buyCount + 1);
      } else {
        existing := existing.(amount := existing.amount - tx.amount);
      }
      assert existing == Apply(before, tx);
      if tx.symbol !in book {
        order := order + [tx.symbol];
      }
      book := book[tx.symbol := existing];
      i := i + 1;
    }
    assert txs[..|txs|] == txs;
  }

  /** A holding exists for a symbol exactly when its net amount (bought minus
      sold) is positive. */
  lemma HoldingExistsIff(txs: seq<Transaction>, prices: map<string, real>, s: string)
    ensures (exists k :: 0 <= k < |Holdings(txs, prices)| && Holdings(txs, prices)[k].symbol == s)
            <==> NetAmount(txs, s) > 0.0
  {
    var v := Valued(Symbols(txs), txs, prices);
    var hs := Holdings(txs, prices);
    PositionOfIsNet(txs, s);
    SymbolsMentioned(txs);
    if NetAmount(txs, s) > 0.0 {
      if !Mentions(txs, s) {
        UnmentionedPosition(txs, s);
      }
      var h := MakeHolding(s, PositionOf(txs, s), prices);
      assert h in multiset(v);
      assert h in multiset(hs);
      var k :| 0 <= k < |hs| && hs[k] == h;
      assert hs[k].symbol == s;
    } else {
      forall k | 0 <= k < |hs| ensures hs[k].symbol != s {
        assert hs[k] in multiset(hs);
        assert hs[k] in v;
      }
    }
  }

  /** No symbol appears twice, and the list runs from the largest current
      value to the smallest. */
  lemma HoldingsShape(txs: seq<Transaction>, prices: map<string, real>)
    ensures UniqueSymbols(Holdings(txs, prices))
    ensures Descending(Holdings(txs, prices))
    ensures multiset(Holdings(txs, prices)) == multiset(Valued(Symbols(txs), txs, prices))
  {
    SymbolsMentioned(txs);
    ValuedUnique(Symbols(txs), txs, prices);
    SortUnique(Valued(Symbols(txs), txs, prices));
    SortDescending(Valued(Symbols(txs), txs, prices));
  }

  /** Each holding is the valuation of its symbol's accumulator: it carries
      the symbol's net amount, its gross buy spend as the amount invested and
      the current price (0 when missing). */
  lemma HoldingValuation(txs: seq<Transaction>, prices: map<string, real>, h: Holding)
    requires h in Holdings(txs, prices)
    ensures PositionOf(txs, h.symbol).amount > 0.0
    ensures h == MakeHolding(h.symbol, PositionOf(txs, h.symbol), prices)
    ensures h.amount == NetAmount(txs, h.symbol) > 0.0
    ensures h.totalInvested == BuySpend(txs, h.symbol)
    ensures PositionOf(txs, h.symbol).totalCost == BuySpend(txs, h.symbol)
    ensures PositionOf(txs, h.symbol).buyCount == |BuyAmounts(txs, h.symbol)|
    ensures h.currentPrice == PriceOf(prices, h.symbol)
    ensures h.pnl == h.currentValue - h.totalInvested
  {
    var v := Valued(Symbols(txs), txs, prices);
    assert h in multiset(Holdings(txs, prices));
    assert h in v;
    PositionOfIsNet(txs, h.symbol);
    CostBasisIsSpend(txs, h.symbol, prices);
  }

  /** The figures of one holding in plain arithmetic: the average buy price
      is the cost over the amount when there were buys, the value is amount
      times price, and the percentage is guarded by a positive cost basis. */
  lemma HoldingFigures(s: string, p: Position, prices: map<string, real>)
    requires p.amount > 0.0
    ensures var h := MakeHolding(s, p, prices);
            && h.averageBuyPrice == (if p.buyCount > 0 then p.totalCost / p.amount else 0.0)
            && h.currentValue == h.amount * h.currentPrice
            && h.pnlPercentage == if h.totalInvested > 0.0 then h.pnl / h.totalInvested * 100.0 else 0.0
  {
    var h := MakeHolding(s, p, prices);
    MulIsProduct(h.amount, h.currentPrice);
    if p.buyCount > 0 {
      QuotIsQuotient(p.totalCost, p.amount);
    }
    PercentOf(h.pnl, h.totalInvested);
  }

  // ---------------------------------------------------------------------
  // calculatePortfolioSummary
  // ---------------------------------------------------------------------

  /** `holdings.reduce((sum, h) => sum + h.totalInvested, 0)`. */
  function TotalInvested(hs: seq<Holding>): real
  {
    if hs == [] then 0.0 else hs[0].totalInvested + TotalInvested(hs[1..])
  }

  /** `holdings.reduce((sum, h) => sum + h.currentValue, 0)`. */
  function TotalValue(hs: seq<Holding>): real
  {
    if hs == [] then 0.0 else hs[0].currentValue + TotalValue(hs[1..])
  }

  /** What `calculatePortfolioSummary(transactions, currentPrices)` returns. */
  function Summarize(txs: seq<Transaction>, prices: map<string, real>): PortfolioSummary
  {
    SummaryOf(Holdings(txs, prices), |txs|)
  }

  /** The reduces of `calculatePortfolioSummary` over given holdings. */
  function SummaryOf(holdings: seq<Holding>, count: nat): PortfolioSummary
  {
    var totalInvested := TotalInvested(holdings);
    var currentValue := TotalValue(holdings);
    var totalPnl := currentValue - totalInvested;
    var totalPnlPercentage := if totalInvested > 0.0 then (totalPnl / totalInvested) * 100.0 else 0.0;
    PortfolioSummary(totalInvested, currentValue, totalPnl, totalPnlPercentage, holdings, count)
  }

  /** `calculatePortfolioSummary`: the holdings and the totals over them. */
  method CalculatePortfolioSummary(txs: seq<Transaction>, prices: map<string, real>) returns (r: PortfolioSummary)
    ensures r == Summarize(txs, prices)
  {
    var holdings := CalculateHoldings(txs, prices);
    r := SummaryOf(holdings, |txs|);
  }

  lemma {:induction false} InsertTotals(x: Holding, s: seq<Holding>)
    ensures TotalInvested(Insert(x, s)) == x.totalInvested + TotalInvested(s)
    ensures TotalValue(Insert(x, s)) == x.currentValue + TotalValue(s)
  {
    if !(s == [] || s[0].currentValue <= x.currentValue) {
      InsertTotals(x, s[1..]);
    }
  }

  /** Reordering the holdings leaves the totals unchanged. */
  lemma {:induction false} SortTotals(hs: seq<Holding>)
    ensures TotalInvested(SortByValue(hs)) == TotalInvested(hs)
    ensures TotalValue(SortByValue(hs)) == TotalValue(hs)
  {
    if hs != [] {
      SortTotals(hs[1..]);
      InsertTotals(hs[0], SortByValue(hs[1..]));
    }
  }

  lemma {:induction false} TotalsSnoc(hs: seq<Holding>, h: Holding)
    ensures TotalInvested(hs + [h]) == TotalInvested(hs) + h.totalInvested
    ensures TotalValue(hs + [h]) == TotalValue(hs) + h.currentValue
  {
    if hs != [] {
      assert (hs + [h])[1..] == hs[1..] + [h];
      TotalsSnoc(hs[1..], h);
    }
  }

  /** Σ gross buy spend over the listed symbols still held. */
  function OpenSpend(syms: seq<string>, txs: seq<Transaction>): real
  {
    if syms == [] then 0.0
    else
      var s := syms[|syms| - 1];
      OpenSpend(syms[..|syms| - 1], txs) + (if NetAmount(txs, s) > 0.0 then BuySpend(txs, s) else 0.0)
  }

  /** Σ net amount × current price over the listed symbols still held. */
  function OpenValue(syms: seq<string>, txs: seq<Transaction>, prices: map<string, real>): real
  {
    if syms == [] then 0.0
    else
      var s := syms[|syms| - 1];
      OpenValue(syms[..|syms| - 1], txs, prices)
        + (if NetAmount(txs, s) > 0.0 then Mul(NetAmount(txs, s), PriceOf(prices, s)) else 0.0)
  }

  lemma {:induction false} ValuedTotals(syms: seq<string>, txs: seq<Transaction>, prices: map<string, real>)
    ensures TotalInvested(Valued(syms, txs, prices)) == OpenSpend(syms, txs)
    ensures TotalValue(Valued(syms, txs, prices)) == OpenValue(syms, txs, prices)
  {
    if syms != [] {
      var init := syms[..|syms| - 1];
      var s := syms[|syms| - 1];
      ValuedTotals(init, txs, prices);
      PositionOfIsNet(txs, s);
      if PositionOf(txs, s).amount > 0.0 {
        var h := MakeHolding(s, PositionOf(txs, s), prices);
        TotalsSnoc(Valued(init, txs, prices), h);
        CostBasisIsSpend(txs, s, prices);
      } else {
        assert Valued(syms, txs, prices) == Valued(init, txs, prices) + [];
        assert Valued(init, txs, prices) + [] == Valued(init, txs, prices);
      }
    }
  }

  /** The summary totals the gross buy spend and the current value of every
      symbol still held, and counts every transaction. */
  lemma SummaryTotals(txs: seq<Transaction>, prices: map<string, real>)
    ensures var r := Summarize(txs, prices);
            && r.totalInvested == OpenSpend(Symbols(txs), txs)
            && r.currentValue == OpenValue(Symbols(txs), txs, prices)
            && r.holdings == Holdings(txs, prices)
            && r.totalTransactions == |txs|
  {
    SortTotals(Valued(Symbols(txs), txs, prices));
    ValuedTotals(Symbols(txs), txs, prices);
  }

  /** An empty ledger: no holdings and every total zero. */
  lemma EmptyLedgerSummary(prices: map<string, real>)
    ensures Summarize([], prices) == PortfolioSummary(0.0, 0.0, 0.0, 0.0, [], 0)
  {
  }

  // ---------------------------------------------------------------------
  // formatPnL and formatPercentage
  // ---------------------------------------------------------------------

  /** A displayed figure and whether it is shown as a gain. */
  datatype Formatted = Formatted(value: string, isPositive: bool)

  /** `formatPnL(pnl)`: "+" for a gain, then "$" and `magnitude`, the
      two-decimal rendering of |pnl|. A loss carries no sign at all. */
  function FormatPnL(pnl: real, magnitude: string): (r: Formatted)
    ensures r.isPositive <==> pnl >= 0.0
    ensures |r.value| > 0 && (r.value[0] == '+' <==> r.isPositive)
    ensures '-' !in magnitude ==> '-' !in r.value
    ensures r.value == (if r.isPositive then "+$" else "$") + magnitude
  {
    var isPositive := pnl >= 0.0;
    Formatted((if isPositive then "+" else "") + "$" + magnitude, isPositive)
  }

  /** `formatPercentage(percentage)`: "+" for a gain, then the two-decimal
      rendering (whose own "-" marks a loss) and "%". `magnitude` is the
      rendering of |percentage|. */
  function FormatPercentage(percentage: real, magnitude: string): (r: Formatted)
    requires |magnitude| > 0 && magnitude[0] != '-' && magnitude[0] != '+'
    ensures r.isPositive <==> percentage >= 0.0
    ensures |r.value| > 0 && (r.value[0] == '+' <==> r.isPositive)
    ensures r.value[0] == '-' <==> !r.isPositive
    ensures r.value[|r.value| - 1] == '%'
  {
    var isPositive := percentage >= 0.0;
    var fixed := (if percentage < 0.0 then "-" else "") + magnitude;
    Formatted((if isPositive then "+" else "") + fixed + "%", isPositive)
  }

  /** Zero counts as a gain in both formatters. */
  lemma ZeroIsPositive(magnitude: string)
    requires |magnitude| > 0 && magnitude[0] != '-' && magnitude[0] != '+'
    ensures FormatPnL(0.0, magnitude).isPositive && FormatPercentage(0.0, magnitude).isPositive
  {
  }

  // ---------------------------------------------------------------------
  // Worked ledgers
  // ---------------------------------------------------------------------

  /** The holdings of a ledger that mentions a single symbol. */
  lemma OneSymbolHoldings(txs: seq<Transaction>, prices: map<string, real>, s: string)
    requires Symbols(txs) == [s]
    ensures var p := PositionOf(txs, s);
            Holdings(txs, prices) == if p.amount > 0.0 then [MakeHolding(s, p, prices)] else []
  {
    var p := PositionOf(txs, s);
    assert [s][..0] == [];
    if p.amount > 0.0 {
      var h := MakeHolding(s, p, prices);
      assert Valued([s], txs, prices) == [h];
      assert [h][1..] == [];
    } else {
      assert Valued([s], txs, prices) == [];
    }
  }

  /** Two purchases of BTC, 1 at 50000 and 0.5 at 60000, priced at 55000:
      one holding of 1.5 worth 82500. */
  lemma TwoBuys()
    ensures var txs := [Transaction(1, "BTC", "BUY", 1.0, 50000.0), Transaction(2, "BTC", "BUY", 0.5, 60000.0)];
            var hs := Holdings(txs, map["BTC" := 55000.0]);
            |hs| == 1 && hs[0].symbol == "BTC" && hs[0].amount == 1.5 && hs[0].currentValue == 82500.0
  {
    var txs := [Transaction(1, "BTC", "BUY", 1.0, 50000.0), Transaction(2, "BTC", "BUY", 0.5, 60000.0)];
    assert txs[..1] == [txs[0]];
    assert [txs[0]][..0] == [];
    assert PositionOf(txs, "BTC").amount == 1.5;
    assert Symbols(txs) == ["BTC"];
    OneSymbolHoldings(txs, map["BTC" := 55000.0], "BTC");
    MulIsProduct(1.5, 55000.0);
  }

  /** Buying 2 BTC and selling 0.5 leaves one holding of 1.5. */
  lemma BuyThenPartialSell()
    ensures var txs := [Transaction(1, "BTC", "BUY", 2.0, 50000.0), Transaction(2, "BTC", "SELL", 0.5, 60000.0)];
            var hs := Holdings(txs, map["BTC" := 55000.0]);
            |hs| == 1 && hs[0].symbol == "BTC" && hs[0].amount == 1.5
  {
    var txs := [Transaction(1, "BTC", "BUY", 2.0, 50000.0), Transaction(2, "BTC", "SELL", 0.5, 60000.0)];
    assert txs[..1] == [txs[0]];
    assert [txs[0]][..0] == [];
    assert PositionOf(txs, "BTC").amount == 1.5;
    assert Symbols(txs) == ["BTC"];
    OneSymbolHoldings(txs, map["BTC" := 55000.0], "BTC");
  }

  /** Buying 1 BTC and selling 1 leaves nothing. */
  lemma BuyThenFullSell()
    ensures Holdings([Transaction(1, "BTC", "BUY", 1.0, 50000.0), Transaction(2, "BTC", "SELL", 1.0, 60000.0)],
                     map["BTC" := 55000.0]) == []
  {
    var txs := [Transaction(1, "BTC", "BUY", 1.0, 50000.0), Transaction(2, "BTC", "SELL", 1.0, 60000.0)];
    assert txs[..1] == [txs[0]];
    assert [txs[0]][..0] == [];
    assert PositionOf(txs, "BTC").amount == 0.0;
    assert Symbols(txs) == ["BTC"];
    OneSymbolHoldings(txs, map["BTC" := 55000.0], "BTC");
  }

  /** One BTC bought at 50000 and priced at 60000: a P&L of 10000, 20 %. */
  lemma SingleBuyProfit()
    ensures var hs := Holdings([Transaction(1, "BTC", "BUY", 1.0, 50000.0)], map["BTC" := 60000.0]);
            |hs| == 1 && hs[0].pnl == 10000.0 && hs[0].pnlPercentage == 20.0
  {
    var txs := [Transaction(1, "BTC", "BUY", 1.0, 50000.0)];
    assert txs[..0] == [];
    assert Symbols(txs) == ["BTC"];
  }

  /** 1 BTC at 50000 and 10 ETH at 3000, priced at 55000 and 3500: BTC,
      worth 55000, comes before ETH, worth 35000. */
  lemma TwoCoinHoldings()
    ensures var prices := map["BTC" := 55000.0, "ETH" := 3500.0];
            Holdings([Transaction(1, "BTC", "BUY", 1.0, 50000.0), Transaction(2, "ETH", "BUY", 10.0, 3000.0)], prices)
            == [MakeHolding("BTC", Position(1.0, 50000.0, 1), prices), MakeHolding("ETH", Position(10.0, 30000.0, 1), prices)]
  {
    var txs := [Transaction(1, "BTC", "BUY", 1.0, 50000.0), Transaction(2, "ETH", "BUY", 10.0, 3000.0)];
    var prices := map["BTC" := 55000.0, "ETH" := 3500.0];
    assert txs[..1] == [txs[0]];
    assert [txs[0]][..0] == [];
    assert "BTC" != "ETH";
    assert PositionOf([txs[0]], "BTC") == Apply(EmptyPosition, txs[0]);
    assert PositionOf([txs[0]], "ETH") == EmptyPosition;
    MulIsProduct(1.0, 50000.0);
    MulIsProduct(10.0, 3000.0);
    assert PositionOf(txs, "BTC") == Position(1.0, 50000.0, 1);
    assert PositionOf(txs, "ETH") == Position(10.0, 30000.0, 1);
    assert Symbols(txs) == ["BTC", "ETH"];
    var hb := MakeHolding("BTC", Position(1.0, 50000.0, 1), prices);
    var he := MakeHolding("ETH", Position(10.0, 30000.0, 1), prices);
    assert ["BTC", "ETH"][..1] == ["BTC"];
    assert ["BTC"][..0] == [];
    assert Valued(["BTC", "ETH"], txs, prices) == [hb, he];
    MulIsProduct(1.0, 55000.0);
    MulIsProduct(10.0, 3500.0);
    assert [hb, he][1..] == [he];
    assert [he][1..] == [];
    assert SortByValue([he]) == [he];
    assert Insert(hb, [he]) == [hb, he];
  }

  /** The same ledger summarised: invested 80000, worth 90000, a P&L of
      10000 or 12.5 %, over two transactions. */
  lemma TwoCoinSummary()
    ensures var r := Summarize([Transaction(1, "BTC", "BUY", 1.0, 50000.0), Transaction(2, "ETH", "BUY", 10.0, 3000.0)],
                               map["BTC" := 55000.0, "ETH" := 3500.0]);
            r.totalInvested == 80000.0 && r.currentValue == 90000.0 && r.totalPnl == 10000.0 &&
            r.totalPnlPercentage == 12.5 && r.totalTransactions == 2 && |r.holdings| == 2
  {
    TwoCoinHoldings();
    TwoCoinTotals();
  }

  lemma TwoCoinTotals()
    ensures var prices := map["BTC" := 55000.0, "ETH" := 3500.0];
            var r := SummaryOf([MakeHolding("BTC", Position(1.0, 50000.0, 1), prices),
                                MakeHolding("ETH", Position(10.0, 30000.0, 1), prices)], 2);
            r.totalInvested == 80000.0 && r.currentValue == 90000.0 && r.totalPnl == 10000.0 &&
            r.totalPnlPercentage == 12.5
  {
    var prices := map["BTC" := 55000.0, "ETH" := 3500.0];
    var hb := MakeHolding("BTC", Position(1.0, 50000.0, 1), prices);
    var he := MakeHolding("ETH", Position(10.0, 30000.0, 1), prices);
    MulQuotCancels(50000.0, 1.0);
    MulQuotCancels(30000.0, 10.0);
    MulIsProduct(1.0, 55000.0);
    MulIsProduct(10.0, 3500.0);
    assert hb.totalInvested == 50000.0 && hb.currentValue == 55000.0;
    assert he.totalInvested == 30000.0 && he.currentValue == 35000.0;
    assert [hb, he][1..] == [he];
    assert [he][1..] == [];
  }
}
