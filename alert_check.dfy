/** The price-alert check run by the alert cron route
    (app/api/cron/check-alerts/route.ts): the market prices are put in a map
    keyed by upper-cased symbol, every active alert is compared with the price
    of its symbol, and the ids of the alerts that fire are collected in order. */
module AlertCheck {
  import opened Common

  /** One entry of the market listing. */
  datatype Coin = Coin(symbol: string, currentPrice: real)

  /** An active price alert: fire when the price goes ABOVE or BELOW the
      target. */
  datatype Alert = Alert(id: int, userId: string, cryptoSymbol: string, targetPrice: real, condition: string)

  /** The JSON body the route answers with. */
  datatype Response =
    | Checked(message: string, checked: nat, triggered: nat)
    | Failed(error: string, details: string)

  const NoAlertsMessage: string := "No active alerts to check"
  const CompletedMessage: string := "Alert check completed"
  const FailureError: string := "Failed to check alerts"
  const MarketDataError: string := "Failed to fetch market data"

  // ---------------------------------------------------------------------
  // Upper-casing (ASCII letters)
  // ---------------------------------------------------------------------

  predicate IsLower(c: char)
  {
    'a' <= c <= 'z'
  }

  function UpperChar(c: char): char
  {
    if IsLower(c) then (c as int - 'a' as int + 'A' as int) as char else c
  }

  /** `toUpperCase()` on the ASCII letters. */
  function ToUpper(s: string): string
  {
    seq(|s|, i requires 0 <= i < |s| => UpperChar(s[i]))
  }

  /** An upper-cased string has no lower-case letter left, and upper-casing
      it again changes nothing. */
  lemma ToUpperNormalises(s: string)
    ensures |ToUpper(s)| == |s|
    ensures forall i :: 0 <= i < |s| ==> !IsLower(ToUpper(s)[i])
    ensures ToUpper(ToUpper(s)) == ToUpper(s)
  {
    assert forall i :: 0 <= i < |s| ==> UpperChar(UpperChar(s[i])) == UpperChar(s[i]);
  }

  // ---------------------------------------------------------------------
  // The price map
  // ---------------------------------------------------------------------

  /** The map the `forEach` fills: one `set` per coin, in listing order, so
      a later coin with the same upper-cased symbol overwrites an earlier one. */
  function PriceMapOf(market: seq<Coin>): map<string, real>
  {
    if market == [] then map[]
    else
      var coin := market[|market| - 1];
      PriceMapOf(market[..|market| - 1])[ToUpper(coin.symbol) := coin.currentPrice]
  }

  predicate Listed(market: seq<Coin>, key: string)
  {
    exists i :: 0 <= i < |market| && ToUpper(market[i].symbol) == key
  }

  /** The keys are exactly the upper-cased symbols, and each key holds the
      price of the last coin listed under it. */
  lemma {:induction false} PriceMapContents(market: seq<Coin>)
    ensures forall key :: key in PriceMapOf(market) <==> Listed(market, key)
    ensures forall i :: (0 <= i < |market| &&
                         forall j :: i < j < |market| ==> ToUpper(market[j].symbol) != ToUpper(market[i].symbol))
              ==> ToUpper(market[i].symbol) in PriceMapOf(market) &&
                  PriceMapOf(market)[ToUpper(market[i].symbol)] == market[i].currentPrice
  {
    if market != [] {
      var init := market[..|market| - 1];
      var coin := market[|market| - 1];
      PriceMapContents(init);
      forall key ensures key in PriceMapOf(market) <==> Listed(market, key) {
        if Listed(init, key) {
          var i :| 0 <= i < |init| && ToUpper(init[i].symbol) == key;
          assert market[i] == init[i];
        }
        if Listed(market, key) && key != ToUpper(coin.symbol) {
          var i :| 0 <= i < |market| && ToUpper(market[i].symbol) == key;
          assert i < |init| && init[i] == market[i];
        }
      }
      forall i | 0 <= i < |market| &&
          (forall j :: i < j < |market| ==> ToUpper(market[j].symbol) != ToUpper(market[i].symbol))
        ensures ToUpper(market[i].symbol) in PriceMapOf(market) &&
                PriceMapOf(market)[ToUpper(market[i].symbol)] == market[i].currentPrice
      {
        if i < |init| {
          assert init[i] == market[i];
          forall j | i < j < |init| ensures ToUpper(init[j].symbol) != ToUpper(init[i].symbol) {
            assert init[j] == market[j];
          }
        }
      }
    }
  }

  /** Every key of the price map is upper case. */
  lemma PriceMapKeysUpper(market: seq<Coin>, key: string)
    requires key in PriceMapOf(market)
    ensures forall k :: 0 <= k < |key| ==> !IsLower(key[k])
  {
    PriceMapContents(market);
    var i :| 0 <= i < |market| && ToUpper(market[i].symbol) == key;
    ToUpperNormalises(market[i].symbol);
  }

  /** `priceMap.set(coin.symbol.toUpperCase(), coin.current_price)` for each
      coin in turn. */
  method BuildPriceMap(market: seq<Coin>) returns (priceMap: map<string, real>)
    ensures priceMap == PriceMapOf(market)
  {
    priceMap := map[];
    var i := 0;
    while i < |market|
      invariant 0 <= i <= |market|
      invariant priceMap == PriceMapOf(market[..i])
    {
      assert market[..i + 1][..i] == market[..i];
      var coin := market[i];
      priceMap := priceMap[ToUpper(coin.symbol) := coin.currentPrice];
      i := i + 1;
    }
    assert market[..|market|] == market;
  }

  // ---------------------------------------------------------------------
  // The trigger rule
  // ---------------------------------------------------------------------

  /** Whether an alert fires: its symbol, as stored, has a non-zero price
      (a missing or zero price is skipped), and that price is strictly above
      the target for ABOVE or strictly below it for BELOW. */
  predicate Triggers(alert: Alert, priceMap: map<string, real>)
  {
    && alert.cryptoSymbol in priceMap
    && priceMap[alert.cryptoSymbol] != 0.0
    && ((alert.condition == "ABOVE" && priceMap[alert.cryptoSymbol] > alert.targetPrice)
        || (alert.condition == "BELOW" && priceMap[alert.cryptoSymbol] < alert.targetPrice))
  }

  /** The ids of the alerts that fire, in alert order. */
  function TriggeredIds(alerts: seq<Alert>, priceMap: map<string, real>): (ids: seq<int>)
    ensures |ids| <= |alerts|
  {
    if alerts == [] then []
    else
      var alert := alerts[|alerts| - 1];
      TriggeredIds(alerts[..|alerts| - 1], priceMap) + (if Triggers(alert, priceMap) then [alert.id] else [])
  }

  /** The `for` loop over the alerts: skip an alert without a (non-zero)
      price, decide ABOVE/BELOW, and push the id of each alert that fires. */
  method SelectTriggered(alerts: seq<Alert>, priceMap: map<string, real>) returns (triggeredAlerts: seq<int>)
    ensures triggeredAlerts == TriggeredIds(alerts, priceMap)
  {
    triggeredAlerts := [];
    var i := 0;
    while i < |alerts|
      invariant 0 <= i <= |alerts|
      invariant triggeredAlerts == TriggeredIds(alerts[..i], priceMap)
    {
      assert alerts[..i + 1][..i] == alerts[..i];
      var alert := alerts[i];
      if alert.cryptoSymbol !in priceMap || priceMap[alert.cryptoSymbol] == 0.0 {
        i := i + 1;
        continue;
      }
      var currentPrice := priceMap[alert.cryptoSymbol];
      var isTriggered := false;
      if alert.condition == "ABOVE" && currentPrice > alert.targetPrice {
        isTriggered := true;
      } else if alert.condition == "BELOW" && currentPrice < alert.targetPrice {
        isTriggered := true;
      }
      if isTriggered {
        triggeredAlerts := triggeredAlerts + [alert.id];
      }
      i := i + 1;
    }
    assert alerts[..|alerts|] == alerts;
  }

  /** An ABOVE alert fires exactly when its symbol is priced, the price is
      not 0, and it is strictly greater than the target. */
  lemma AboveIff(alert: Alert, priceMap: map<string, real>)
    requires alert.condition == "ABOVE"
    ensures Triggers(alert, priceMap) <==>
              alert.cryptoSymbol in priceMap && priceMap[alert.cryptoSymbol] != 0.0 &&
              priceMap[alert.cryptoSymbol] > alert.targetPrice
  {
  }

  /** A BELOW alert fires exactly when its symbol is priced, the price is
      not 0, and it is strictly less than the target. */
  lemma BelowIff(alert: Alert, priceMap: map<string, real>)
    requires alert.condition == "BELOW"
    ensures Triggers(alert, priceMap) <==>
              alert.cryptoSymbol in priceMap && priceMap[alert.cryptoSymbol] != 0.0 &&
              priceMap[alert.cryptoSymbol] < alert.targetPrice
  {
  }

  /** A price equal to the target fires neither way. */
  lemma EqualPriceNeverTriggers(alert: Alert, priceMap: map<string, real>)
    requires alert.cryptoSymbol in priceMap && priceMap[alert.cryptoSymbol] == alert.targetPrice
    ensures !Triggers(alert, priceMap)
  {
  }

  /** A condition other than ABOVE and BELOW never fires. */
  lemma OtherConditionNeverTriggers(alert: Alert, priceMap: map<string, real>)
    requires alert.condition != "ABOVE" && alert.condition != "BELOW"
    ensures !Triggers(alert, priceMap)
  {
  }

  /** The lookup uses the symbol as stored, and every key is upper case: an
      alert whose symbol has a lower-case letter never fires. */
  lemma LowerCaseSymbolNeverTriggers(alert: Alert, market: seq<Coin>, k: int)
    requires 0 <= k < |alert.cryptoSymbol| && IsLower(alert.cryptoSymbol[k])
    ensures !Triggers(alert, PriceMapOf(market))
  {
    if alert.cryptoSymbol in PriceMapOf(market) {
      PriceMapKeysUpper(market, alert.cryptoSymbol);
    }
  }

  /** Selecting over two runs of alerts selects over each, in order. */
  lemma {:induction false} TriggeredIdsAppend(a: seq<Alert>, b: seq<Alert>, priceMap: map<string, real>)
    ensures TriggeredIds(a + b, priceMap) == TriggeredIds(a, priceMap) + TriggeredIds(b, priceMap)
  {
    if b == [] {
      assert a + b == a;
    } else {
      var init := b[..|b| - 1];
      assert (a + b)[..|a + b| - 1] == a + init;
      TriggeredIdsAppend(a, init, priceMap);
    }
  }

  /** Some alert with this id fires. */
  predicate FiredBy(alerts: seq<Alert>, priceMap: map<string, real>, id: int)
  {
    exists i :: 0 <= i < |alerts| && Triggers(alerts[i], priceMap) && alerts[i].id == id
  }

  /** The collected ids are exactly the ids of the alerts that fire: no more
      of them than alerts, each one from a firing alert, and every firing
      alert's id among them. */
  lemma {:induction false} TriggeredIdsExact(alerts: seq<Alert>, priceMap: map<string, real>)
    ensures |TriggeredIds(alerts, priceMap)| <= |alerts|
    ensures forall k :: 0 <= k < |TriggeredIds(alerts, priceMap)| ==>
              FiredBy(alerts, priceMap, TriggeredIds(alerts, priceMap)[k])
    ensures forall i :: 0 <= i < |alerts| && Triggers(alerts[i], priceMap) ==>
              alerts[i].id in TriggeredIds(alerts, priceMap)
  {
    if alerts != [] {
      var init := alerts[..|alerts| - 1];
      var last := alerts[|alerts| - 1];
      TriggeredIdsExact(init, priceMap);
      var ids := TriggeredIds(alerts, priceMap);
      var before := TriggeredIds(init, priceMap);
      assert ids == before + (if Triggers(last, priceMap) then [last.id] else []);
      forall k | 0 <= k < |ids|
        ensures FiredBy(alerts, priceMap, ids[k])
      {
        if k < |before| {
          assert ids[k] == before[k];
          assert FiredBy(init, priceMap, before[k]);
          var i :| 0 <= i < |init| && Triggers(init[i], priceMap) && init[i].id == before[k];
          assert alerts[i] == init[i];
        } else {
          assert ids[k] == last.id && Triggers(last, priceMap);
          assert alerts[|alerts| - 1] == last;
        }
      }
      forall i | 0 <= i < |alerts| && Triggers(alerts[i], priceMap)
        ensures alerts[i].id in ids
      {
        if i < |init| {
          assert alerts[i] == init[i];
          assert alerts[i].id in before;
        } else {
          assert alerts[i] == last;
        }
      }
    }
  }

  // ---------------------------------------------------------------------
  // The route's decision
  // ---------------------------------------------------------------------

  /** The alert-checking part of the cron route. `alerts` is the list of
      active alerts (absent when the query gave none), `market` the market
      listing (absent when the response was not a list). Returns the JSON
      body and the ids of the alerts that fired. */
  method CheckAlerts(alerts: Option<seq<Alert>>, market: Option<seq<Coin>>)
    returns (response: Response, triggeredIds: seq<int>)
    ensures (alerts.None? || alerts.value == []) ==>
              response == Checked(NoAlertsMessage, 0, 0) && triggeredIds == []
    ensures alerts.Some? && alerts.value != [] && (market.None? || market.value == []) ==>
              response == Failed(FailureError, "Error: " + MarketDataError) && triggeredIds == []
    ensures alerts.Some? && alerts.value != [] && market.Some? && market.value != [] ==>
              triggeredIds == TriggeredIds(alerts.value, PriceMapOf(market.value)) &&
              response == Checked(CompletedMessage, |alerts.value|, |triggeredIds|)
    ensures response.Checked? ==> response.triggered <= response.checked
  {
    triggeredIds := [];
    if alerts.None? || |alerts.value| == 0 {
      return Checked(NoAlertsMessage, 0, 0), [];
    }
    if market.None? || |market.value| == 0 {
      return Failed(FailureError, "Error: " + MarketDataError), [];
    }
    var priceMap := BuildPriceMap(market.value);
    triggeredIds := SelectTriggered(alerts.value, priceMap);
    TriggeredIdsExact(alerts.value, priceMap);
    response := Checked(CompletedMessage, |alerts.value|, |triggeredIds|);
  }

  /** One BTC alert above 50000 and one ETH alert below 3000, against a
      listing of "btc" at 51000 and "eth" at 3100: only the first fires. */
  lemma AlertExample()
    ensures var alerts := [Alert(1, "u", "BTC", 50000.0, "ABOVE"), Alert(2, "u", "ETH", 3000.0, "BELOW")];
            var market := [Coin("btc", 51000.0), Coin("eth", 3100.0)];
            TriggeredIds(alerts, PriceMapOf(market)) == [1]
  {
    var alerts := [Alert(1, "u", "BTC", 50000.0, "ABOVE"), Alert(2, "u", "ETH", 3000.0, "BELOW")];
    var market := [Coin("btc", 51000.0), Coin("eth", 3100.0)];
    assert ToUpper("btc") == "BTC";
    assert ToUpper("eth") == "ETH";
    assert market[..1] == [market[0]];
    assert [market[0]][..0] == [];
    assert PriceMapOf([market[0]]) == map["BTC" := 51000.0];
    var m := PriceMapOf(market);
    assert m == map["BTC" := 51000.0][ToUpper("eth") := 3100.0];
    assert m == map["BTC" := 51000.0, "ETH" := 3100.0];
    assert Triggers(alerts[0], m);
    assert !Triggers(alerts[1], m);
    assert TriggeredIds([alerts[0]], m) == [1];
    assert alerts[..1] == [alerts[0]];
    assert [alerts[0]][..0] == [];
  }
}
