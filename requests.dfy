/** The bodies of the two trading requests the bot builds: place order and modify order. */
module Requests {
  import opened Common
  import opened Sizing

  /** Routing data of an instrument, as looked up by symbol. */
  datatype Instrument = Instrument(routeId: string, tradableInstrumentId: string)

  /** The body of `POST /trade/accounts/{id}/orders`. */
  datatype OrderRequest = OrderRequest(
    price: real, qty: Qty, routeId: string, side: string,
    validity: string, orderType: string,
    takeProfit: real, stopLoss: real, stopLossType: string,
    stopPrice: real, takeProfitType: string, trStopOffset: int,
    tradableInstrumentId: string)

  /** A limit GTC bracket order with absolute stop-loss and take-profit legs. */
  function OrderBody(side: string, entryPrice: real, takeProfit: real, stopLoss: real,
                     qty: Qty, instrument: Instrument): (r: OrderRequest)
    ensures r.orderType == "limit" && r.validity == "GTC" && r.price == entryPrice
    ensures r.stopLossType == "absolute" && r.takeProfitType == "absolute" && r.trStopOffset == 0
    ensures r.stopLoss == stopLoss && r.stopPrice == stopLoss && r.takeProfit == takeProfit
    ensures r.side == side && r.qty == qty
    ensures r.routeId == instrument.routeId && r.tradableInstrumentId == instrument.tradableInstrumentId
  {
    OrderRequest(
      price := entryPrice, qty := qty, routeId := instrument.routeId, side := side,
      validity := "GTC", orderType := "limit",
      takeProfit := takeProfit, stopLoss := stopLoss, stopLossType := "absolute",
      stopPrice := stopLoss, takeProfitType := "absolute", trStopOffset := 0,
      tradableInstrumentId := instrument.tradableInstrumentId)
  }

  /** The modification parameters handed to `modifyTradeOrder`; `None` is an absent key. */
  datatype ModParams = ModParams(takeProfit: Option<real>, stopLoss: Option<real>, stopPrice: Option<real>)

  /** The body of `PATCH /trade/orders/{orderId}`; `None` is a key left out of the object. */
  datatype PatchBody = PatchBody(takeProfit: Option<real>, stopLoss: Option<real>,
                                 stopPrice: Option<real>, validity: string)

  /** A parameter is copied into the body only when it is truthy. */
  function KeepTruthy(x: Option<real>): (y: Option<real>)
    ensures y.Some? <==> Truthy(x)
    ensures y.Some? ==> y == x
  {
    if Truthy(x) then x else None
  }

  /**
    The PATCH body: validity is always GTC, and each of takeProfit, stopLoss and stopPrice
    is present exactly when the parameter is present and truthy, with its value.
  */
  function ModifyBody(p: ModParams): (b: PatchBody)
    ensures b.validity == "GTC"
    ensures b.takeProfit.Some? <==> Truthy(p.takeProfit)
    ensures b.stopLoss.Some? <==> Truthy(p.stopLoss)
    ensures b.stopPrice.Some? <==> Truthy(p.stopPrice)
    ensures b.takeProfit.Some? ==> b.takeProfit == p.takeProfit
    ensures b.stopLoss.Some? ==> b.stopLoss == p.stopLoss
    ensures b.stopPrice.Some? ==> b.stopPrice == p.stopPrice
  {
    PatchBody(KeepTruthy(p.takeProfit), KeepTruthy(p.stopLoss), KeepTruthy(p.stopPrice), "GTC")
  }
}
