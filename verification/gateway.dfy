/**
 * The gateway commander as the reconciliation jobs see it: every command sent
 * is appended to a log, in sending order. Transport is not modelled.
 */
module Gateway {
  import opened Wrappers
  import opened Domain

  /**
   * The two commands the jobs send: list a client's open orders on a pair, and
   * fetch one order by the venue-assigned id (absent while unassigned).
   */
  datatype Command =
    | ListOpen(clientName: string, currencyFrom: Currency, currencyTo: Currency)
    | GetOrder(clientName: string, orderId: Option<string>)

  class Commander {
    var sent: seq<Command>

    constructor ()
      ensures sent == []
    {
      sent := [];
    }

    method ListOpenOrders(clientName: string, currencyFrom: Currency, currencyTo: Currency)
      modifies this
      ensures sent == old(sent) + [ListOpen(clientName, currencyFrom, currencyTo)]
    {
      sent := sent + [ListOpen(clientName, currencyFrom, currencyTo)];
    }

    method GetOrder(clientName: string, orderId: Option<string>)
      modifies this
      ensures sent == old(sent) + [Command.GetOrder(clientName, orderId)]
    {
      sent := sent + [Command.GetOrder(clientName, orderId)];
    }
  }
}
