// The vocabulary shared by the account, the ledger and the gates (src/common/types.h,
// src/exchange/execution_report.h).
module Exchange {
  // The venue's side of an order.
  datatype Side = Buy | Sell {
    // +1 for a buy and -1 for a sell.
    function Sign(): (s: int)
      ensures s == 1 || s == -1
    {
      if Buy? then 1 else -1
    }

    function Opposite(): Side {
      if Buy? then Sell else Buy
    }
  }

  // The side a strategy names; the venue knows only two, and reads anything but a buy as a sell.
  datatype Intent = Unknown | Buying | Selling {
    function AtVenue(): Side {
      if Buying? then Buy else Sell
    }
  }

  datatype ExecType = Trade | PartialFill | Filled | Cancelled | Resting | Rejected {
    // The reports that end an order's life.
    predicate Terminal() {
      Filled? || Cancelled? || Rejected?
    }
  }

  datatype LiquidityRole = UnknownRole | Maker | Taker

  // Quantities are raw units; prices and fees are exact reals.
  datatype ExecutionReport = ExecutionReport(
    orderId: nat,
    side: Side,
    execType: ExecType,
    symbol: string,
    price: real,
    quantity: nat,
    ts: nat,
    owner: string,
    role: LiquidityRole,
    fee: real)
  {
    function Executed(): nat {
      if execType.Trade? then quantity else 0
    }

    function Remaining(): nat {
      if execType.Trade? then 0 else quantity
    }

    predicate Ours() {
      owner == OUR_OWNER
    }
  }

  // A price of a book, and the sizes that a venue has queued ahead of us at the levels it holds.
  datatype PriceLevel = PriceLevel(symbol: string, side: Side, price: real)

  type QueueAhead = map<PriceLevel, nat>

  function AheadAt(queues: QueueAhead, level: PriceLevel): nat {
    if level in queues then queues[level] else 0
  }

  const OUR_OWNER := "MarketMaker"

  function AbsInt(x: int): nat {
    if x < 0 then -x else x
  }

  function MinInt(a: int, b: int): int {
    if a < b then a else b
  }

  function MaxInt(a: int, b: int): int {
    if a > b then a else b
  }

  function AbsReal(x: real): real {
    if x < 0.0 then -x else x
  }

  function MinReal(a: real, b: real): real {
    if a < b then a else b
  }

  function MaxReal(a: real, b: real): real {
    if a > b then a else b
  }
}
