/**
 * `GET` and `POST /api/stocks` (src/app/api/stocks/route.ts). Neither handler
 * looks at the caller's token: GET returns every row and POST stores whatever
 * owner the body names.
 */
module Stocks {
  import opened Wrappers

  /** A stored row: the four columns POST writes, and the id the table assigns. */
  datatype Stock = Stock(id: int, stockName: string, ticker: string, buyPrice: real, userId: int)

  /**
   * The request as the handlers see it: the `authorization` header and the JSON
   * body's fields, `None` where a field is absent. `quantity` and
   * `currentPrice` are fields a client may send; the handler never reads them.
   */
  datatype Request = Request(
    authorization: Option<string>,
    stockName: Option<string>, ticker: Option<string>, buyPrice: Option<real>, userId: Option<int>,
    quantity: Option<real>, currentPrice: Option<real>)

  datatype Body = StockList(stocks: seq<Stock>) | Created(newStock: Stock) | ErrorBody(error: string)

  datatype Response = Response(status: int, body: Body)

  const FetchFailed := "Failed to fetch stocks"
  const MissingFields := "Missing fields"
  const CreateFailed := "Failed to create stock"

  /** The awaited calls of POST that can throw: `req.json()` and `prisma.stock.create`. */
  datatype Stage = ReadBody | CreateRow

  /** The table after a request, with the response. */
  datatype Outcome = Outcome(response: Response, rows: seq<Stock>, nextId: int)

  /** Ids are unique and below the auto-increment counter, which starts at 1. */
  ghost predicate TableValid(rows: seq<Stock>, nextId: int) {
    && 1 <= nextId
    && (forall i :: 0 <= i < |rows| ==> 1 <= rows[i].id < nextId)
    && (forall i, j :: 0 <= i < j < |rows| ==> rows[i].id != rows[j].id)
  }

  /** `GET`: the whole table, or 500 when `findMany` throws. The header plays no part. */
  function List(rows: seq<Stock>, authorization: Option<string>, findFails: bool): (r: Response)
    ensures r.status == 200 <==> !findFails
    ensures r.status == 200 ==> r.body.StockList? && |r.body.stocks| == |rows|
                                && forall i :: 0 <= i < |rows| ==> r.body.stocks[i] == rows[i]
    ensures r.status != 200 ==> r == Response(500, ErrorBody(FetchFailed))
  {
    if findFails then Response(500, ErrorBody(FetchFailed))
    else Response(200, StockList(rows))
  }

  /** JavaScript truthiness of the four checked fields: "" and 0 are falsy, as is an absent field. */
  predicate Truthy(req: Request) {
    && req.stockName.Some? && req.stockName.value != []
    && req.ticker.Some? && req.ticker.value != []
    && req.buyPrice.Some? && req.buyPrice.value != 0.0
    && req.userId.Some? && req.userId.value != 0
  }

  /** The row POST creates; `parseInt(userId)` is the identity on an integer id. */
  function RowOf(req: Request, id: int): Stock
    requires Truthy(req)
  {
    Stock(id, req.stockName.value, req.ticker.value, req.buyPrice.value, req.userId.value)
  }

  /** `POST`: what the handler does to the table. */
  function Create(rows: seq<Stock>, nextId: int, req: Request, fault: Option<Stage>): (o: Outcome)
    ensures o.response.status in {201, 400, 500}
    ensures o.response.status == 400 <==> fault != Some(ReadBody) && !Truthy(req)
    ensures o.response.status == 400 ==> o.response.body == ErrorBody(MissingFields)
    ensures o.response.status == 500 ==> o.response.body == ErrorBody(CreateFailed)
    ensures o.response.status == 201 <==> fault.None? && Truthy(req)
    // exactly one row is added on success, at the end, and none otherwise
    ensures o.response.status == 201 ==> && o.response.body.Created?
                                         && o.rows == rows + [o.response.body.newStock]
                                         && o.nextId == nextId + 1
    ensures o.response.status != 201 ==> o.rows == rows && o.nextId == nextId
    // the stored row is built from the four checked fields only
    ensures o.response.status == 201 ==> var s := o.response.body.newStock;
              s.id == nextId && Some(s.stockName) == req.stockName && Some(s.ticker) == req.ticker
              && Some(s.buyPrice) == req.buyPrice && Some(s.userId) == req.userId
    ensures TableValid(rows, nextId) ==> TableValid(o.rows, o.nextId)
    // the invariant is what makes the new id fresh
    ensures TableValid(rows, nextId) && o.response.status == 201 ==>
              forall i :: 0 <= i < |rows| ==> rows[i].id != o.response.body.newStock.id
  {
    if fault == Some(ReadBody) then Outcome(Response(500, ErrorBody(CreateFailed)), rows, nextId)
    else if !Truthy(req) then Outcome(Response(400, ErrorBody(MissingFields)), rows, nextId)
    else if fault.Some? then Outcome(Response(500, ErrorBody(CreateFailed)), rows, nextId) // `create` throws
    else
      var s := RowOf(req, nextId);
      Outcome(Response(201, Created(s)), rows + [s], nextId + 1)
  }

  /** The stock table, appended to in place by POST. */
  class StockTable {
    var rows: seq<Stock>
    var nextId: int

    ghost predicate Valid()
      reads this
    {
      TableValid(rows, nextId)
    }

    constructor ()
      ensures Valid() && rows == [] && nextId == 1
    {
      rows := [];
      nextId := 1;
    }

    method Post(req: Request, fault: Option<Stage>) returns (response: Response)
      requires Valid()
      modifies this
      ensures Valid()
      ensures Outcome(response, rows, nextId) == Create(old(rows), old(nextId), req, fault)
    {
      if fault == Some(ReadBody) {
        return Response(500, ErrorBody(CreateFailed));
      }
      if req.stockName.None? || req.stockName.value == [] || req.ticker.None? || req.ticker.value == []
         || req.buyPrice.None? || req.buyPrice.value == 0.0 || req.userId.None? || req.userId.value == 0 {
        return Response(400, ErrorBody(MissingFields));
      }
      if fault.Some? {
        // `prisma.stock.create` throws
        return Response(500, ErrorBody(CreateFailed));
      }
      var newStock := Stock(nextId, req.stockName.value, req.ticker.value, req.buyPrice.value, req.userId.value);
      rows := rows + [newStock];
      nextId := nextId + 1;
      return Response(201, Created(newStock));
    }

    function Get(authorization: Option<string>, findFails: bool): (r: Response)
      reads this
      ensures !findFails ==> r.status == 200 && r.body.StockList? && r.body.stocks == rows
    {
      List(rows, authorization, findFails)
    }
  }

  /** No ownership scoping on reads: every caller, with any header or none, gets every owner's rows. */
  lemma ListIsNotScoped(rows: seq<Stock>, a1: Option<string>, a2: Option<string>, owner: int)
    ensures List(rows, a1, false) == List(rows, a2, false)
    ensures forall s :: s in rows && s.userId == owner ==> s in List(rows, a1, false).body.stocks
  {
  }

  /** No ownership enforcement on writes: the header does not affect what is stored, and the owner is the body's `userId`. */
  lemma CreateIgnoresToken(rows: seq<Stock>, nextId: int, req: Request, a1: Option<string>, a2: Option<string>,
                           fault: Option<Stage>)
    ensures Create(rows, nextId, req.(authorization := a1), fault) == Create(rows, nextId, req.(authorization := a2), fault)
  {
  }

  /** `quantity` and `currentPrice` in the body change nothing. */
  lemma CreateIgnoresExtraFields(rows: seq<Stock>, nextId: int, req: Request, q: Option<real>, c: Option<real>,
                                 fault: Option<Stage>)
    ensures Create(rows, nextId, req.(quantity := q, currentPrice := c), fault) == Create(rows, nextId, req, fault)
  {
  }

  /** A zero buy price counts as missing. */
  lemma ZeroPriceRejected(rows: seq<Stock>, nextId: int, req: Request)
    requires req.buyPrice == Some(0.0)
    ensures Create(rows, nextId, req, None) == Outcome(Response(400, ErrorBody(MissingFields)), rows, nextId)
  {
  }
}
