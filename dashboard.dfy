/**
 * The in-memory dashboard (src/app/dashboard/page.tsx): a list of holdings
 * edited through a dialog. Adding appends, editing replaces by id, deleting
 * filters by id.
 */
module Dashboard {
  import opened Wrappers
  import opened Portfolio

  /**
   * The dialog's form. The numeric inputs are held as the numbers `Number(...)`
   * gives for them; the empty input `''` is 0, as `Number('')` is.
   */
  datatype Form = Form(name: string, ticker: string, quantity: real, buyPrice: real)

  const EmptyForm := Form("", "", 0.0, 0.0)

  /** The two holdings the page starts with. */
  const InitialStocks := [
    Holding(1, "Apple Inc", "AAPL", 10.0, 150.0, 175.0),
    Holding(2, "Microsoft", "MSFT", 5.0, 280.0, 310.0)
  ]

  /** `handleEdit` fills the form from a holding. */
  function FormOf(stock: Holding): Form {
    Form(stock.name, stock.ticker, stock.quantity, stock.buyPrice)
  }

  /**
   * `handleSubmit`'s `newStock`: the form's fields, the edited holding's id or
   * the clock reading `now` (`Date.now()`), and a current price equal to the
   * buy price.
   */
  function NewStock(form: Form, editing: Option<Holding>, now: int): (h: Holding)
    ensures FormOf(h) == form
    ensures h.currentPrice == h.buyPrice
    ensures editing.Some? ==> h.id == editing.value.id
    ensures editing.None? ==> h.id == now
  {
    Holding(if editing.Some? then editing.value.id else now, form.name, form.ticker, form.quantity, form.buyPrice, form.buyPrice)
  }

  /** `stocks.map(stock => stock.id === id ? h : stock)`. */
  function ReplaceById(stocks: seq<Holding>, id: int, h: Holding): (r: seq<Holding>)
    ensures |r| == |stocks|
    ensures forall i :: 0 <= i < |stocks| ==> r[i] == if stocks[i].id == id then h else stocks[i]
  {
    if stocks == [] then []
    else [if stocks[0].id == id then h else stocks[0]] + ReplaceById(stocks[1..], id, h)
  }

  /** `stocks.filter(stock => stock.id !== id)`. */
  function RemoveById(stocks: seq<Holding>, id: int): (r: seq<Holding>)
    ensures |r| <= |stocks|
    ensures forall x :: x in r <==> x in stocks && x.id != id
  {
    if stocks == [] then []
    else (if stocks[0].id != id then [stocks[0]] else []) + RemoveById(stocks[1..], id)
  }

  /** The holdings with a given id: what `RemoveById` drops. */
  function WithId(stocks: seq<Holding>, id: int): (r: seq<Holding>)
    ensures forall x :: x in r <==> x in stocks && x.id == id
  {
    if stocks == [] then []
    else (if stocks[0].id == id then [stocks[0]] else []) + WithId(stocks[1..], id)
  }

  /** The list after a submit: replace the edited holding, or append a new one. */
  function Submitted(stocks: seq<Holding>, editing: Option<Holding>, h: Holding): seq<Holding> {
    if editing.Some? then ReplaceById(stocks, editing.value.id, h) else stocks + [h]
  }

  /** Filtering keeps the relative order: it distributes over concatenation. */
  lemma {:induction false} RemoveConcat(a: seq<Holding>, b: seq<Holding>, id: int)
    ensures RemoveById(a + b, id) == RemoveById(a, id) + RemoveById(b, id)
    decreases |a|
  {
    if a == [] {
      assert a + b == b;
    } else {
      assert (a + b)[1..] == a[1..] + b;
      RemoveConcat(a[1..], b, id);
    }
  }

  /** Deleting an id that is not in the list changes nothing. */
  lemma {:induction false} RemoveAbsent(stocks: seq<Holding>, id: int)
    requires forall i :: 0 <= i < |stocks| ==> stocks[i].id != id
    ensures RemoveById(stocks, id) == stocks
    decreases |stocks|
  {
    if stocks != [] {
      RemoveAbsent(stocks[1..], id);
      assert [stocks[0]] + stocks[1..] == stocks;
    }
  }

  /** Deleting twice is deleting once. */
  lemma RemoveIdempotent(stocks: seq<Holding>, id: int)
    ensures RemoveById(RemoveById(stocks, id), id) == RemoveById(stocks, id)
  {
    var r := RemoveById(stocks, id);
    forall i | 0 <= i < |r| ensures r[i].id != id {
      assert r[i] in r;
    }
    RemoveAbsent(r, id);
  }

  /** Editing a holding and then deleting it is the same as deleting it. */
  lemma {:induction false} RemoveAfterReplace(stocks: seq<Holding>, id: int, h: Holding)
    requires h.id == id
    ensures RemoveById(ReplaceById(stocks, id, h), id) == RemoveById(stocks, id)
    decreases |stocks|
  {
    if stocks != [] {
      var r := ReplaceById(stocks, id, h);
      assert r[1..] == ReplaceById(stocks[1..], id, h);
      RemoveAfterReplace(stocks[1..], id, h);
    }
  }

  /** Deleting removes exactly the totals of the deleted holdings. */
  lemma {:induction false} MetricsAfterRemove(stocks: seq<Holding>, id: int)
    ensures CalculateMetrics(stocks) == Plus(CalculateMetrics(RemoveById(stocks, id)), CalculateMetrics(WithId(stocks, id)))
    decreases |stocks|
  {
    if stocks == [] {
      assert RemoveById(stocks, id) == [] && WithId(stocks, id) == [];
    } else {
      var x, rest := stocks[0], stocks[1..];
      var kept, dropped := RemoveById(rest, id), WithId(rest, id);
      var mx, mk, md := CalculateMetrics([x]), CalculateMetrics(kept), CalculateMetrics(dropped);
      assert stocks == [x] + rest;
      MetricsConcat([x], rest);
      MetricsAfterRemove(rest, id);
      assert CalculateMetrics(stocks) == Plus(mx, Plus(mk, md));
      if x.id == id {
        assert RemoveById(stocks, id) == kept;
        assert WithId(stocks, id) == [x] + dropped;
        MetricsConcat([x], dropped);
        PlusExchange(mx, mk, md);
      } else {
        assert RemoveById(stocks, id) == [x] + kept;
        assert WithId(stocks, id) == dropped;
        MetricsConcat([x], kept);
        PlusAssociative(mx, mk, md);
      }
    }
  }

  lemma PlusExchange(a: Totals, b: Totals, c: Totals)
    ensures Plus(a, Plus(b, c)) == Plus(b, Plus(a, c))
  {
  }

  lemma PlusAssociative(a: Totals, b: Totals, c: Totals)
    ensures Plus(a, Plus(b, c)) == Plus(Plus(a, b), c)
  {
  }

  /** Opening a holding for editing and submitting the form untouched keeps its id and fields. */
  lemma EditRoundTrip(stock: Holding, now: int)
    ensures NewStock(FormOf(stock), Some(stock), now) == stock.(currentPrice := stock.buyPrice)
  {
  }

  /** The dashboard's state: its `useState` hooks. */
  class Page {
    var stocks: seq<Holding>
    var isDialogOpen: bool
    var editingStock: Option<Holding>
    var formData: Form

    constructor ()
      ensures stocks == InitialStocks && !isDialogOpen && editingStock == None && formData == EmptyForm
    {
      stocks := InitialStocks;
      isDialogOpen := false;
      editingStock := None;
      formData := EmptyForm;
    }

    /** `metrics`, recomputed from the current list. */
    function Metrics(): (t: Totals)
      reads this
      ensures t.totalProfit == t.currentValue - t.totalInvested
    {
      CalculateMetrics(stocks)
    }

    /** `handleSubmit`; `now` is the `Date.now()` reading that becomes a new holding's id. */
    method HandleSubmit(now: int)
      modifies this
      ensures stocks == Submitted(old(stocks), old(editingStock), NewStock(old(formData), old(editingStock), now))
      ensures !isDialogOpen && editingStock == None && formData == EmptyForm
      // adding: the new holding goes at the end and nothing before it moves
      ensures old(editingStock).None? ==>
                && |stocks| == |old(stocks)| + 1
                && stocks[..|old(stocks)|] == old(stocks)
                && stocks[|old(stocks)|] == NewStock(old(formData), None, now)
                && Metrics() == Plus(old(Metrics()), CalculateMetrics([stocks[|old(stocks)|]]))
      // editing: same length and order; holdings with the edited id become the new one, which keeps that id
      ensures old(editingStock).Some? ==>
                && |stocks| == |old(stocks)|
                && forall i :: 0 <= i < |stocks| ==>
                     stocks[i] == if old(stocks)[i].id == old(editingStock).value.id
                                  then NewStock(old(formData), old(editingStock), now) else old(stocks)[i]
    {
      var newStock := NewStock(formData, editingStock, now);
      if editingStock.Some? {
        stocks := ReplaceById(stocks, editingStock.value.id, newStock);
      } else {
        ghost var before := stocks;
        MetricsAppend(before, newStock);
        stocks := stocks + [newStock];
        assert stocks[..|before|] == before;
      }
      isDialogOpen := false;
      editingStock := None;
      formData := EmptyForm;
    }

    /** `handleEdit`: remember the holding, fill the form from it, open the dialog. */
    method HandleEdit(stock: Holding)
      modifies this
      ensures editingStock == Some(stock) && formData == FormOf(stock) && isDialogOpen
      ensures stocks == old(stocks)
    {
      editingStock := Some(stock);
      formData := FormOf(stock);
      isDialogOpen := true;
    }

    /** `handleDelete`: drop every holding with the id, keep the rest in order. */
    method HandleDelete(stockId: int)
      modifies this
      ensures stocks == RemoveById(old(stocks), stockId)
      ensures isDialogOpen == old(isDialogOpen) && editingStock == old(editingStock) && formData == old(formData)
      // the totals drop by exactly the deleted holdings' totals
      ensures old(Metrics()) == Plus(Metrics(), CalculateMetrics(WithId(old(stocks), stockId)))
    {
      MetricsAfterRemove(stocks, stockId);
      stocks := RemoveById(stocks, stockId);
    }

    /** The "Add Stock" button: clear the edit target and the form, open the dialog. */
    method OpenAddDialog()
      modifies this
      ensures editingStock == None && formData == EmptyForm && isDialogOpen
      ensures stocks == old(stocks)
    {
      editingStock := None;
      formData := EmptyForm;
      isDialogOpen := true;
    }
  }

  /** Edit, then submit untouched: the list keeps its length and every holding's name, ticker, quantity and price. */
  method EditThenSubmit(page: Page, stock: Holding, now: int)
    modifies page
    ensures |page.stocks| == |old(page.stocks)|
    ensures forall i :: 0 <= i < |page.stocks| ==>
              page.stocks[i] == if old(page.stocks)[i].id == stock.id
                                then stock.(currentPrice := stock.buyPrice) else old(page.stocks)[i]
  {
    page.HandleEdit(stock);
    page.HandleSubmit(now);
    EditRoundTrip(stock, now);
  }
}
