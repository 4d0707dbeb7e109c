/** The order-loading service (`LoadOrderService.js`): an order record is
    decorated with its product, buyer and seller and with display strings.

    The collaborators the service calls but whose code is not part of this
    model (the product loader, the `User` and `Order` stores, and the
    `formatPrice` and `date` helpers) are the fields of a `Store`; a lookup
    that throws returns `Threw`.  `format`, `order` and `orders` catch every
    such throw and give `null` (JavaScript's `undefined`); `load` has no
    `try`, and asked for a name that is not a method it throws a
    `TypeError` to its caller. */
module LoadOrderService {
  import opened Wrappers

  type Id = int

  /** `{ where: { <column>: <value> } }`. */
  datatype Filter = Where(column: string, value: Id)

  /** A product or user record, as the stores return it. */
  datatype Row = Row(id: Id, columns: map<string, string>)

  /** What the `date` helper gives back, each part in its printed form. */
  datatype DateParts = DateParts(day: string, month: string, year: string, hour: string, minutes: string)

  /** The outcome of a call into a collaborator. */
  datatype Attempt<+T> = Returned(value: T) | Threw(error: string)

  /** The persisted columns of an order, which the service only reads. */
  datatype Columns = Columns(id: Id, productId: Id, buyerId: Id, sellerId: Id,
                             price: int, total: int, status: string, updatedAt: int)

  /** The fields the service attaches to an order (`None`: not set, or set to
      `null`/`undefined`). */
  datatype Decoration = Decoration(product: Option<Row>, buyer: Option<Row>, seller: Option<Row>,
                                   formattedPrice: Option<string>, formattedTotal: Option<string>,
                                   formattedStatus: Option<string>, formattedUpdatedAt: Option<string>)

  const UNDECORATED: Decoration := Decoration(None, None, None, None, None, None, None)

  /** An order object as the `Order` store hands it out. */
  class OrderRecord {
    const columns: Columns
    var product: Option<Row>
    var buyer: Option<Row>
    var seller: Option<Row>
    var formattedPrice: Option<string>
    var formattedTotal: Option<string>
    var formattedStatus: Option<string>
    var formattedUpdatedAt: Option<string>

    function Decor(): Decoration
      reads this
    {
      Decoration(product, buyer, seller, formattedPrice, formattedTotal, formattedStatus, formattedUpdatedAt)
    }

    constructor (columns: Columns)
      ensures this.columns == columns && Decor() == UNDECORATED
    {
      this.columns := columns;
      product, buyer, seller := None, None, None;
      formattedPrice, formattedTotal, formattedStatus, formattedUpdatedAt := None, None, None, None;
    }
  }

  /** The collaborators: `LoadProductService.load`, `User.findOne`,
      `Order.findOne` and `Order.findAll` (the rows they read; the order
      objects are built by `Instantiate`), `formatPrice` and `date`. */
  datatype Store = Store(loadProduct: (string, Filter) -> Attempt<Option<Row>>,
                         findUser: Filter -> Attempt<Option<Row>>,
                         findOrder: Option<Filter> -> Attempt<Option<Columns>>,
                         findOrders: Option<Filter> -> Attempt<seq<Columns>>,
                         formatPrice: int -> string,
                         date: int -> DateParts)

  /** The product is loaded in the mode that also returns soft-deleted products. */
  const PRODUCT_MODE: string := "productWithDeleted"

  /** The status table of `format`. */
  const STATUSES: map<string, string> := map["open" := "Aberto", "sold" := "Vendido", "canceled" := "Cancelado"]

  /** `statuses[order.status]`: the caption, or `None` (undefined) for any
      other status. */
  function StatusLabel(status: string): (r: Option<string>)
    ensures r == Some("Aberto") <==> status == "open"
    ensures r == Some("Vendido") <==> status == "sold"
    ensures r == Some("Cancelado") <==> status == "canceled"
    ensures r == None <==> status != "open" && status != "sold" && status != "canceled"
  {
    if status in STATUSES then Some(STATUSES[status]) else None
  }

  /** How a template literal prints an optional value: `undefined` when absent. */
  function Printed(v: Option<string>): (r: string)
    ensures v.Some? ==> r == v.value
    ensures v.None? ==> r == "undefined"
  {
    if v.Some? then v.value else "undefined"
  }

  /** The `formattedUpdatedAt` template: the sentence opens with the printed
      caption (`undefined` when there is none) and " em ", then carries the
      date as `day/month/year`, and ends with " às <hour>h<minutes>". */
  function UpdatedAtSentence(caption: Option<string>, at: DateParts): (s: string)
    ensures var opening := Printed(caption) + " em ";
            var dmy := at.day + "/" + at.month + "/" + at.year;
            var time := " às " + at.hour + "h" + at.minutes;
            |opening| + |dmy| <= |s| && s[..|opening|] == opening && s[|opening|..][..|dmy|] == dmy &&
            s[|opening| + |dmy|..] == time
    ensures caption == None ==> s[..9] == "undefined"
  {
    var opening := Printed(caption) + " em ";
    var dmy := at.day + "/" + at.month + "/" + at.year;
    var tail := " às " + at.hour + "h" + at.minutes;
    assert (opening + (dmy + tail))[|opening|..] == dmy + tail;
    assert (opening + (dmy + tail))[|opening| + |dmy|..] == tail;
    assert caption == None ==> (opening + (dmy + tail))[..9] == opening[..9];
    opening + (dmy + tail)
  }

  /** What `format` does to an order's decorations, and whether it returns
      the order (`true`) or, after a caught throw, `undefined` (`false`). */
  datatype Formatted = Formatted(after: Decoration, returned: bool)

  function ProductLookup(store: Store, c: Columns): Attempt<Option<Row>> {
    store.loadProduct(PRODUCT_MODE, Where("id", c.productId))
  }

  function BuyerLookup(store: Store, c: Columns): Attempt<Option<Row>> {
    store.findUser(Where("id", c.buyerId))
  }

  function SellerLookup(store: Store, c: Columns): Attempt<Option<Row>> {
    store.findUser(Where("id", c.sellerId))
  }

  /** The specification of `format` on an order with columns `c` and
      decorations `before`: the three lookups in turn, each stored as soon as
      it returns, then the display strings; a throw stops it where it is. */
  function FormatSpec(store: Store, c: Columns, before: Decoration): (f: Formatted)
    ensures f.returned <==>
            !ProductLookup(store, c).Threw? && !BuyerLookup(store, c).Threw? && !SellerLookup(store, c).Threw?
  {
    var p := ProductLookup(store, c);
    if p.Threw? then Formatted(before, false)
    else
      var d1 := before.(product := p.value);
      var b := BuyerLookup(store, c);
      if b.Threw? then Formatted(d1, false)
      else
        var d2 := d1.(buyer := b.value);
        var s := SellerLookup(store, c);
        if s.Threw? then Formatted(d2, false)
        else
          var caption := StatusLabel(c.status);
          var d3 := d2.(seller := s.value,
                        formattedPrice := Some(store.formatPrice(c.price)),
                        formattedTotal := Some(store.formatPrice(c.total)),
                        formattedStatus := caption,
                        formattedUpdatedAt := Some(UpdatedAtSentence(caption, store.date(c.updatedAt))));
          Formatted(d3, true)
  }

  // ---------------------------------------------------------------------------
  // Properties of the table, the sentence and `format`

  /** Different statuses never share a caption. */
  lemma StatusLabelInjective(s: string, t: string)
    requires StatusLabel(s).Some? && StatusLabel(s) == StatusLabel(t)
    ensures s == t
  {
  }

  /** When `format` returns the order, every display field is set as the
      source writes it. */
  lemma FormatReturnsOrder(store: Store, c: Columns, before: Decoration)
    ensures var f := FormatSpec(store, c, before);
            f.returned ==>
              f.after.product == ProductLookup(store, c).value &&
              f.after.buyer == BuyerLookup(store, c).value &&
              f.after.seller == SellerLookup(store, c).value &&
              f.after.formattedPrice == Some(store.formatPrice(c.price)) &&
              f.after.formattedTotal == Some(store.formatPrice(c.total)) &&
              f.after.formattedStatus == StatusLabel(c.status) &&
              f.after.formattedUpdatedAt == Some(UpdatedAtSentence(StatusLabel(c.status), store.date(c.updatedAt)))
  {
  }

  /** A throw leaves the display fields as they were; only the lookups that
      returned before it have been stored. */
  lemma FormatStopsAtThrow(store: Store, c: Columns, before: Decoration)
    requires !FormatSpec(store, c, before).returned
    ensures var a := FormatSpec(store, c, before).after;
            a.formattedPrice == before.formattedPrice && a.formattedTotal == before.formattedTotal &&
            a.formattedStatus == before.formattedStatus && a.formattedUpdatedAt == before.formattedUpdatedAt &&
            a.seller == before.seller &&
            (ProductLookup(store, c).Threw? ==> a == before) &&
            (!ProductLookup(store, c).Threw? ==> a.product == ProductLookup(store, c).value) &&
            (!ProductLookup(store, c).Threw? && BuyerLookup(store, c).Threw? ==> a.buyer == before.buyer) &&
            (!ProductLookup(store, c).Threw? && !BuyerLookup(store, c).Threw? ==> a.buyer == BuyerLookup(store, c).value)
  {
  }

  /** The lookups do not depend on what was attached before, so formatting an
      order a second time changes nothing more. */
  lemma FormatIdempotent(store: Store, c: Columns, before: Decoration)
    ensures FormatSpec(store, c, FormatSpec(store, c, before).after) == FormatSpec(store, c, before)
  {
  }

  // ---------------------------------------------------------------------------
  // The service

  /** `format(order)`: an absent order makes `order.product_id` throw, which is
      caught; otherwise the order is decorated in place and returned. */
  method Format(store: Store, order: OrderRecord?) returns (r: OrderRecord?)
    modifies order
    ensures order == null ==> r == null
    ensures order != null ==>
              var f := FormatSpec(store, order.columns, old(order.Decor()));
              order.Decor() == f.after && r == (if f.returned then order else null)
  {
    if order == null {
      return null;
    }
    var p := ProductLookup(store, order.columns);
    if p.Threw? {
      return null;
    }
    order.product := p.value;
    var b := BuyerLookup(store, order.columns);
    if b.Threw? {
      return null;
    }
    order.buyer := b.value;
    var s := SellerLookup(store, order.columns);
    if s.Threw? {
      return null;
    }
    order.seller := s.value;
    order.formattedPrice := Some(store.formatPrice(order.columns.price));
    order.formattedTotal := Some(store.formatPrice(order.columns.total));
    order.formattedStatus := StatusLabel(order.columns.status);
    var updatedAt := store.date(order.columns.updatedAt);
    order.formattedUpdatedAt := Some(UpdatedAtSentence(order.formattedStatus, updatedAt));
    return order;
  }

  /** `orders.map(format)`, the formats run one after the other: one result per
      order, in the store's order.  An order listed twice is formatted twice,
      which by `FormatIdempotent` ends as formatting it once. */
  method FormatAll(store: Store, list: seq<OrderRecord>) returns (r: seq<OrderRecord?>)
    modifies set o | o in list
    ensures |r| == |list|
    ensures forall k :: 0 <= k < |list| ==>
              var f := FormatSpec(store, list[k].columns, old(list[k].Decor()));
              list[k].Decor() == f.after && r[k] == (if f.returned then list[k] else null)
  {
    r := [];
    var i := 0;
    while i < |list|
      invariant 0 <= i <= |list| && |r| == i
      invariant forall k :: 0 <= k < |list| ==>
                  list[k].Decor() == if list[k] in list[..i]
                                     then FormatSpec(store, list[k].columns, old(list[k].Decor())).after
                                     else old(list[k].Decor())
      invariant forall k :: 0 <= k < i ==>
                  r[k] == if FormatSpec(store, list[k].columns, old(list[k].Decor())).returned then list[k] else null
    {
      var o := list[i];
      FormatIdempotent(store, o.columns, old(o.Decor()));
      var one := Format(store, o);
      assert list[..i + 1] == list[..i] + [o];
      r := r + [one];
      i := i + 1;
    }
    assert list[..i] == list;
  }

  /** The order objects `Order.findAll` builds from the rows it reads: one
      new, undecorated object per row, in the rows' order. */
  method Instantiate(rows: seq<Columns>) returns (list: seq<OrderRecord>)
    ensures |list| == |rows|
    ensures forall k :: 0 <= k < |rows| ==> fresh(list[k]) && list[k].columns == rows[k] && list[k].Decor() == UNDECORATED
  {
    list := [];
    var i := 0;
    while i < |rows|
      invariant 0 <= i <= |rows| && |list| == i
      invariant forall k :: 0 <= k < i ==> fresh(list[k]) && list[k].columns == rows[k] && list[k].Decor() == UNDECORATED
    {
      var o := new OrderRecord(rows[i]);
      list := list + [o];
      i := i + 1;
    }
  }

  /** The reply of `load(service, filter)`: a single order, a list of orders,
      or the `TypeError` of calling a member that is not a method. */
  datatype Answer = One(order: OrderRecord?) | Many(orders: Option<seq<OrderRecord?>>) | TypeError

  /** The `LoadService` object: `load` stores the filter in the shared
      `this.filter`, which `order` and `orders` then read. */
  class LoadService {
    var filter: Option<Filter>

    constructor ()
      ensures filter == None
    {
      filter := None;
    }

    /** `order()`: `Order.findOne(this.filter)`, then `format`.  The result
        is the new order object, decorated, or `null` when the store finds
        nothing or a call throws. */
    method Order(store: Store) returns (r: OrderRecord?)
      ensures var found := store.findOrder(filter);
              if found.Threw? || found.value == None then r == null
              else
                var f := FormatSpec(store, found.value.value, UNDECORATED);
                (r != null <==> f.returned) &&
                (r != null ==> fresh(r) && r.columns == found.value.value && r.Decor() == f.after)
    {
      var found := store.findOrder(filter);
      if found.Threw? {
        return null;
      }
      var order: OrderRecord? := null;
      if found.value.Some? {
        order := new OrderRecord(found.value.value);
      }
      r := Format(store, order);
    }

    /** `orders()`: `Order.findAll(this.filter)`, then `format` on each; one
        entry per row, in the store's order, `null` where `format` caught a
        throw; `None` when the store throws. */
    method Orders(store: Store) returns (r: Option<seq<OrderRecord?>>)
      ensures var found := store.findOrders(filter);
              if found.Threw? then r == None
              else
                r.Some? && |r.value| == |found.value| &&
                forall k :: 0 <= k < |found.value| ==>
                  var f := FormatSpec(store, found.value[k], UNDECORATED);
                  (r.value[k] != null <==> f.returned) &&
                  (r.value[k] != null ==> fresh(r.value[k]) && r.value[k].columns == found.value[k] && r.value[k].Decor() == f.after)
    {
      var found := store.findOrders(filter);
      if found.Threw? {
        return None;
      }
      var list := Instantiate(found.value);
      var all := FormatAll(store, list);
      r := Some(all);
    }

    /** `load(service, filter)`: the filter is stored, then the member named
        `service` is called.  `format` is called without an order; `load`
        calls itself with no arguments, storing `undefined` as the filter and
        failing to find a method; any other name is not a method. */
    method Load(store: Store, service: string, filter: Filter) returns (a: Answer)
      modifies this
      ensures this.filter == if service == "load" then None else Some(filter)
      ensures service == "order" ==>
                a.One? &&
                var found := store.findOrder(Some(filter));
                if found.Threw? || found.value == None then a.order == null
                else
                  var f := FormatSpec(store, found.value.value, UNDECORATED);
                  (a.order != null <==> f.returned) &&
                  (a.order != null ==> fresh(a.order) && a.order.columns == found.value.value && a.order.Decor() == f.after)
      ensures service == "orders" ==>
                a.Many? &&
                var found := store.findOrders(Some(filter));
                if found.Threw? then a.orders == None
                else
                  a.orders.Some? && |a.orders.value| == |found.value| &&
                  forall k :: 0 <= k < |found.value| ==>
                    var f := FormatSpec(store, found.value[k], UNDECORATED);
                    (a.orders.value[k] != null <==> f.returned) &&
                    (a.orders.value[k] != null ==> fresh(a.orders.value[k]) && a.orders.value[k].columns == found.value[k] &&
                                                   a.orders.value[k].Decor() == f.after)
      ensures service == "format" ==> a == One(null)
      ensures service != "order" && service != "orders" && service != "format" ==> a == TypeError
    {
      this.filter := Some(filter);
      if service == "order" {
        var r := Order(store);
        a := One(r);
      } else if service == "orders" {
        var r := Orders(store);
        a := Many(r);
      } else if service == "format" {
        var r := Format(store, null);
        a := One(r);
      } else if service == "load" {
        this.filter := None;
        a := TypeError;
      } else {
        a := TypeError;
      }
    }
  }
}
