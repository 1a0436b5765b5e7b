/**
 What is asked before an order is placed: the branch, the region, the customer's address, and for every
 requested line a product that is available and in stock. Only then is stock reserved and the order stored.
 */
module Placement {
  import opened Types
  import opened Repositories
  import Effects
  import Services
  import Spec = ShardState

  /** A requested line, and a product as the core service describes it. */
  datatype Item = Item(product: nat, quantity: nat)
  datatype Product = Product(product: nat, isAvailable: bool, stock: int, price: nat)

  datatype UnavailableItem = UnavailableItem(product: nat, requested: nat, available: int)

  datatype Drafted = Drafts(lines: seq<Line>) | OutOfStock(items: seq<UnavailableItem>)

  /* ---- the lines of a draft ---- */

  /** When the core service lists a product twice, its last entry counts. */
  function Latest(products: seq<Product>, product: nat): Option<Product> {
    if products == [] then None
    else if products[|products| - 1].product == product then Some(products[|products| - 1])
    else Latest(products[..|products| - 1], product)
  }

  /** The last entry of a product. */
  predicate LastEntry(products: seq<Product>, product: nat, k: nat) {
    && k < |products| && products[k].product == product
    && forall i | k < i < |products| :: products[i].product != product
  }

  lemma {:induction false} LatestIsLast(products: seq<Product>, product: nat)
    ensures Latest(products, product).None? <==> forall i | 0 <= i < |products| :: products[i].product != product
    ensures forall k: nat | LastEntry(products, product, k) :: Latest(products, product) == Some(products[k])
  {
    if products != [] && products[|products| - 1].product != product {
      var init := products[..|products| - 1];
      LatestIsLast(init, product);
      assert forall i | 0 <= i < |init| :: products[i] == init[i];
      forall k: nat | LastEntry(products, product, k) ensures LastEntry(init, product, k) && init[k] == products[k] {}
    }
  }

  /** A line can be had iff the last entry of its product is on offer with enough in stock, and costs its price. */
  lemma LineIsLatest(products: seq<Product>, it: Item)
    ensures Available(products, it) <==>
              exists k: nat ::
                LastEntry(products, it.product, k) && products[k].isAvailable && products[k].stock >= it.quantity
    ensures forall k: nat | LastEntry(products, it.product, k) ::
              && (Available(products, it) ==> LineOf(products, it) == Line(it.product, it.quantity, products[k].price))
              && ShortageOf(products, it)
                 == UnavailableItem(it.product, it.quantity, if products[k].isAvailable then products[k].stock else 0)
    ensures (forall k | 0 <= k < |products| :: products[k].product != it.product) ==>
              ShortageOf(products, it) == UnavailableItem(it.product, it.quantity, 0)
  {
    LatestIsLast(products, it.product);
    if Latest(products, it.product).Some? {
      var k := LastEntryExists(products, it.product);
      assert LastEntry(products, it.product, k);
    }
  }

  lemma {:induction false} LastEntryExists(products: seq<Product>, product: nat) returns (k: nat)
    requires Latest(products, product).Some?
    ensures LastEntry(products, product, k)
  {
    k := |products| - 1;
    if products[k].product != product {
      k := LastEntryExists(products[..|products| - 1], product);
    }
  }

  predicate Available(products: seq<Product>, it: Item) {
    var p := Latest(products, it.product);
    p.Some? && p.value.isAvailable && p.value.stock >= it.quantity
  }

  function LineOf(products: seq<Product>, it: Item): Line
    requires Available(products, it)
  {
    Line(it.product, it.quantity, Latest(products, it.product).value.price)
  }

  /** What the refusal says of a line: how much of the product there is, and zero when it is not on offer. */
  function ShortageOf(products: seq<Product>, it: Item): UnavailableItem {
    var p := Latest(products, it.product);
    UnavailableItem(it.product, it.quantity, if p.Some? && p.value.isAvailable then p.value.stock else 0)
  }

  function LinesOf(products: seq<Product>, items: seq<Item>): seq<Line>
    requires forall i | 0 <= i < |items| :: Available(products, items[i])
  {
    seq(|items|, i requires 0 <= i < |items| => LineOf(products, items[i]))
  }

  /** The unavailable ones of the requested lines, in their order. */
  function Shortages(products: seq<Product>, items: seq<Item>): seq<UnavailableItem> {
    if items == [] then []
    else
      var rest, last := Shortages(products, items[..|items| - 1]), items[|items| - 1];
      if Available(products, last) then rest else rest + [ShortageOf(products, last)]
  }

  lemma {:induction false} ShortagesAre(products: seq<Product>, items: seq<Item>)
    ensures forall u :: u in Shortages(products, items) <==>
              exists i | 0 <= i < |items| :: !Available(products, items[i]) && u == ShortageOf(products, items[i])
    ensures Shortages(products, items) == [] <==> forall i | 0 <= i < |items| :: Available(products, items[i])
  {
    if items != [] {
      var init, last := items[..|items| - 1], items[|items| - 1];
      ShortagesAre(products, init);
      assert forall i | 0 <= i < |items| :: items[i] == if i < |init| then init[i] else last;
      forall u
        ensures u in Shortages(products, items) <==>
                exists i | 0 <= i < |items| :: !Available(products, items[i]) && u == ShortageOf(products, items[i])
      {
        if i :| 0 <= i < |init| && !Available(products, init[i]) && u == ShortageOf(products, init[i]) {
          assert items[i] == init[i];
        }
        assert items[|items| - 1] == last;
      }
    }
  }

  /** They come in the order of the requested lines, one for each that cannot be had. */
  lemma {:induction false} ShortagesInOrder(products: seq<Product>, xs: seq<Item>, ys: seq<Item>)
    ensures Shortages(products, xs + ys) == Shortages(products, xs) + Shortages(products, ys)
    ensures |xs| == 1 ==>
              Shortages(products, xs) == if Available(products, xs[0]) then [] else [ShortageOf(products, xs[0])]
  {
    if |xs| == 1 { assert xs[..0] == []; }
    if ys == [] {
      assert xs + ys == xs && Shortages(products, xs) + [] == Shortages(products, xs);
    } else {
      ShortagesInOrder(products, xs, ys[..|ys| - 1]);
      assert (xs + ys)[..|xs + ys| - 1] == xs + ys[..|ys| - 1];
    }
  }

  method IndexProducts(products: seq<Product>) returns (byProduct: map<nat, Product>)
    ensures forall p :: p in byProduct <==> Latest(products, p).Some?
    ensures forall p | p in byProduct :: Latest(products, p) == Some(byProduct[p])
  {
    byProduct := map[];
    for i := 0 to |products|
      invariant forall p :: p in byProduct <==> Latest(products[..i], p).Some?
      invariant forall p | p in byProduct :: Latest(products[..i], p) == Some(byProduct[p])
    {
      assert products[..i + 1][..i] == products[..i];
      byProduct := byProduct[products[i].product := products[i]];
    }
    assert products[..|products|] == products;
  }

  /** Every requested line at the price the product has now, or all the lines that cannot be had. */
  method BuildOrderLineDrafts(requested: seq<Item>, products: seq<Product>) returns (r: Drafted)
    ensures r.Drafts? <==> forall i | 0 <= i < |requested| :: Available(products, requested[i])
    ensures r.Drafts? ==> r.lines == LinesOf(products, requested) && |r.lines| == |requested|
                          && forall i | 0 <= i < |requested| :: r.lines[i] == LineOf(products, requested[i])
    ensures r.OutOfStock? ==> r.items == Shortages(products, requested) && r.items != []
  {
    var byProduct := IndexProducts(products);
    var unavailable: seq<UnavailableItem>, drafts: seq<Line> := [], [];
    for n := 0 to |requested|
      invariant unavailable == Shortages(products, requested[..n])
      invariant unavailable == [] ==>
                  (forall i | 0 <= i < n :: Available(products, requested[i]))
                    && drafts == LinesOf(products, requested[..n])
    {
      var it := requested[n];
      assert requested[..n + 1][..n] == requested[..n];
      if it.product !in byProduct || !byProduct[it.product].isAvailable {
        unavailable := unavailable + [UnavailableItem(it.product, it.quantity, 0)];
      } else if byProduct[it.product].stock < it.quantity {
        unavailable := unavailable + [UnavailableItem(it.product, it.quantity, byProduct[it.product].stock)];
      } else {
        drafts := drafts + [Line(it.product, it.quantity, byProduct[it.product].price)];
      }
    }
    assert requested[..|requested|] == requested;
    ShortagesAre(products, requested);
    r := if unavailable == [] then Drafts(drafts) else OutOfStock(unavailable);
  }

  /* ---- placement ---- */

  /** The branch as the core service and the reject flag describe it. */
  datatype Branch = Branch(
    id: BranchId, isActive: bool, acceptOrders: bool, restaurantActive: bool, rejecting: bool,
    restaurant: RestaurantId, owner: UserId, deliveryFee: nat, currency: Currency)

  /** The region of the order: whether the router knows it, and whether it takes online payments. */
  datatype Region = Region(known: bool, online: bool)

  datatype Refusal =
    | BranchNotAcceptingOrders | UnknownRegion | OnlinePaymentNotAvailable | NotYourAddress
    | LinesUnavailable(items: seq<UnavailableItem>) | StockNotReserved | NotStored(error: Services.Error)

  datatype Answer = Created | Refused(why: Refusal)

  predicate Accepting(b: Branch) {
    b.isActive && b.acceptOrders && b.restaurantActive && !b.rejecting
  }

  /** Everything that is asked before stock is reserved. */
  predicate Placeable(
    customer: UserId, payment: PaymentMethod, items: seq<Item>, b: Branch, region: Region, addressOwner: UserId,
    products: seq<Product>)
  {
    && Accepting(b) && region.known && (payment == Online ==> region.online) && addressOwner == customer
    && forall i | 0 <= i < |items| :: Available(products, items[i])
  }

  function DraftOf(customer: UserId, payment: PaymentMethod, lines: seq<Line>, b: Branch): Spec.Draft {
    Spec.Draft(b.restaurant, b.owner, b.id, customer, payment, b.currency, b.deliveryFee, lines)
  }

  /** The row of an order is the customer's request, priced and at the branch that was asked. */
  predicate OrderedFrom(ord: Order, customer: UserId, payment: PaymentMethod, lines: seq<Line>, b: Branch) {
    && ord.customer == customer && ord.payment == payment
    && ord.restaurant == b.restaurant && ord.owner == b.owner && ord.branch == b.id && ord.currency == b.currency
    && ord.subtotal == Spec.LinesTotal(lines) && ord.deliveryFee == b.deliveryFee
    && ord.total == ord.subtotal + b.deliveryFee + 1000
    && ord.status == (if payment == Online then PendingPayment else Placed) && ord.agent == None
  }

  /** What a request that may be placed leaves: the order at today's prices, or nothing but a stock release. */
  method PlaceOrder(
    shard: Shard, o: OrderId, customer: UserId, payment: PaymentMethod, items: seq<Item>, b: Branch, region: Region,
    addressOwner: UserId, products: seq<Product>, reserveOk: bool, commitOk: bool, providerOk: bool, voidOk: bool)
    returns (r: Answer)
    requires o !in shard.orders && o !in shard.reserved
    modifies shard
    ensures var placeable := Placeable(customer, payment, items, b, region, addressOwner, products);
            && (placeable && reserveOk ==>
                  var d := DraftOf(customer, payment, LinesOf(products, items), b);
                  var placed := Spec.PlaceOrder(old(shard.Rows()), o, d, commitOk);
                  shard.Rows() == if commitOk && payment == Online
                                  then Spec.InitPayment(placed, o, Services.InitResult(providerOk, voidOk)) else placed)
            && (!placeable || !reserveOk ==> shard.Rows() == old(shard.Rows()) && r.Refused? && !r.why.NotStored?)
            && (r == Refused(StockNotReserved) <==> placeable && !reserveOk)
    ensures r == Refused(BranchNotAcceptingOrders) <==> !Accepting(b)
    ensures r == Refused(UnknownRegion) <==> Accepting(b) && !region.known
    ensures r == Refused(OnlinePaymentNotAvailable)
            <==> Accepting(b) && region.known && payment == Online && !region.online
    ensures r == Refused(NotYourAddress) <==>
              Accepting(b) && region.known && (payment == Online ==> region.online) && addressOwner != customer
    ensures r.Refused? && r.why.LinesUnavailable? <==>
              Accepting(b) && region.known && (payment == Online ==> region.online) && addressOwner == customer
                && exists i | 0 <= i < |items| :: !Available(products, items[i])
    ensures r.Refused? && r.why.LinesUnavailable? ==> r.why.items == Shortages(products, items) && r.why.items != []
    ensures var stored := Placeable(customer, payment, items, b, region, addressOwner, products) && reserveOk;
            && (r == Refused(NotStored(Services.DatabaseError)) <==> stored && !commitOk)
            && (r == Refused(NotStored(Services.PaymentProviderUnavailable)) <==>
                  stored && commitOk && payment == Online && !providerOk
                    && !Effects.HasOpen(old(shard.sessions), o))
            && (r == Created <==>
                  stored && commitOk && (payment == Online ==> providerOk || Effects.HasOpen(old(shard.sessions), o)))
    ensures r == Created ==>
              && o in shard.orders && Placeable(customer, payment, items, b, region, addressOwner, products)
              && OrderedFrom(shard.orders[o], customer, payment, LinesOf(products, items), b)
  {
    Effects.OpenFound(shard.sessions, o);
    if !b.isActive || !b.acceptOrders || !b.restaurantActive || b.rejecting {
      return Refused(BranchNotAcceptingOrders);
    }
    if !region.known { return Refused(UnknownRegion); }
    if payment == Online && !region.online { return Refused(OnlinePaymentNotAvailable); }
    if addressOwner != customer { return Refused(NotYourAddress); }
    var drafted := BuildOrderLineDrafts(items, products);
    if drafted.OutOfStock? { return Refused(LinesUnavailable(drafted.items)); }
    if !reserveOk { return Refused(StockNotReserved); }
    var stored := Services.ReserveAndStore(shard, o, DraftOf(customer, payment, drafted.lines, b), commitOk,
      providerOk, voidOk);
    r := if stored.Ok? then Created else Refused(NotStored(stored.error));
  }
}
