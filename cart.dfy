/**
 * The cart page's pricing engine: subtotal, the per-currency free-shipping
 * step, the certification eco-discount capped at 10% per line, and the total,
 * all in exact arithmetic; plus the quantity controls and the impact summary.
 */
module Cart {
  import opened Wrappers
  import opened Data
  import opened CommerceSlice
  import Seqs

  /** The settlement currency chosen on the cart page. */
  datatype Currency = USD | V | Y

  function PriceIn(p: Prices, c: Currency): real {
    match c
    case USD => p.usd
    case V => p.v
    case Y => p.y
  }

  /** `item.product.price[currency] * item.quantity`. */
  function LineTotal(item: CartItem, c: Currency): real {
    PriceIn(item.product.price, c) * item.quantity as real
  }

  /** `Math.min(certCount * 0.02, 0.1)`. */
  function DiscountRate(certCount: nat): (r: real)
    ensures 0.0 <= r <= 0.1
    ensures certCount == 0 ==> r == 0.0
    ensures certCount <= 5 ==> r == 0.02 * certCount as real
    ensures certCount >= 5 ==> r == 0.1
  {
    if certCount as real * 0.02 <= 0.1 then certCount as real * 0.02 else 0.1
  }

  /** The per-line quantities the page sums with `reduce`. */
  datatype LineAmount =
    | Price(c: Currency)     // the line total
    | Discount(c: Currency)  // the line total times the line's discount rate
    | Carbon                 // carbonFootprint times quantity

  function Amount(a: LineAmount, item: CartItem): real {
    match a
    case Price(c) => LineTotal(item, c)
    case Discount(c) => LineTotal(item, c) * DiscountRate(|item.product.certifications|)
    case Carbon => item.product.impact.carbonFootprint * item.quantity as real
  }

  /** `cart.reduce((sum, item) => sum + amount(item), 0)`, folded from the left. */
  function Sum(cart: seq<CartItem>, a: LineAmount): real {
    if cart == [] then 0.0 else Sum(cart[..|cart| - 1], a) + Amount(a, cart[|cart| - 1])
  }

  function Subtotal(cart: seq<CartItem>, c: Currency): real { Sum(cart, Price(c)) }

  function EcoDiscount(cart: seq<CartItem>, c: Currency): real { Sum(cart, Discount(c)) }

  function CarbonOffset(cart: seq<CartItem>): real { Sum(cart, Carbon) }

  /** The number of certifications the order supports: one count per line, whatever its quantity. */
  function CertificationsSupported(cart: seq<CartItem>): nat {
    if cart == [] then 0
    else CertificationsSupported(cart[..|cart| - 1]) + |cart[|cart| - 1].product.certifications|
  }

  function FreeShippingThreshold(c: Currency): real {
    match c
    case USD => 100.0
    case V => 100.0
    case Y => 75.0
  }

  function ShippingFee(c: Currency): real {
    match c
    case USD => 10.0
    case V => 10.0
    case Y => 7.0
  }

  function Shipping(subtotal: real, c: Currency): real {
    if subtotal >= FreeShippingThreshold(c) then 0.0 else ShippingFee(c)
  }

  datatype Totals = Totals(subtotal: real, shipping: real, ecoDiscount: real, total: real)

  /** The `useMemo` that computes the order summary. */
  function ComputeTotals(cart: seq<CartItem>, c: Currency): (t: Totals)
    ensures t.subtotal == Subtotal(cart, c)
    ensures t.shipping == Shipping(t.subtotal, c)
    ensures t.ecoDiscount == EcoDiscount(cart, c)
    ensures t.total == t.subtotal + t.shipping - t.ecoDiscount
  {
    var subtotal := Subtotal(cart, c);
    var shipping := Shipping(subtotal, c);
    var ecoDiscount := EcoDiscount(cart, c);
    Totals(subtotal, shipping, ecoDiscount, subtotal + shipping - ecoDiscount)
  }

  /** Every line has a non-negative price in `c` and a non-negative quantity. */
  ghost predicate NonNegative(cart: seq<CartItem>, c: Currency) {
    forall i :: 0 <= i < |cart| ==> PriceIn(cart[i].product.price, c) >= 0.0 && cart[i].quantity >= 0
  }

  // ---------------------------------------------------------------- sums

  lemma {:induction false} SumConcat(a: seq<CartItem>, b: seq<CartItem>, m: LineAmount)
    ensures Sum(a + b, m) == Sum(a, m) + Sum(b, m)
    decreases |b|
  {
    if b == [] {
      assert a + b == a;
    } else {
      var b' := b[..|b| - 1];
      assert (a + b)[..|a + b| - 1] == a + b';
      SumConcat(a, b', m);
    }
  }

  lemma SumSingle(x: CartItem, m: LineAmount)
    ensures Sum([x], m) == Amount(m, x)
  {
    assert [x][..0] == [];
  }

  /** Replacing one line changes a sum by the difference of that line's amounts. */
  lemma SumUpdate(cart: seq<CartItem>, i: int, x: CartItem, m: LineAmount)
    requires 0 <= i < |cart|
    ensures Sum(cart[i := x], m) == Sum(cart, m) - Amount(m, cart[i]) + Amount(m, x)
  {
    assert cart == cart[..i] + [cart[i]] + cart[i + 1..];
    assert cart[i := x] == cart[..i] + [x] + cart[i + 1..];
    SumConcat(cart[..i] + [cart[i]], cart[i + 1..], m);
    SumConcat(cart[..i], [cart[i]], m);
    SumConcat(cart[..i] + [x], cart[i + 1..], m);
    SumConcat(cart[..i], [x], m);
    SumSingle(cart[i], m);
    SumSingle(x, m);
  }

  // ---------------------------------------------------------------- pricing properties

  /** An empty cart: subtotal 0 and, in USD, the full 10 shipping, no discount, total 10. */
  lemma EmptyCartTotals()
    ensures ComputeTotals([], USD) == Totals(0.0, 10.0, 0.0, 10.0)
    ensures forall c :: ComputeTotals([], c).subtotal == 0.0 && ComputeTotals([], c).total == ShippingFee(c)
  {
  }

  /**
   * Shipping is a step in the subtotal: the fee below the currency's
   * threshold, zero at or above it, and never larger for a larger subtotal.
   */
  lemma ShippingStep(s1: real, s2: real, c: Currency)
    ensures Shipping(s1, c) == 0.0 <==> s1 >= FreeShippingThreshold(c)
    ensures s1 < FreeShippingThreshold(c) ==> Shipping(s1, c) == ShippingFee(c) > 0.0
    ensures s1 <= s2 ==> Shipping(s2, c) <= Shipping(s1, c)
    ensures (s1 < FreeShippingThreshold(c) <==> s2 < FreeShippingThreshold(c)) ==> Shipping(s1, c) == Shipping(s2, c)
  {
  }

  /** No line's discount exceeds 10% of its own total, and a line without certifications gets none. */
  lemma LineDiscountCapped(item: CartItem, c: Currency)
    requires PriceIn(item.product.price, c) >= 0.0 && item.quantity >= 0
    ensures 0.0 <= Amount(Discount(c), item) <= 0.1 * LineTotal(item, c)
    ensures |item.product.certifications| == 0 ==> Amount(Discount(c), item) == 0.0
  {
    var t := LineTotal(item, c);
    var rate := DiscountRate(|item.product.certifications|);
    assert t >= 0.0 by {
      assert PriceIn(item.product.price, c) * item.quantity as real >= 0.0 * item.quantity as real;
    }
    assert t * (0.1 - rate) >= 0.0 by {
      MulNonNegative(t, 0.1 - rate);
    }
    MulNonNegative(t, rate);
  }

  lemma MulNonNegative(a: real, b: real)
    requires a >= 0.0 && b >= 0.0
    ensures a * b >= 0.0
  {
  }

  /** With non-negative prices and quantities the discount lies between 0 and a tenth of the subtotal. */
  lemma {:induction false} EcoDiscountBounds(cart: seq<CartItem>, c: Currency)
    requires NonNegative(cart, c)
    ensures 0.0 <= EcoDiscount(cart, c) <= 0.1 * Subtotal(cart, c)
  {
    if cart != [] {
      var last := cart[|cart| - 1];
      EcoDiscountBounds(cart[..|cart| - 1], c);
      LineDiscountCapped(last, c);
    }
  }

  /** A cart whose products carry no certification gets no discount, whatever the prices. */
  lemma {:induction false} NoCertificationsNoDiscount(cart: seq<CartItem>, c: Currency)
    requires forall i :: 0 <= i < |cart| ==> |cart[i].product.certifications| == 0
    ensures EcoDiscount(cart, c) == 0.0
  {
    if cart != [] {
      NoCertificationsNoDiscount(cart[..|cart| - 1], c);
    }
  }

  /**
   * With non-negative prices and quantities the discount is positive exactly
   * when some line with a certification has a positive total.
   */
  lemma {:induction false} EcoDiscountPositive(cart: seq<CartItem>, c: Currency)
    requires NonNegative(cart, c)
    ensures EcoDiscount(cart, c) > 0.0 <==>
      exists i :: 0 <= i < |cart| && |cart[i].product.certifications| > 0 && LineTotal(cart[i], c) > 0.0
  {
    if cart != [] {
      var init := cart[..|cart| - 1];
      var last := cart[|cart| - 1];
      EcoDiscountPositive(init, c);
      EcoDiscountBounds(init, c);
      LineDiscountCapped(last, c);
      var rate := DiscountRate(|last.product.certifications|);
      if |last.product.certifications| > 0 && LineTotal(last, c) > 0.0 {
        assert rate > 0.0;
        assert Amount(Discount(c), last) > 0.0;
      }
      if exists i :: 0 <= i < |cart| && |cart[i].product.certifications| > 0 && LineTotal(cart[i], c) > 0.0 {
        var i :| 0 <= i < |cart| && |cart[i].product.certifications| > 0 && LineTotal(cart[i], c) > 0.0;
        if i < |init| {
          assert init[i] == cart[i];
        }
      }
      if EcoDiscount(init, c) > 0.0 {
        var i :| 0 <= i < |init| && |init[i].product.certifications| > 0 && LineTotal(init[i], c) > 0.0;
        assert cart[i] == init[i];
      }
    }
  }

  /** With non-negative prices and quantities the total is at least the shipping plus 90% of the subtotal. */
  lemma TotalLowerBound(cart: seq<CartItem>, c: Currency)
    requires NonNegative(cart, c)
    ensures ComputeTotals(cart, c).total >= 0.9 * Subtotal(cart, c) + ComputeTotals(cart, c).shipping
    ensures ComputeTotals(cart, c).total >= 0.0
  {
    EcoDiscountBounds(cart, c);
  }

  /** `addToCart` raises the subtotal by exactly the added line's total, whether it merges or appends. */
  lemma SubtotalAfterAdd(cart: seq<CartItem>, item: CartItem, c: Currency)
    requires forall j :: 0 <= j < |cart| && cart[j].product.id == item.product.id ==> cart[j].product == item.product
    ensures Subtotal(AddLine(cart, item), c) == Subtotal(cart, c) + LineTotal(item, c)
  {
    var i := Seqs.IndexOf(cart, LineProductId, item.product.id);
    if i == -1 {
      SumConcat(cart, [item], Price(c));
      SumSingle(item, Price(c));
    } else {
      MergeRaisesSubtotal(cart, i, item, c);
    }
  }

  lemma MergeRaisesSubtotal(cart: seq<CartItem>, i: int, item: CartItem, c: Currency)
    requires 0 <= i < |cart| && cart[i].product == item.product
    ensures Subtotal(cart[i := cart[i].(quantity := cart[i].quantity + item.quantity)], c)
      == Subtotal(cart, c) + LineTotal(item, c)
  {
    var merged := cart[i].(quantity := cart[i].quantity + item.quantity);
    SumUpdate(cart, i, merged, Price(c));
    Distribute(PriceIn(item.product.price, c), merged.quantity, cart[i].quantity);
  }

  /** `updateCartQuantity` on a line in the cart changes a sum by the difference of that line's amounts. */
  lemma QuantityChangeSum(cart: seq<CartItem>, productId: string, quantity: int, m: LineAmount)
    requires Seqs.IndexOf(cart, LineProductId, productId) != -1
    ensures var line := cart[Seqs.IndexOf(cart, LineProductId, productId)];
      Sum(SetQuantity(cart, productId, quantity), m)
        == Sum(cart, m) - Amount(m, line) + Amount(m, line.(quantity := quantity))
  {
    var i := Seqs.IndexOf(cart, LineProductId, productId);
    var x := cart[i].(quantity := quantity);
    assert SetQuantity(cart, productId, quantity) == cart[i := x];
    SumUpdate(cart, i, x, m);
  }

  /** A line's total and its footprint change by the quantity difference times its price or footprint. */
  lemma LineChange(line: CartItem, quantity: int, c: Currency)
    ensures Amount(Price(c), line.(quantity := quantity)) - Amount(Price(c), line)
      == PriceIn(line.product.price, c) * (quantity - line.quantity) as real
    ensures Amount(Carbon, line.(quantity := quantity)) - Amount(Carbon, line)
      == line.product.impact.carbonFootprint * (quantity - line.quantity) as real
  {
    Distribute(PriceIn(line.product.price, c), quantity, line.quantity);
    Distribute(line.product.impact.carbonFootprint, quantity, line.quantity);
  }

  lemma Distribute(k: real, q: int, q0: int)
    ensures k * q as real - k * q0 as real == k * (q - q0) as real
  {
  }

  /** Changing a quantity never changes the certification count. */
  lemma QuantityChangeKeepsCertifications(cart: seq<CartItem>, productId: string, quantity: int)
    ensures CertificationsSupported(SetQuantity(cart, productId, quantity)) == CertificationsSupported(cart)
  {
    CertificationsIgnoreQuantity(cart, SetQuantity(cart, productId, quantity));
  }

  /** The certification count depends on the products only, not on the quantities. */
  lemma {:induction false} CertificationsIgnoreQuantity(a: seq<CartItem>, b: seq<CartItem>)
    requires |a| == |b| && forall i :: 0 <= i < |a| ==> a[i].product == b[i].product
    ensures CertificationsSupported(a) == CertificationsSupported(b)
  {
    if a != [] {
      CertificationsIgnoreQuantity(a[..|a| - 1], b[..|b| - 1]);
    }
  }

  // ---------------------------------------------------------------- the page's controls

  /** `handleQuantityChange`: dispatch `updateCartQuantity` only for a quantity of at least 1. */
  function QuantityChange(newQuantity: int): Option<int> {
    if newQuantity < 1 then None else Some(newQuantity)
  }

  /** `parseInt(text) || 1`: a text that is not a number (`None`) or reads as 0 falls back to 1. */
  function QuantityFromText(parsed: Option<int>): int {
    match parsed
    case None => 1
    case Some(n) => if n == 0 then 1 else n
  }

  /** The three controls of a cart line: the quantity field, the minus button and the plus button. */
  datatype QuantityEvent = Typed(parsed: Option<int>) | Minus | Plus

  /** The quantity a control asks for; the minus button is disabled at quantity 1 or less. */
  function OnQuantityEvent(ev: QuantityEvent, quantity: int): Option<int> {
    match ev
    case Typed(parsed) => QuantityChange(QuantityFromText(parsed))
    case Minus => if quantity <= 1 then None else QuantityChange(quantity - 1)
    case Plus => QuantityChange(quantity + 1)
  }

  /** A control used on the line of `productId`, followed by the reducer when something is dispatched. */
  function ApplyQuantityEvent(cart: seq<CartItem>, productId: string, ev: QuantityEvent): seq<CartItem> {
    var i := Seqs.IndexOf(cart, LineProductId, productId);
    if i == -1 then cart
    else match OnQuantityEvent(ev, cart[i].quantity)
      case None => cart
      case Some(q) => SetQuantity(cart, productId, q)
  }

  /**
   * Text entry dispatches nothing exactly for a negative number; a
   * non-number or 0 dispatches 1; a positive number is dispatched as it is.
   */
  lemma QuantityTextRule(parsed: Option<int>, quantity: int)
    ensures OnQuantityEvent(Typed(parsed), quantity).None? <==> (parsed.Some? && parsed.value < 0)
    ensures (parsed == None || parsed == Some(0)) ==> OnQuantityEvent(Typed(parsed), quantity) == Some(1)
    ensures parsed.Some? && parsed.value >= 1 ==> OnQuantityEvent(Typed(parsed), quantity) == parsed
  {
  }

  /**
   * The buttons move the quantity by one, the minus button only from above 1;
   * whatever a control dispatches is at least 1.
   */
  lemma QuantityButtonsRule(ev: QuantityEvent, quantity: int)
    ensures quantity >= 0 ==> OnQuantityEvent(Plus, quantity) == Some(quantity + 1)
    ensures OnQuantityEvent(Minus, quantity).Some? <==> quantity > 1
    ensures quantity > 1 ==> OnQuantityEvent(Minus, quantity) == Some(quantity - 1)
    ensures OnQuantityEvent(ev, quantity).Some? ==> OnQuantityEvent(ev, quantity).value >= 1
  {
  }

  /** No control can bring a line below 1 when every line starts at 1 or more. */
  lemma QuantityControlsKeepPositive(cart: seq<CartItem>, productId: string, ev: QuantityEvent)
    requires forall i :: 0 <= i < |cart| ==> cart[i].quantity >= 1
    ensures |ApplyQuantityEvent(cart, productId, ev)| == |cart|
    ensures forall i :: 0 <= i < |cart| ==> ApplyQuantityEvent(cart, productId, ev)[i].quantity >= 1
  {
  }

  // ---------------------------------------------------------------- what the summary shows

  /** The free-shipping hint is shown exactly when the subtotal is below the threshold. */
  lemma FreeShippingHintRule(cart: seq<CartItem>, c: Currency)
    ensures ComputeTotals(cart, c).shipping > 0.0 <==> Subtotal(cart, c) < FreeShippingThreshold(c)
  {
  }

  /** The sample orders of the pricing rules, computed exactly. */
  lemma SampleOrders()
    ensures var p := SampleProduct(Prices(12.99, 0.0, 0.0), 1);
      ComputeTotals([CartItem(p, 1)], USD) == Totals(12.99, 10.0, 0.2598, 22.7302)
    ensures var p := SampleProduct(Prices(185.0, 0.0, 150.0), 3);
      && ComputeTotals([CartItem(p, 1)], USD) == Totals(185.0, 0.0, 11.1, 173.9)
      && ComputeTotals([CartItem(p, 1)], Y) == Totals(150.0, 0.0, 9.0, 141.0)
    ensures var p := SampleProduct(Prices(45.0, 0.0, 0.0), 2);
      ComputeTotals([CartItem(p, 2)], USD) == Totals(90.0, 10.0, 3.6, 96.4)
  {
    forall x: CartItem, m: LineAmount ensures Sum([x], m) == Amount(m, x) {
      SumSingle(x, m);
    }
  }

  /** A product with the given prices and `certs` certifications; the other fields are blank. */
  function SampleProduct(price: Prices, certs: nat): Product {
    Product("sample", "", "", "", price, seq(certs, _ => "certified"), ProductImpact(0.0, 0.0, ""), [], "", true, 0.0, 0)
  }
}
