/** The product page's quote form: a quantity that never drops below one
    pack, a pricing tier picked from the quantity (or by hand from the tier
    list) and the unit and total price it implies. */
module ProductDetails {
  import opened Wrappers

  datatype Tier = Tier(minQty: int, maxQty: int, price: int)

  /** The mock product's pricing tiers and pack size. */
  const TIERS: seq<Tier> := [Tier(1, 5, 2500), Tier(6, 20, 2300), Tier(21, 50, 2100)]
  const QTY_PER_PACK: int := 1

  predicate Matches(t: Tier, q: int)
  {
    t.minQty <= q <= t.maxQty
  }

  /** `pricingTiers.findIndex(...)`: the first tier whose range holds `q`,
      or -1. */
  function FindTier(tiers: seq<Tier>, q: int): (i: int)
    ensures -1 <= i < |tiers|
    ensures i >= 0 ==> Matches(tiers[i], q) && forall j :: 0 <= j < i ==> !Matches(tiers[j], q)
    ensures i == -1 ==> forall j :: 0 <= j < |tiers| ==> !Matches(tiers[j], q)
  {
    if tiers == [] then -1
    else if Matches(tiers[0], q) then 0
    else
      var k := FindTier(tiers[1..], q);
      if k == -1 then -1 else k + 1
  }

  /** Quantities 1-5, 6-20 and 21-50 select the three tiers; anything else
      selects none. */
  lemma ListedTiers(q: int)
    ensures 1 <= q <= 5 ==> FindTier(TIERS, q) == 0
    ensures 6 <= q <= 20 ==> FindTier(TIERS, q) == 1
    ensures 21 <= q <= 50 ==> FindTier(TIERS, q) == 2
    ensures q < 1 || q > 50 ==> FindTier(TIERS, q) == -1
  {
    assert TIERS[0] == Tier(1, 5, 2500) && TIERS[1] == Tier(6, 20, 2300) && TIERS[2] == Tier(21, 50, 2100);
    if 1 <= q <= 50 {
      assert Matches(TIERS[if q <= 5 then 0 else if q <= 20 then 1 else 2], q);
    }
  }

  /** `parseInt(value) || qtyPerPack`: input that does not parse, or parses
      to 0, becomes one pack. */
  function TypedQuantity(parsed: Option<int>): (q: int)
    ensures q != 0
    ensures q == QTY_PER_PACK || parsed == Some(q)
  {
    match parsed
      case Some(v) => if v != 0 then v else QTY_PER_PACK
      case None => QTY_PER_PACK
  }

  datatype Quote = Quote(quantity: int, selectedTier: int)

  /** The form's invariant: at least one pack, and a tier that exists. */
  predicate Valid(s: Quote)
  {
    s.quantity >= QTY_PER_PACK && 0 <= s.selectedTier < |TIERS|
  }

  /** `handleQuantityChange`. */
  function QuantityChange(s: Quote, newQty: int): Quote
  {
    if newQty >= QTY_PER_PACK then
      var tierIndex := FindTier(TIERS, newQty);
      s.(quantity := newQty, selectedTier := if tierIndex != -1 then tierIndex else s.selectedTier)
    else s
  }

  /** `getCurrentPrice`. */
  function CurrentPrice(s: Quote): int
    requires Valid(s)
  {
    TIERS[s.selectedTier].price
  }

  /** `getTotalPrice`, before formatting. */
  function TotalPrice(s: Quote): int
    requires Valid(s)
  {
    CurrentPrice(s) * s.quantity
  }

  /** A quantity below one pack is ignored; an accepted one selects the
      first tier holding it, or keeps the tier when none does. */
  lemma QuantityChangeRules(s: Quote, newQty: int)
    ensures newQty < QTY_PER_PACK ==> QuantityChange(s, newQty) == s
    ensures newQty >= QTY_PER_PACK ==> QuantityChange(s, newQty).quantity == newQty
    ensures newQty >= QTY_PER_PACK && FindTier(TIERS, newQty) != -1 ==>
              QuantityChange(s, newQty).selectedTier == FindTier(TIERS, newQty)
    ensures newQty > 50 ==> QuantityChange(s, newQty).selectedTier == s.selectedTier
  {
    ListedTiers(newQty);
  }

  /** Every handler keeps the form valid. */
  lemma QuantityChangeKeepsValid(s: Quote, newQty: int)
    requires Valid(s)
    ensures Valid(QuantityChange(s, newQty))
  {
  }

  /** Within 1-50 the price follows the tiers: 2500, 2300 or 2100 a unit. */
  lemma PriceFollowsQuantity(s: Quote, newQty: int)
    requires Valid(s) && 1 <= newQty <= 50
    ensures var t := QuantityChange(s, newQty);
            TotalPrice(t) == newQty * (if newQty <= 5 then 2500 else if newQty <= 20 then 2300 else 2100)
  {
    ListedTiers(newQty);
  }

  /** Choosing a tier by hand is not checked against the quantity: one unit
      at the 21-50 tier costs 2100. */
  lemma TierCanDisagreeWithQuantity()
    ensures var s := Quote(1, 2);
            Valid(s) && !Matches(TIERS[s.selectedTier], s.quantity) && TotalPrice(s) == 2100
  {
  }

  class QuoteForm {
    var quantity: int
    var selectedTier: int

    function State(): Quote
      reads this
    {
      Quote(quantity, selectedTier)
    }

    constructor ()
      ensures State() == Quote(1, 0) && Valid(State())
    {
      quantity := 1;
      selectedTier := 0;
    }

    /** `handleQuantityChange`. */
    method HandleQuantityChange(newQty: int)
      modifies this
      ensures State() == QuantityChange(old(State()), newQty)
    {
      if newQty >= QTY_PER_PACK {
        quantity := newQty;
        var tierIndex := FindTier(TIERS, newQty);
        if tierIndex != -1 {
          selectedTier := tierIndex;
        }
      }
    }

    /** The minus button, which is disabled at one pack or less. */
    method Decrement()
      modifies this
      ensures old(quantity) <= QTY_PER_PACK ==> State() == old(State())
      ensures old(quantity) > QTY_PER_PACK ==> State() == QuantityChange(old(State()), old(quantity) - QTY_PER_PACK)
    {
      if quantity > QTY_PER_PACK {
        HandleQuantityChange(quantity - QTY_PER_PACK);
      }
    }

    /** The plus button. */
    method Increment()
      modifies this
      ensures State() == QuantityChange(old(State()), old(quantity) + QTY_PER_PACK)
    {
      HandleQuantityChange(quantity + QTY_PER_PACK);
    }

    /** The quantity box: the parsed input, or one pack. */
    method TypeQuantity(parsed: Option<int>)
      modifies this
      ensures State() == QuantityChange(old(State()), TypedQuantity(parsed))
    {
      HandleQuantityChange(TypedQuantity(parsed));
    }

    /** The tier radio button. */
    method SelectTier(index: int)
      requires 0 <= index < |TIERS|
      modifies this
      ensures State() == old(State()).(selectedTier := index)
    {
      selectedTier := index;
    }
  }
}
