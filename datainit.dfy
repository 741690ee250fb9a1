/**
 * The order amount rule of the seed-data module: the delivery distance is the
 * second white-space separated word of a customer's address, a fee is charged
 * beyond the delivery radius, and a corporate customer's discount applies to
 * the base amount only. Decimal arithmetic is exact and is modelled as `real`.
 */
module DataInit {
  import opened Wrappers
  import opened Text
  import opened Model

  // ---------------------------------------------------------------- words

  /** The length of the run of non-space characters at the start of `s`. */
  function TokenLength(s: string): (n: nat)
    ensures n <= |s|
    ensures s != [] && !IsSpace(s[0]) ==> n >= 1
  {
    if s == [] || IsSpace(s[0]) then 0 else 1 + TokenLength(s[1..])
  }

  /** Python's `str.split()` with no separator: the maximal runs of
      non-space characters, in order. */
  function Words(s: string): (w: seq<string>)
    decreases |s|
  {
    if s == [] then []
    else if IsSpace(s[0]) then Words(s[1..])
    else
      var n := TokenLength(s);
      [s[..n]] + Words(s[n..])
  }

  /** A word followed by nothing splits into just that word. */
  lemma WordsOfWord(w: string)
    requires |w| >= 1 && NoSpace(w)
    ensures Words(w) == [w]
  {
    TokenAt(w, []);
    assert w + [] == w;
    assert w[|w|..] == [];
  }

  /** Two words separated by one space split into those two words. */
  lemma WordsOfTwo(a: string, b: string)
    requires |a| >= 1 && NoSpace(a)
    requires |b| >= 1 && NoSpace(b)
    ensures Words(a + " " + b) == [a, b]
  {
    var s := a + " " + b;
    TokenAt(a, " " + b);
    assert s == a + (" " + b);
    assert s[..|a|] == a;
    assert s[|a|..] == " " + b;
    assert Words(" " + b) == Words(b) by {
      assert (" " + b)[1..] == b;
    }
    WordsOfWord(b);
  }

  /** A run of non-space characters followed by a space or by nothing is one token. */
  lemma {:induction false} TokenAt(a: string, rest: string)
    requires NoSpace(a)
    requires rest == [] || IsSpace(rest[0])
    ensures TokenLength(a + rest) == |a|
  {
    if a != [] {
      assert (a + rest)[1..] == a[1..] + rest;
      TokenAt(a[1..], rest);
    } else {
      assert a + rest == rest;
    }
  }

  // ---------------------------------------------------------------- distance

  /** `int(address.split()[1])` fails with IndexError when there are fewer
      than two words and with ValueError when the second is no integer. */
  datatype DistanceError = IndexError | ValueError

  function GetCustomerDistance(address: string): (r: Result<int, DistanceError>)
    ensures r.Failure? && r.error == IndexError <==> |Words(address)| < 2
    ensures r.Success? <==> |Words(address)| >= 2 && ParseInt(Words(address)[1]).Some?
    ensures r.Success? ==> ParseInt(Words(address)[1]) == Some(r.value)
  {
    var words := Words(address);
    if |words| < 2 then Failure(IndexError)
    else
      match ParseInt(words[1])
      case None => Failure(ValueError)
      case Some(d) => Success(d)
  }

  /** An address written as a word, a space and a number yields that number. */
  lemma DistanceOfAddress(word: string, n: int)
    requires |word| >= 1 && NoSpace(word)
    ensures GetCustomerDistance(word + " " + IntStr(n)) == Success(n)
  {
    IntStrNoSpace(n);
    WordsOfTwo(word, IntStr(n));
    ParseIntOfIntStr(n);
  }

  // ---------------------------------------------------------------- order amounts

  /** The discounted base, the delivery fee and their sum. */
  datatype Amounts = Amounts(discounted: real, deliveryFee: real, total: real)

  /** The discount rate that applies to a customer: none unless corporate. */
  function DiscountRate(kind: CustomerKind): real {
    match kind
    case Private => 0.0
    case Corporate(rate) => rate
  }

  /**
   * `calculate_order_amounts`: the fee is charged exactly when the distance
   * exceeds the delivery radius; a corporate customer pays the base less its
   * discount rate, any other customer the base itself; the total adds the fee
   * to the discounted amount. An address without a readable distance is the
   * failure `get_customer_distance` raises.
   */
  function CalculateOrderAmounts(customer: Customer, base: real): (r: Result<Amounts, DistanceError>)
    ensures r.Failure? <==> GetCustomerDistance(customer.address).Failure?
    ensures r.Failure? ==> r.error == GetCustomerDistance(customer.address).error
    ensures r.Success? ==> r.value.total == r.value.discounted + r.value.deliveryFee
    ensures r.Success? ==> r.value.discounted == base * (1.0 - DiscountRate(customer.kind))
  {
    match GetCustomerDistance(customer.address)
    case Failure(e) => Failure(e)
    case Success(distance) =>
      var fee := if distance > DeliveryRadiusKm then DeliveryFee else 0.0;
      var discounted := if customer.kind.Corporate? then base * (1.0 - customer.kind.discountRate) else base;
      Success(Amounts(discounted, fee, discounted + fee))
  }

  /** The fee is the delivery fee beyond the radius and zero within it
      (a distance of exactly 20 pays nothing); it does not depend on the
      customer's kind or on the base amount. */
  lemma FeeRule(customer: Customer, base: real, distance: int)
    requires GetCustomerDistance(customer.address) == Success(distance)
    ensures CalculateOrderAmounts(customer, base).Success?
    ensures var fee := CalculateOrderAmounts(customer, base).value.deliveryFee;
      (distance > DeliveryRadiusKm ==> fee == 10.0) && (distance <= DeliveryRadiusKm ==> fee == 0.0)
  {
  }

  /** Two customers at the same address pay the same fee whatever their
      kinds and bases: the discount never reaches the fee. */
  lemma FeeIgnoresDiscount(c1: Customer, c2: Customer, base1: real, base2: real)
    requires c1.address == c2.address
    requires CalculateOrderAmounts(c1, base1).Success?
    ensures CalculateOrderAmounts(c2, base2).Success?
    ensures CalculateOrderAmounts(c1, base1).value.deliveryFee == CalculateOrderAmounts(c2, base2).value.deliveryFee
  {
  }

  /** A private customer's discounted amount is the base itself. */
  lemma PrivatePaysBase(customer: Customer, base: real)
    requires customer.kind == Private
    requires CalculateOrderAmounts(customer, base).Success?
    ensures CalculateOrderAmounts(customer, base).value.discounted == base
  {
  }

  /** With a non-negative base and a rate between 0 and 1, the discounted
      amount lies between 0 and the base and the total is at least the
      discounted amount. */
  lemma AmountBounds(customer: Customer, base: real)
    requires base >= 0.0 && 0.0 <= DiscountRate(customer.kind) <= 1.0
    requires CalculateOrderAmounts(customer, base).Success?
    ensures var a := CalculateOrderAmounts(customer, base).value;
      0.0 <= a.discounted <= base && a.total >= a.discounted
  {
    var rate := DiscountRate(customer.kind);
    var a := CalculateOrderAmounts(customer, base).value;
    assert a.discounted == base * (1.0 - rate);
    assert 0.0 <= 1.0 - rate <= 1.0;
    assert base * (1.0 - rate) <= base * 1.0;
  }

  /** The seed customers' addresses: "Distance 10" and "Distance 20" are
      within the radius, "Distance 30" is beyond it. */
  lemma SeedDistances()
    ensures GetCustomerDistance("Distance 10") == Success(10)
    ensures GetCustomerDistance("Distance 20") == Success(20)
    ensures GetCustomerDistance("Distance 30") == Success(30)
  {
    assert NoSpace("Distance");
    DistanceOfAddress("Distance", 10);
    DistanceOfAddress("Distance", 20);
    DistanceOfAddress("Distance", 30);
    assert "Distance" + " " + IntStr(10) == "Distance 10";
    assert "Distance" + " " + IntStr(20) == "Distance 20";
    assert "Distance" + " " + IntStr(30) == "Distance 30";
  }

  /** A seed customer at distance 30 pays the fee, one at 10 or 20 does not. */
  lemma SeedFees(customer: Customer, base: real)
    requires customer.address in {"Distance 10", "Distance 20", "Distance 30"}
    ensures CalculateOrderAmounts(customer, base).Success?
    ensures CalculateOrderAmounts(customer, base).value.deliveryFee ==
      if customer.address == "Distance 30" then 10.0 else 0.0
  {
    SeedDistances();
  }
}
