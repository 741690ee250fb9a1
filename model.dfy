/**
 * The storefront's entity classes: staff, private and corporate customers,
 * orders and payments, with the business constants. Orders and payments draw
 * their numbers from a process-wide counter (`Order.order_id`,
 * `Payment.payment_id` in the Python code), modelled as an `IdCounter` object
 * that every construction reads and advances. Decimal amounts are exact and
 * are modelled as `real`.
 */
module Model {
  import opened Wrappers
  import opened Text

  // ---------------------------------------------------------------- business constants

  const MaxPrivateCustomerOwing: real := 100.0
  const DefaultCorporateDiscount: real := 0.10
  const DeliveryRadiusKm: int := 20
  const DeliveryFee: real := 10.0

  /** A calendar date, kept as given. */
  datatype Date = Date(year: int, month: int, day: int)

  // ---------------------------------------------------------------- people

  class Staff {
    const firstName: string
    const lastName: string
    const username: string
    const password: string
    const deptName: string
    const dateJoined: Date
    const staffId: string

    constructor (firstName: string, lastName: string, username: string, password: string,
                 deptName: string, dateJoined: Date, staffId: string)
      ensures this.firstName == firstName && this.lastName == lastName
      ensures this.username == username && this.password == password
      ensures this.deptName == deptName && this.dateJoined == dateJoined && this.staffId == staffId
    {
      this.firstName := firstName;
      this.lastName := lastName;
      this.username := username;
      this.password := password;
      this.deptName := deptName;
      this.dateJoined := dateJoined;
      this.staffId := staffId;
    }
  }

  /** `Customer` or its subclass `CorporateCustomer`, which adds a discount rate. */
  datatype CustomerKind = Private | Corporate(discountRate: real)

  class Customer {
    const firstName: string
    const lastName: string
    const username: string
    const password: string
    const address: string
    const custId: string
    const kind: CustomerKind
    var balance: real
    var maxOwing: real
    var orders: seq<Order>
    var payments: seq<Payment>

    /** A private customer. */
    constructor (firstName: string, lastName: string, username: string, password: string,
                 address: string, balance: real, maxOwing: real, custId: string)
      ensures this.firstName == firstName && this.lastName == lastName
      ensures this.username == username && this.password == password
      ensures this.address == address && this.custId == custId && kind == Private
      ensures this.balance == balance && this.maxOwing == maxOwing
      ensures orders == [] && payments == []
    {
      this.firstName := firstName;
      this.lastName := lastName;
      this.username := username;
      this.password := password;
      this.address := address;
      this.balance := balance;
      this.maxOwing := maxOwing;
      orders := [];
      payments := [];
      this.custId := custId;
      kind := Private;
    }

    /** A corporate customer: every customer field, the corporate id as the
        customer id, and the discount rate. */
    constructor Corporate(firstName: string, lastName: string, username: string, password: string,
                          address: string, balance: real, maxOwing: real, discountRate: real,
                          corporateCustId: string)
      ensures this.firstName == firstName && this.lastName == lastName
      ensures this.username == username && this.password == password
      ensures this.address == address && custId == corporateCustId
      ensures kind == CustomerKind.Corporate(discountRate)
      ensures this.balance == balance && this.maxOwing == maxOwing
      ensures orders == [] && payments == []
    {
      this.firstName := firstName;
      this.lastName := lastName;
      this.username := username;
      this.password := password;
      this.address := address;
      this.balance := balance;
      this.maxOwing := maxOwing;
      orders := [];
      payments := [];
      custId := corporateCustId;
      kind := CustomerKind.Corporate(discountRate);
    }
  }

  // ---------------------------------------------------------------- id counters

  /** The first number either counter hands out. */
  const FirstId: int := 1000

  /**
   * A class-level counter. `issued` records, in order, every number handed
   * out so far; the counter starts at 1000 and moves up by one per issue.
   */
  class IdCounter {
    var next: int
    ghost var issued: seq<int>

    ghost predicate Valid()
      reads this
    {
      next == FirstId + |issued| &&
      forall k :: 0 <= k < |issued| ==> issued[k] == FirstId + k
    }

    constructor ()
      ensures Valid() && issued == [] && next == FirstId
    {
      next := FirstId;
      issued := [];
    }

    /** Read the counter, then increment it. */
    method Issue() returns (n: int)
      requires Valid()
      modifies this
      ensures Valid()
      ensures n == old(next) && next == n + 1
      ensures issued == old(issued) + [n]
    {
      n := next;
      next := next + 1;
      issued := issued + [n];
    }
  }

  /** Numbers already issued are all below the counter, strictly increasing in issue order. */
  lemma IssuedAscending(c: IdCounter)
    requires c.Valid()
    ensures forall i, j :: 0 <= i < j < |c.issued| ==> FirstId <= c.issued[i] < c.issued[j] < c.next
  {
  }

  /** `prefix + str(n)`. The number can be read back from the text after the prefix. */
  function Numbered(prefix: string, n: int): (r: string)
    ensures |r| > |prefix| && r[..|prefix|] == prefix
    ensures ParseInt(r[|prefix|..]) == Some(n)
  {
    ParseIntOfIntStr(n);
    assert (prefix + IntStr(n))[|prefix|..] == IntStr(n);
    prefix + IntStr(n)
  }

  /** `"ORD" + str(n)`. */
  function OrderNumber(n: int): string {
    Numbered("ORD", n)
  }

  /** `"pay" + str(n)`. */
  function PaymentId(n: int): string {
    Numbered("pay", n)
  }

  /** With one prefix, distinct numbers give distinct ids. */
  lemma NumberedInjective(prefix: string, a: int, b: int)
    ensures Numbered(prefix, a) == Numbered(prefix, b) <==> a == b
  {
    if Numbered(prefix, a) == Numbered(prefix, b) {
      assert ParseInt(Numbered(prefix, a)[|prefix|..]) == ParseInt(Numbered(prefix, b)[|prefix|..]);
    }
  }

  /** Distinct counter values give distinct order numbers and payment ids,
      and an order number is never a payment id. */
  lemma IdsInjective(a: int, b: int)
    ensures OrderNumber(a) == OrderNumber(b) <==> a == b
    ensures PaymentId(a) == PaymentId(b) <==> a == b
    ensures OrderNumber(a) != PaymentId(b)
  {
    NumberedInjective("ORD", a, b);
    NumberedInjective("pay", a, b);
    assert OrderNumber(a)[..3] == "ORD" && PaymentId(b)[..3] == "pay";
  }

  /** Every order number issued by a counter is different from every other. */
  lemma IssuedOrderNumbersUnique(c: IdCounter)
    requires c.Valid()
    ensures forall i, j :: 0 <= i < j < |c.issued| ==> OrderNumber(c.issued[i]) != OrderNumber(c.issued[j])
  {
    forall i, j | 0 <= i < j < |c.issued|
      ensures OrderNumber(c.issued[i]) != OrderNumber(c.issued[j])
    {
      IdsInjective(c.issued[i], c.issued[j]);
    }
  }

  // ---------------------------------------------------------------- orders and payments

  /** An order line holds an item number; its item starts unset. */
  datatype OrderLine = OrderLine(itemNumber: int)

  class Order {
    const orderNumber: string
    const customer: Customer
    const date: Date
    const status: string
    var items: seq<OrderLine>
    var deliveryFee: real
    var discount: real
    var totalAmount: real

    /**
     * Takes the next number from the order counter, stores the customer,
     * date and status as given and starts with no items and zero amounts.
     * The delivery fee is first set to the business fee and then overwritten
     * with zero.
     */
    constructor (counter: IdCounter, customer: Customer, date: Date, status: string)
      requires counter.Valid()
      modifies counter
      ensures counter.Valid() && counter.issued == old(counter.issued) + [old(counter.next)]
      ensures orderNumber == OrderNumber(old(counter.next))
      ensures this.customer == customer && this.date == date && this.status == status
      ensures items == [] && discount == 0.0 && deliveryFee == 0.0 && totalAmount == 0.0
    {
      var n := counter.Issue();
      orderNumber := "ORD" + IntStr(n);
      this.customer := customer;
      this.date := date;
      this.status := status;
      items := [];
      deliveryFee := DeliveryFee;
      discount := 0.0;
      deliveryFee := 0.0;
      totalAmount := 0.0;
    }
  }

  /** What the two payment subclasses add to a payment. */
  datatype PaymentDetails =
    | Plain
    | CreditCard(cardNumber: string, cardType: string, expiry: Date)
    | DebitCard(bankName: string, cardNumber: string)

  class Payment {
    const paymentId: string
    const amount: real
    const date: Date
    const details: PaymentDetails

    /** Takes the next number from the payment counter; the amount is kept
        exactly (`Decimal(str(amount))` of a Decimal is the same value). */
    constructor (counter: IdCounter, amount: real, date: Date, details: PaymentDetails)
      requires counter.Valid()
      modifies counter
      ensures counter.Valid() && counter.issued == old(counter.issued) + [old(counter.next)]
      ensures paymentId == PaymentId(old(counter.next))
      ensures this.amount == amount && this.date == date && this.details == details
    {
      var n := counter.Issue();
      paymentId := "pay" + IntStr(n);
      this.amount := amount;
      this.date := date;
      this.details := details;
    }
  }

  /**
   * Two orders placed one after the other take consecutive numbers, which
   * differ, and move the counter on by two.
   */
  method TwoOrders(counter: IdCounter, customer: Customer, date: Date) returns (first: Order, second: Order)
    requires counter.Valid()
    modifies counter
    ensures first.orderNumber == OrderNumber(old(counter.next)) && second.orderNumber == OrderNumber(old(counter.next) + 1)
    ensures first.orderNumber != second.orderNumber
    ensures counter.Valid() && counter.next == old(counter.next) + 2
    ensures counter.issued == old(counter.issued) + [old(counter.next), old(counter.next) + 1]
  {
    ghost var n := counter.next;
    first := new Order(counter, customer, date, "Pending");
    second := new Order(counter, customer, date, "Pending");
    IdsInjective(n, n + 1);
  }
}
