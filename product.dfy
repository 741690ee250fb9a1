/**
 * The product view's cart: adding a vegetable or a premade box as a cart row,
 * filling the box-content choosers from a box template, and checking the
 * cart out. The Treeview becomes a sequence of `CartRow`s, the five content
 * comboboxes a sequence of their current texts, and message boxes the
 * returned outcome. Prices are whole cents.
 */
module ProductView {
  import opened Wrappers
  import opened Text
  import opened Money
  import opened Catalog

  // ---------------------------------------------------------------- boxes

  /** `small_size`, `medium_size`, `large_size`: how many items a box holds. */
  function ItemCount(size: BoxSize): nat {
    match size
    case Small => 3
    case Medium => 4
    case Large => 5
  }

  /** `f"{size.capitalize()} Box"`. */
  function BoxName(size: BoxSize): string {
    match size
    case Small => "Small Box"
    case Medium => "Medium Box"
    case Large => "Large Box"
  }

  /** The number of content choosers on the box tab. */
  const ChooserCount: nat := 5

  // ---------------------------------------------------------------- rows

  /** One cart line: product, quantity, price, subtotal and box contents. */
  datatype CartRow = CartRow(name: string, quantity: int, price: string, subtotal: string, contents: string)

  /** Why adding failed: no product chosen (a warning), a ValueError (the
      quantity is no integer, or the entry does not split in two), or another
      error (the price is no decimal). */
  datatype AddError = NoProduct | InvalidInput | AddFailed

  /** `f"${float(c / 100):.2f}"`. */
  function Dollars(c: int): string {
    "$" + FormatCents(c)
  }

  /** Python's `int(text)`, which ignores surrounding white space. */
  function ParseQuantity(text: string): Option<int> {
    ParseInt(Strip(text))
  }

  /** `(price * Decimal(quantity)).quantize(Decimal('0.01'), ROUND_HALF_UP)`. */
  function Subtotal(cents: int, quantity: int): int {
    Quantize(Mul(CentsDec(cents), IntDec(quantity)))
  }

  /** The row `_add_to_cart_a` inserts for an entry "name - $price". */
  function RowA(product: string, quantityText: string): Result<CartRow, AddError> {
    if product == [] then Failure(NoProduct)
    else
      match ParseQuantity(quantityText)
      case None => Failure(InvalidInput)
      case Some(q) =>
        var parts := Split(product, " - $");
        if |parts| != 2 then Failure(InvalidInput)
        else
          match ParseDecimal(Strip(parts[1]))
          case None => Failure(AddFailed)
          case Some(d) =>
            var price := Quantize(d);
            Success(CartRow(parts[0], q, Dollars(price), Dollars(Subtotal(price, q)), ""))
  }

  /** One box content: the name before " - $" in a chooser's text, then " x 1". */
  function ContentItem(chosen: string): string {
    Before(chosen, " - $") + " x 1"
  }

  function ContentItems(chosen: seq<string>): (r: seq<string>)
    ensures |r| == |chosen|
    ensures forall i :: 0 <= i < |chosen| ==> r[i] == ContentItem(chosen[i])
  {
    seq(|chosen|, i requires 0 <= i < |chosen| => ContentItem(chosen[i]))
  }

  /** `", ".join(contents)`. */
  function ContentsText(chosen: seq<string>): string {
    Join(ContentItems(chosen), ", ")
  }

  /** The row `_add_to_cart_b` inserts for a box of the given size and price,
      listing the first `ItemCount(size)` choosers. */
  function RowB(size: BoxSize, cents: int, quantityText: string, choosers: seq<string>): Result<CartRow, AddError> {
    match ParseQuantity(quantityText)
    case None => Failure(InvalidInput)
    case Some(q) =>
      var shown := if ItemCount(size) <= |choosers| then choosers[..ItemCount(size)] else choosers;
      Success(CartRow(BoxName(size), q, Dollars(cents), Dollars(Subtotal(cents, q)), ContentsText(shown)))
  }

  /** Rounding the subtotal never changes it: it is the price times the quantity. */
  lemma SubtotalExact(cents: int, quantity: int)
    ensures Subtotal(cents, quantity) == cents * quantity
  {
    QuantizeProductExact(cents, quantity);
  }

  /** `str(q)` read back by `int`. */
  lemma QuantityOfText(q: int)
    ensures ParseQuantity(IntStr(q)) == Some(q)
  {
    IntStrNoSpace(q);
    StripUnchanged(IntStr(q));
    ParseIntOfIntStr(q);
  }

  /** A catalog entry splits back into its name and rendered price when the
      name has no '$'. */
  lemma EntrySplit(v: Veggie)
    requires '$' !in v.name
    ensures Split(Entry(v), " - $") == [v.name, FormatCents(v.cents)]
    ensures Before(Entry(v), " - $") == v.name
  {
    var sep := " - $";
    assert sep[..|sep| - 1] == " - ";
    SplitAroundMarker(v.name, sep, FormatCents(v.cents));
  }

  /**
   * Adding a catalog entry: the row holds the vegetable's name, the quantity,
   * its price and the exact price times quantity, both rendered in dollars,
   * and no contents.
   */
  lemma AddEntryRow(v: Veggie, q: int)
    requires '$' !in v.name
    ensures RowA(Entry(v), IntStr(q)) == Success(CartRow(v.name, q, Dollars(v.cents), Dollars(v.cents * q), ""))
  {
    QuantityOfText(q);
    EntrySplit(v);
    StripUnchanged(FormatCents(v.cents));
    ParseFormatCents(v.cents);
    SubtotalExact(v.cents, q);
  }

  /** Adding a box: the row is named after the size and priced at the
      template's price, with the exact subtotal. */
  lemma AddBoxRow(size: BoxSize, cents: int, q: int, choosers: seq<string>)
    requires |choosers| == ChooserCount
    ensures RowB(size, cents, IntStr(q), choosers) ==
      Success(CartRow(BoxName(size), q, Dollars(cents), Dollars(cents * q), ContentsText(choosers[..ItemCount(size)])))
  {
    QuantityOfText(q);
    SubtotalExact(cents, q);
  }

  /** A row `_add_to_cart_a` builds holds its price and the exact price
      times quantity, both rendered from whole cents. */
  lemma RowARendered(product: string, quantityText: string) returns (price: int, subtotal: int)
    requires RowA(product, quantityText).Success?
    ensures var row := RowA(product, quantityText).value;
      row.price == Dollars(price) && row.subtotal == Dollars(subtotal) && subtotal == price * row.quantity
  {
    var q := ParseQuantity(quantityText).value;
    var parts := Split(product, " - $");
    price := Quantize(ParseDecimal(Strip(parts[1])).value);
    SubtotalExact(price, q);
    subtotal := price * q;
  }

  /** A row `_add_to_cart_b` builds holds the template's price and the exact
      price times quantity, rendered. */
  lemma RowBRendered(size: BoxSize, cents: int, quantityText: string, choosers: seq<string>) returns (subtotal: int)
    requires RowB(size, cents, quantityText, choosers).Success?
    ensures var row := RowB(size, cents, quantityText, choosers).value;
      row.price == Dollars(cents) && row.subtotal == Dollars(subtotal) && subtotal == cents * row.quantity
  {
    var q := ParseQuantity(quantityText).value;
    SubtotalExact(cents, q);
    subtotal := cents * q;
  }

  /**
   * A box row's contents text lists exactly one "name x 1" per chooser shown,
   * in order, and splits back on ", " into those items when no chooser text
   * holds a comma.
   */
  lemma ContentsSplit(chosen: seq<string>)
    requires |chosen| >= 1
    requires forall i :: 0 <= i < |chosen| ==> ',' !in chosen[i]
    ensures Split(ContentsText(chosen), ", ") == ContentItems(chosen)
    ensures |Split(ContentsText(chosen), ", ")| == |chosen|
  {
    var items := ContentItems(chosen);
    forall k | 0 <= k < |items| ensures !Contains(items[k], ", ") {
      var name := Before(chosen[k], " - $");
      assert ',' !in name by {
        forall j | 0 <= j < |name| ensures name[j] != ',' { assert name[j] == chosen[k][j]; }
      }
      assert items[k] == name + " x 1";
      assert ',' !in items[k];
      MarkerAbsent(items[k], ", ", 0);
    }
    SplitJoin(items, ", ");
  }

  /** A box row lists exactly as many items as the box holds, one per chooser
      shown, when no chooser text holds a comma. */
  lemma BoxRowContents(size: BoxSize, cents: int, q: int, choosers: seq<string>)
    requires |choosers| == ChooserCount
    requires forall i :: 0 <= i < |choosers| ==> ',' !in choosers[i]
    ensures RowB(size, cents, IntStr(q), choosers).Success?
    ensures Split(RowB(size, cents, IntStr(q), choosers).value.contents, ", ") == ContentItems(choosers[..ItemCount(size)])
    ensures |Split(RowB(size, cents, IntStr(q), choosers).value.contents, ", ")| == ItemCount(size)
  {
    AddBoxRow(size, cents, q, choosers);
    var shown := choosers[..ItemCount(size)];
    forall i | 0 <= i < |shown| ensures ',' !in shown[i] {
      assert shown[i] == choosers[i];
    }
    ContentsSplit(shown);
  }

  /** Choosers showing catalog entries list the vegetables' names. */
  lemma ContentItemOfEntry(v: Veggie)
    requires '$' !in v.name
    ensures ContentItem(Entry(v)) == v.name + " x 1"
  {
    EntrySplit(v);
  }

  // ---------------------------------------------------------------- classification

  datatype ItemType = BoxItem | WeightItem | UnitItem | PackItem | UnknownItem

  /** The type `_check_out_order` gives a row: "Box" in the name, else
      "weight/kg", "unit", "pack" in that order, else unknown. */
  function ItemTypeOf(name: string): ItemType {
    if Contains(name, "Box") then BoxItem
    else if Contains(name, "weight/kg") then WeightItem
    else if Contains(name, "unit") then UnitItem
    else if Contains(name, "pack") then PackItem
    else UnknownItem
  }

  /** The key the type is stored under. */
  function TypeName(t: ItemType): string {
    match t
    case BoxItem => "box"
    case WeightItem => "weight"
    case UnitItem => "unit"
    case PackItem => "pack"
    case UnknownItem => "unknown"
  }

  /** `_get_unit_by_type`: a lookup with "item" for any key not in the table. */
  function UnitByType(key: string): string {
    if key == "box" then "box"
    else if key == "weight" then "kg"
    else if key == "unit" then "piece"
    else if key == "pack" then "pack"
    else "item"
  }

  /** Every key a row type is stored under maps to its unit, and any other
      key maps to "item". */
  lemma UnitsOfTypes(key: string)
    ensures UnitByType(TypeName(BoxItem)) == "box" && UnitByType(TypeName(WeightItem)) == "kg"
    ensures UnitByType(TypeName(UnitItem)) == "piece" && UnitByType(TypeName(PackItem)) == "pack"
    ensures UnitByType(TypeName(UnknownItem)) == "item"
    ensures key !in {"box", "weight", "unit", "pack"} ==> UnitByType(key) == "item"
  {
  }

  /** Box rows are typed as boxes. */
  lemma BoxRowsAreBoxes(size: BoxSize)
    ensures ItemTypeOf(BoxName(size)) == BoxItem
  {
    var n := BoxName(size);
    assert OccursAt(n, "Box", |n| - 3);
    ContainsAt(n, "Box", |n| - 3);
  }

  /** Outside boxes, a row's type is the sales mode its vegetable was filed
      under by the catalog reader. */
  lemma TypeFollowsMode(name: string)
    requires !Contains(name, "Box")
    ensures ItemTypeOf(name) == match ModeOf(name)
      case ByWeight => WeightItem
      case ByUnit => UnitItem
      case ByPack => PackItem
      case NoMode => UnknownItem
  {
  }

  // ---------------------------------------------------------------- checkout

  /** What checkout stores for a row in `cart_dict`. */
  datatype CartEntry = CartEntry(itemType: ItemType, name: string, quantity: int,
                                 price: Dec, subtotal: Dec, contents: string)

  /** `Decimal(text.replace('$', ''))`. */
  function ReadAmount(text: string): Option<Dec> {
    ParseDecimal(Strip(RemoveChar(text, '$')))
  }

  /** A row as checkout reads it; `None` when a price does not parse. */
  function EntryOf(row: CartRow): Option<CartEntry> {
    match ReadAmount(row.price)
    case None => None
    case Some(price) =>
      match ReadAmount(row.subtotal)
      case None => None
      case Some(subtotal) => Some(CartEntry(ItemTypeOf(row.name), row.name, row.quantity, price, subtotal, row.contents))
  }

  /** Checkout's loop so far: the entries stored, the running total, and
      whether a row failed (which ends the loop). */
  datatype CartScan = CartScan(entries: seq<CartEntry>, total: real, failed: bool)

  /** How each row reads. */
  function RowReads(rows: seq<CartRow>): (r: seq<Option<CartEntry>>)
    ensures |r| == |rows| && forall i :: 0 <= i < |rows| ==> r[i] == EntryOf(rows[i])
  {
    seq(|rows|, i requires 0 <= i < |rows| => EntryOf(rows[i]))
  }

  /** One turn of checkout's loop, given how the row reads. */
  function CartStep(st: CartScan, read: Option<CartEntry>): CartScan {
    if st.failed then st
    else if read.None? then st.(failed := true)
    else CartScan(st.entries + [read.value], st.total + Value(read.value.subtotal), false)
  }

  /** Checkout's loop over the rows' readings, from the first. */
  function ScanReads(readings: seq<Option<CartEntry>>): CartScan {
    if readings == [] then CartScan([], 0.0, false)
    else CartStep(ScanReads(readings[..|readings| - 1]), readings[|readings| - 1])
  }

  function ScanCart(rows: seq<CartRow>): CartScan {
    ScanReads(RowReads(rows))
  }

  lemma ScanReadsNext(readings: seq<Option<CartEntry>>, i: nat)
    requires i < |readings|
    ensures ScanReads(readings[..i + 1]) == CartStep(ScanReads(readings[..i]), readings[i])
  {
    assert readings[..i + 1][..i] == readings[..i];
  }

  /** Once a row has failed, the rest of the cart is not read. */
  lemma {:induction false} CartFailureSticks(readings: seq<Option<CartEntry>>, k: nat)
    requires k <= |readings| && ScanReads(readings[..k]).failed
    ensures ScanReads(readings) == ScanReads(readings[..k])
    decreases |readings| - k
  {
    if k < |readings| {
      ScanReadsNext(readings, k);
      CartFailureSticks(readings, k + 1);
    } else {
      assert readings[..k] == readings;
    }
  }

  /** Checkout stops at the first row that does not read, keeping the
      entries of the rows before it. */
  lemma FirstFailureStops(rows: seq<CartRow>, k: nat)
    requires k < |rows| && EntryOf(rows[k]).None?
    requires forall i :: 0 <= i < k ==> EntryOf(rows[i]).Some?
    ensures ScanCart(rows).failed
    ensures ScanCart(rows).entries == seq(k, i requires 0 <= i < k => EntryOf(rows[i]).value)
  {
    var readings := RowReads(rows);
    var entries := seq(k, i requires 0 <= i < k => EntryOf(rows[i]).value);
    assert readings[..k] == RowReads(rows[..k]);
    ScanAllRead(readings[..k], entries);
    ScanReadsNext(readings, k);
    CartFailureSticks(readings, k + 1);
  }

  function SumCents(cs: seq<int>): int {
    if cs == [] then 0 else SumCents(cs[..|cs| - 1]) + cs[|cs| - 1]
  }

  /** A rendered amount reads back as the same cents. */
  lemma ReadDollars(c: int)
    ensures ReadAmount(Dollars(c)) == Some(CentsDec(c))
  {
    RemoveCharAppend("$", FormatCents(c), '$');
    assert RemoveChar("$", '$') == "" by { assert "$"[1..] == ""; }
    assert RemoveChar(Dollars(c), '$') == FormatCents(c);
    StripUnchanged(FormatCents(c));
    ParseFormatCents(c);
  }

  /** The entry checkout stores for a row whose amounts are rendered cents. */
  function EntryFor(row: CartRow, price: int, subtotal: int): CartEntry {
    CartEntry(ItemTypeOf(row.name), row.name, row.quantity, CentsDec(price), CentsDec(subtotal), row.contents)
  }

  lemma EntryOfDollars(row: CartRow, price: int, subtotal: int)
    requires row.price == Dollars(price) && row.subtotal == Dollars(subtotal)
    ensures EntryOf(row) == Some(EntryFor(row, price, subtotal))
  {
    ReadDollars(price);
    ReadDollars(subtotal);
  }

  /** Rows whose price and subtotal are the given cents, rendered. */
  predicate RenderedRows(rows: seq<CartRow>, prices: seq<int>, subtotals: seq<int>) {
    |prices| == |rows| && |subtotals| == |rows| &&
    forall i :: 0 <= i < |rows| ==> rows[i].price == Dollars(prices[i]) && rows[i].subtotal == Dollars(subtotals[i])
  }

  /** Rows as the adders write them: rendered from whole cents, each
      subtotal the price times the quantity. */
  predicate AddedRows(rows: seq<CartRow>, prices: seq<int>, subtotals: seq<int>) {
    RenderedRows(rows, prices, subtotals) &&
    forall i :: 0 <= i < |rows| ==> subtotals[i] == prices[i] * rows[i].quantity
  }

  /** Appending a row written from whole cents keeps the rows as the adders
      write them. */
  lemma AddedRowsSnoc(rows: seq<CartRow>, prices: seq<int>, subtotals: seq<int>, row: CartRow, price: int, subtotal: int)
    requires AddedRows(rows, prices, subtotals)
    requires row.price == Dollars(price) && row.subtotal == Dollars(subtotal) && subtotal == price * row.quantity
    ensures AddedRows(rows + [row], prices + [price], subtotals + [subtotal])
  {
  }

  lemma CentsSum(a: int, b: int)
    ensures (a as real) / 100.0 + (b as real) / 100.0 == ((a + b) as real) / 100.0
  {
  }

  /** The sum of the entries' subtotals. */
  function EntriesTotal(entries: seq<CartEntry>): real {
    if entries == [] then 0.0 else EntriesTotal(entries[..|entries| - 1]) + Value(entries[|entries| - 1].subtotal)
  }

  /** When every row reads, checkout stores every entry in order and sums
      their subtotals. */
  lemma {:induction false} ScanAllRead(readings: seq<Option<CartEntry>>, entries: seq<CartEntry>)
    requires |entries| == |readings|
    requires forall i :: 0 <= i < |readings| ==> readings[i] == Some(entries[i])
    ensures ScanReads(readings) == CartScan(entries, EntriesTotal(entries), false)
  {
    if readings != [] {
      var n := |readings| - 1;
      ScanAllRead(readings[..n], entries[..n]);
      assert entries[..n] + [entries[n]] == entries;
    }
  }

  /** Entries whose subtotals are whole cents total their sum. */
  lemma {:induction false} EntriesTotalCents(entries: seq<CartEntry>, subtotals: seq<int>)
    requires |subtotals| == |entries|
    requires forall i :: 0 <= i < |entries| ==> entries[i].subtotal == CentsDec(subtotals[i])
    ensures EntriesTotal(entries) == (SumCents(subtotals) as real) / 100.0
  {
    if entries != [] {
      var n := |entries| - 1;
      EntriesTotalCents(entries[..n], subtotals[..n]);
      ValueOfCents(subtotals[n]);
      CentsSum(SumCents(subtotals[..n]), subtotals[n]);
    }
  }

  /**
   * Checking out rows whose price and subtotal are rendered whole cents (as
   * both adders write them) reads every row, keeps the rows' order, and
   * totals exactly the sum of the subtotals.
   */
  lemma CheckoutTotal(rows: seq<CartRow>, prices: seq<int>, subtotals: seq<int>)
    requires RenderedRows(rows, prices, subtotals)
    ensures !ScanCart(rows).failed
    ensures ScanCart(rows).entries == seq(|rows|, i requires 0 <= i < |rows| => EntryFor(rows[i], prices[i], subtotals[i]))
    ensures ScanCart(rows).total == (SumCents(subtotals) as real) / 100.0
  {
    var entries := seq(|rows|, i requires 0 <= i < |rows| => EntryFor(rows[i], prices[i], subtotals[i]));
    var readings := RowReads(rows);
    forall i | 0 <= i < |rows| ensures readings[i] == Some(entries[i]) {
      EntryOfDollars(rows[i], prices[i], subtotals[i]);
    }
    ScanAllRead(readings, entries);
    EntriesTotalCents(entries, subtotals);
  }

  /** How checkout ended: an empty cart (a warning), a row that would not
      parse (an error box), or the payment dialog's answer with the total. */
  datatype CheckoutOutcome = EmptyCart | CheckoutError | Cancelled(total: real) | PayNow(total: real) | PayLater(total: real)

  // ---------------------------------------------------------------- matching template contents

  /** The first option containing `text`. */
  function FirstContaining(options: seq<string>, text: string): (r: Option<nat>)
    ensures r.Some? ==> r.value < |options| && Contains(options[r.value], text)
    ensures r.Some? ==> forall j :: 0 <= j < r.value ==> !Contains(options[j], text)
    ensures r.None? ==> forall j :: 0 <= j < |options| ==> !Contains(options[j], text)
  {
    if options == [] then None
    else if Contains(options[0], text) then Some(0)
    else
      match FirstContaining(options[1..], text)
      case None => None
      case Some(i) => Some(i + 1)
  }

  lemma {:induction false} FirstContainingIs(options: seq<string>, text: string, j: nat)
    requires j <= |options|
    requires forall k :: 0 <= k < j ==> !Contains(options[k], text)
    requires j < |options| ==> Contains(options[j], text)
    ensures FirstContaining(options, text) == if j < |options| then Some(j) else None
  {
    if options != [] && j > 0 {
      FirstContainingIs(options[1..], text, j - 1);
    }
  }

  /** What `_update_b_contents` sets one chooser to: the first entry of the
      master list containing the template item's text before " x ", or the
      chooser's current text when no entry does. */
  function MatchedChoice(current: string, content: string, options: seq<string>): string {
    match FirstContaining(options, Before(content, " x "))
    case Some(j) => options[j]
    case None => current
  }

  /** The choosers after the first `limit` of them have been matched. */
  function MatchedChoosers(choosers: seq<string>, contents: seq<string>, options: seq<string>, limit: nat): (r: seq<string>)
    ensures |r| == |choosers|
  {
    seq(|choosers|, k requires 0 <= k < |choosers| =>
      if k < limit && k < |contents| then MatchedChoice(choosers[k], contents[k], options) else choosers[k])
  }

  /** A matched chooser shows a master-list entry holding the template item's
      name; only when no entry holds it does the chooser keep its text. */
  lemma MatchedChoiceFits(current: string, content: string, options: seq<string>)
    ensures var r := MatchedChoice(current, content, options);
      (r in options && Contains(r, Before(content, " x "))) ||
      (r == current && forall j :: 0 <= j < |options| ==> !Contains(options[j], Before(content, " x ")))
  {
  }

  // ---------------------------------------------------------------- the product view

  /** Why the view could not be built: a catalog reader failed, or the small
      box template lists fewer items than the small box holds. */
  datatype InitFailure = CatalogFailure(error: CatalogError) | ContentsIndexError

  class Product {
    var veggies: VeggieTables
    var boxes: BoxTemplates
    var boxSize: BoxSize
    var choosers: seq<string>
    var cart: seq<CartRow>
    var cartDict: seq<CartEntry>
    /** The whole cents each cart row's price and subtotal were rendered from. */
    ghost var prices: seq<int>
    ghost var subtotals: seq<int>

    /** Five choosers, and every cart row as an adder wrote it: price and
        subtotal rendered from whole cents, the subtotal the price times the
        quantity. */
    ghost predicate Valid()
      reads this
    {
      |choosers| == ChooserCount && AddedRows(cart, prices, subtotals)
    }

    /** The view's state over loaded catalog tables: small box selected,
        five empty choosers, an empty cart. */
    constructor (veggies: VeggieTables, boxes: BoxTemplates)
      ensures this.veggies == veggies && this.boxes == boxes
      ensures boxSize == Small && choosers == ["", "", "", "", ""] && cart == [] && cartDict == []
      ensures Valid()
    {
      this.veggies := veggies;
      this.boxes := boxes;
      boxSize := Small;
      choosers := ["", "", "", "", ""];
      cart := [];
      cartDict := [];
      prices := [];
      subtotals := [];
    }

    /**
     * `_update_b_contents`: for each of the selected box's first item
     * positions, the chooser moves to the first master-list entry containing
     * the template item's name. A template with fewer items than the box
     * holds stops with IndexError after matching the items it has.
     */
    method UpdateBContents() returns (ok: bool)
      requires Valid()
      modifies this`choosers
      ensures Valid()
      ensures var contents := boxes.Get(boxSize).contents;
        var n := ItemCount(boxSize);
        choosers == MatchedChoosers(old(choosers), contents, veggies.all, if n <= |contents| then n else |contents|) &&
        (ok <==> |old(choosers)| <= |contents| || n <= |contents|)
    {
      var contents := boxes.Get(boxSize).contents;
      var n := ItemCount(boxSize);
      var options := veggies.all;
      ghost var start := choosers;
      var m := |choosers|;
      for i := 0 to m
        invariant |choosers| == m
        invariant i <= |contents| || n <= |contents|
        invariant choosers == MatchedChoosers(start, contents, options, if i <= n then i else n)
      {
        if i < n {
          if i >= |contents| {
            assert MatchedChoosers(start, contents, options, i) ==
                   MatchedChoosers(start, contents, options, |contents|);
            return false;
          }
          var key := Before(contents[i], " x ");
          var j := 0;
          while j < |options| && !Contains(options[j], key)
            invariant 0 <= j <= |options|
            invariant forall k :: 0 <= k < j ==> !Contains(options[k], key)
          {
            j := j + 1;
          }
          FirstContainingIs(options, key, j);
          if j < |options| {
            choosers := choosers[i := options[j]];
          }
          assert choosers == MatchedChoosers(start, contents, options, i + 1);
        }
      }
      ok := true;
      assert n <= |contents|;
      assert choosers == MatchedChoosers(start, contents, options, n);
    }

    /** Choosing a box size on the box tab, which refreshes the choosers;
        `ok` is false when the template raised IndexError. */
    method SelectBoxSize(size: BoxSize) returns (ok: bool)
      requires Valid()
      modifies this`boxSize, this`choosers
      ensures Valid()
      ensures boxSize == size
      ensures var contents := boxes.Get(size).contents;
        var n := ItemCount(size);
        choosers == MatchedChoosers(old(choosers), contents, veggies.all, if n <= |contents| then n else |contents|) &&
        (ok <==> |old(choosers)| <= |contents| || n <= |contents|)
    {
      boxSize := size;
      ok := UpdateBContents();
    }

    /** `_add_to_cart_a`: a row for the chosen entry is appended, or nothing changes. */
    method AddToCartA(product: string, quantityText: string) returns (err: Option<AddError>)
      requires Valid()
      modifies this`cart, this`prices, this`subtotals
      ensures Valid()
      ensures RowA(product, quantityText).Success? ==> err.None? && cart == old(cart) + [RowA(product, quantityText).value]
      ensures RowA(product, quantityText).Failure? ==>
        err == Some(RowA(product, quantityText).error) && cart == old(cart) && prices == old(prices) && subtotals == old(subtotals)
    {
      var row := RowA(product, quantityText);
      if row.Success? {
        ghost var price, subtotal := RowARendered(product, quantityText);
        AddedRowsSnoc(cart, prices, subtotals, row.value, price, subtotal);
        cart := cart + [row.value];
        prices := prices + [price];
        subtotals := subtotals + [subtotal];
        err := None;
      } else {
        err := Some(row.error);
      }
    }

    /** `_add_to_cart_b`: a row for the selected box and the choosers it shows. */
    method AddToCartB(quantityText: string) returns (err: Option<AddError>)
      requires Valid()
      modifies this`cart, this`prices, this`subtotals
      ensures Valid()
      ensures var row := RowB(boxSize, boxes.Get(boxSize).cents, quantityText, choosers);
        (row.Success? ==> err.None? && cart == old(cart) + [row.value]) &&
        (row.Failure? ==> err == Some(row.error) && cart == old(cart) && prices == old(prices) && subtotals == old(subtotals))
    {
      var cents := boxes.Get(boxSize).cents;
      var row := RowB(boxSize, cents, quantityText, choosers);
      if row.Success? {
        ghost var subtotal := RowBRendered(boxSize, cents, quantityText, choosers);
        AddedRowsSnoc(cart, prices, subtotals, row.value, cents, subtotal);
        cart := cart + [row.value];
        prices := prices + [cents];
        subtotals := subtotals + [subtotal];
        err := None;
      } else {
        err := Some(row.error);
      }
    }

    /** `_clear_cart`. */
    method ClearCart()
      requires Valid()
      modifies this`cart, this`prices, this`subtotals
      ensures Valid()
      ensures cart == [] && prices == [] && subtotals == []
    {
      cart := [];
      prices := [];
      subtotals := [];
    }

    /** The loop of `_check_out_order`: `cart_dict` is rebuilt row by row and
        the subtotals are summed, stopping at the first row that does not
        parse. */
    method FillCartDict() returns (total: real, ok: bool)
      modifies this`cartDict
      ensures cartDict == ScanCart(cart).entries
      ensures ok == !ScanCart(cart).failed
      ensures ok ==> total == ScanCart(cart).total
    {
      cartDict := [];
      total := 0.0;
      var rows := cart;
      ghost var readings := RowReads(rows);
      for i := 0 to |rows|
        invariant ScanReads(readings[..i]) == CartScan(cartDict, total, false)
      {
        ScanReadsNext(readings, i);
        var entry := EntryOf(rows[i]);
        if entry.None? {
          CartFailureSticks(readings, i + 1);
          return total, false;
        }
        cartDict := cartDict + [entry.value];
        total := total + Value(entry.value.subtotal);
      }
      assert readings[..|rows|] == readings;
      ok := true;
    }

    /**
     * `_check_out_order`. An empty cart only warns. Otherwise `cart_dict` is
     * rebuilt row by row and the subtotals are summed; a row that does not
     * parse stops with an error, keeping the entries read so far. Then the
     * payment dialog's answer (`None` for Cancel) decides: Cancel keeps the
     * cart, Yes and No both empty it.
     */
    method CheckOutOrder(response: Option<bool>) returns (outcome: CheckoutOutcome)
      requires Valid()
      modifies this`cart, this`cartDict, this`prices, this`subtotals
      ensures Valid()
      ensures old(cart) == [] ==> outcome == EmptyCart && cart == old(cart) && cartDict == old(cartDict)
      ensures old(cart) != [] ==> cartDict == ScanCart(old(cart)).entries
      ensures old(cart) != [] && ScanCart(old(cart)).failed ==>
        outcome == CheckoutError && cart == old(cart) && prices == old(prices) && subtotals == old(subtotals)
      ensures old(cart) != [] && !ScanCart(old(cart)).failed ==>
        var total := ScanCart(old(cart)).total;
        match response
        case None => outcome == Cancelled(total) && cart == old(cart) && prices == old(prices) && subtotals == old(subtotals)
        case Some(true) => outcome == PayNow(total) && cart == []
        case Some(false) => outcome == PayLater(total) && cart == []
    {
      if cart == [] {
        return EmptyCart;
      }
      var total, ok := FillCartDict();
      if !ok {
        return CheckoutError;
      }
      if response.None? {
        return Cancelled(total);
      }
      ClearCart();
      if response.value {
        outcome := PayNow(total);
      } else {
        outcome := PayLater(total);
      }
    }
  }

  /**
   * A cart built by the adders checks out: every row reads, `cart_dict`
   * holds one entry per row in order, and the total is exactly the sum of the
   * rows' subtotals, each the row's price times its quantity.
   */
  lemma ValidCartChecksOut(p: Product)
    requires p.Valid()
    ensures !ScanCart(p.cart).failed
    ensures var cart, prices, subtotals := p.cart, p.prices, p.subtotals;
      ScanCart(cart).entries == seq(|cart|, i requires 0 <= i < |cart| => EntryFor(cart[i], prices[i], subtotals[i]))
    ensures ScanCart(p.cart).total == (SumCents(p.subtotals) as real) / 100.0
    ensures forall i :: 0 <= i < |p.cart| ==> p.subtotals[i] == p.prices[i] * p.cart[i].quantity
  {
    CheckoutTotal(p.cart, p.prices, p.subtotals);
  }

  /**
   * `Product.__init__`: read the vegetables, then the boxes (either reader's
   * error ends construction), then fill the choosers for the small box, whose
   * IndexError also ends it.
   */
  method CreateProduct(vegExists: bool, vegLines: seq<string>, boxExists: bool, boxLines: seq<string>)
    returns (p: Product?, failure: Option<InitFailure>)
    ensures p == null <==> failure.Some?
    ensures !vegExists ==> failure == Some(CatalogFailure(FileNotFound))
    ensures vegExists && LoadVeggies(vegLines).failure.Some? ==> failure == Some(CatalogFailure(LoadVeggies(vegLines).failure.value))
    ensures vegExists && LoadVeggies(vegLines).failure.None? && !boxExists ==> failure == Some(CatalogFailure(FileNotFound))
    ensures vegExists && LoadVeggies(vegLines).failure.None? && boxExists && LoadBoxes(boxLines).failure.Some? ==>
      failure == Some(CatalogFailure(LoadBoxes(boxLines).failure.value))
    ensures vegExists && LoadVeggies(vegLines).failure.None? && boxExists && LoadBoxes(boxLines).failure.None? ==>
      (failure == Some(ContentsIndexError) <==> |LoadBoxes(boxLines).boxes.small.contents| < ItemCount(Small))
    ensures p != null ==>
      fresh(p) && p.veggies == LoadVeggies(vegLines).tables && p.boxes == LoadBoxes(boxLines).boxes &&
      p.boxSize == Small && p.cart == [] && p.cartDict == [] && p.Valid() &&
      ItemCount(Small) <= |p.boxes.small.contents| &&
      p.choosers == MatchedChoosers(["", "", "", "", ""], p.boxes.small.contents, p.veggies.all, ItemCount(Small))
  {
    var v := Catalog.ParseVeggies(vegExists, vegLines);
    if v.failure.Some? {
      return null, Some(CatalogFailure(v.failure.value));
    }
    var b := Catalog.ParseBoxes(boxExists, boxLines);
    if b.failure.Some? {
      return null, Some(CatalogFailure(b.failure.value));
    }
    p := new Product(v.tables, b.boxes);
    var ok := p.UpdateBContents();
    if !ok {
      return null, Some(ContentsIndexError);
    }
    failure := None;
  }
}
