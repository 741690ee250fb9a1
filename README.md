# A verified model of the FHV storefront core

The storefront is a Tk application for a fresh-vegetable company: customers log
in, fill a cart with vegetables and premade boxes, check out, and pay. This
project models the parts of it that compute something, not the windows:

- **Catalog readers** (`Catalog`): the two line-by-line readers of the vegetable file and the
  premade-box file, written twice (product view, company controller). Prices are
  rounded to cents half up. Each vegetable goes into the master list and into the
  sublist of its sales mode. Box lines fill a small, medium or large template. The
  errors the Python code raises become a `CatalogError`. Each reader is a method
  with a loop, proved equal to a left fold over the lines.
- **Decimal arithmetic** (`Money`): the subset of `Decimal` the core uses. This is plain
  literals, ROUND_HALF_UP quantizing to cents, exact products, and the two renderings
  (`f"{float(x):.2f}"` and Decimal's own half-even `.2f`).
- **Product view** (`ProductView`): a class over the cart (the Treeview, as a sequence
  of rows), the box-content choosers and `cart_dict`. It covers the two adders, the
  template matcher for the choosers, checkout with its item classification and
  total, clearing the cart, and construction.
- **Entities and id counters** (`Model`): staff, customers, orders and payments. The
  class-level order and payment counters are an `IdCounter` object that every
  construction reads and advances.
- **Order amounts** (`DataInit`): the delivery distance read from an address, the fee
  beyond the delivery radius, and the corporate discount on the base amount.
- **Login** (`LoginView`): credential lookup and the user-information list.
- **Company controller** (`Controller`): the user lookup by type and the catalog tables it holds.
- **Payment panel** (`PaymentView`): the key validators of the card fields, the ordered
  confirmation checks, and the amount labels.
- **Quantity spinbox** (`Widgets`): integer and one-decimal float modes, the key
  validator and the mode setter.

`Text` holds the Python string operations the core relies on (`strip`, `split`,
`join`, `lower`, `in`, `find`, `int`, `str`), on ASCII text. `Wrappers` holds
`Option` and `Result`.

Decimal amounts that are only added, multiplied or compared (balances,
discounts, fees, totals) are `real`. Cart prices, which the
code always quantizes to cents, are whole cents. Clocks, files and message
boxes are parameters or results: a file is its list of lines and a flag
saying whether it exists, and a dialog's answer is an argument.

## Model

| member | source | states |
|---|---|---|
| Catalog.ViewLineIsSplit | product.py:66-73 | The line classification used by the readers agrees with `'=' in line` and with `line.split('=')` unpacking into exactly two parts; two or more `=` give more than two parts |
| Catalog.ModeOf | product.py:84-89 | A name is in weight mode iff it contains "weight/kg", in unit mode iff not that but "unit", in pack mode iff neither but "pack" |
| Catalog.ParseVeggies | product.py:48-96 | A missing file raises FileNotFound and builds nothing; otherwise the four lists equal the left fold over the lines, stopping at the first failing line |
| Catalog.VeggieFailureSticks | product.py:65-96 | Once a line has raised, later lines change neither the lists nor the error |
| Catalog.SublistIsSubsequence | product.py:80-89 | Every mode sublist is an order-preserving subsequence of the master list |
| Catalog.InModeMembers | product.py:84-89 | An item is in a mode's sublist iff it was read and its name selects that mode |
| Catalog.ModesPartition | product.py:84-89 | The three sublists and the unclassified items together hold each item exactly once |
| Catalog.SublistsFitMasterList | product.py:58-89 | After any read, the three sublists are subsequences of the master list and together no longer than it |
| Catalog.TwoEqualsFail | product.py:72-73 | A line with two or more `=` under a section stops the reader with ValueError, changing nothing else |
| Catalog.ItemLineAppends | product.py:72-81 | A `name=price` line under a section appends exactly one item: the stripped name (possibly empty, as in `=5`) with the price rounded half up to cents |
| Catalog.VeggieBadPriceFails | product.py:72-77 | A `name=price` line under a section whose price `Decimal` rejects stops the reader with InvalidOperation and appends nothing |
| Catalog.VeggieHeaderSelectsSection | product.py:70-71 | A header line makes its text between the brackets (`line[1:-1]`) the section and appends nothing |
| Catalog.BlankLinesIgnored | product.py:66-68 | A line that is blank once stripped changes neither the vegetable reader nor the box reader |
| Catalog.NoSectionIgnored | product.py:64-72 | Before any header, every non-header line is ignored |
| Catalog.SizeNamed | product.py:126 | Only "small", "medium" and "large" name a box template, each its own |
| Catalog.ParseBoxes | product.py:98-140 | A missing file raises FileNotFound; otherwise the three templates equal the left fold over the lines, stopping at the first failing line |
| Catalog.BoxFailureSticks | product.py:113-140 | Once a box line has raised, later lines change nothing |
| Catalog.HeaderSelectsSize | product.py:118-119 | A header line selects its lowercased inner text as the section and changes no template |
| Catalog.PriceLineSetsPrice | product.py:124-129 | A `price=` line under a known size sets exactly that template's price, rounded half up; the other templates and the section stay as they were |
| Catalog.BoxBadPriceFails | product.py:124-129 | A `price=` line under a known size whose value `Decimal` rejects stops the reader with InvalidOperation |
| Catalog.ItemLineAddsContent | product.py:130-133 | An `item…=` line under a known size appends the stripped value to exactly that template's contents |
| Catalog.OtherLineKeepsPrices | product.py:121-124 | A line that is not a `price=` pair (for example `price = 5`, whose key keeps its space) leaves every price unchanged |
| Catalog.UnknownSizeFails | product.py:124-133 | A price or item line under a section other than small, medium or large stops the reader, because the template attribute does not exist |
| Money.FormatCents | product.py:78 | The two-decimal rendering of a cents value has no '$', no surrounding white space, and starts with '-' iff the value is negative |
| Money.QuantizeNearest | product.py:75-77 | Quantizing rounds to the nearest cent, at most half a cent away, and a tie goes away from zero |
| Money.QuantizeScale2 | product.py:427 | A decimal that already has two places quantizes to its own value in cents |
| Money.QuantizeProductExact | product.py:428 | A cents price times a whole quantity quantizes to the exact product |
| Money.ParseFormatCents | product.py:494-495 | Reading a rendered amount back with `Decimal` gives the same cents, and quantizing that gives them again |
| Money.HalfEvenCents | payment.py:308-311 | Decimal's `.2f` picks the cents value within half a cent of the exact value, and the even one on a tie |
| Money.HalfEvenExact | payment.py:308-311 | A value that is a whole number of cents is rendered without rounding |
| ProductView.SubtotalExact | product.py:428 | The rounded subtotal always equals price times quantity |
| ProductView.QuantityOfText | product.py:425 | The spinbox text `str(q)` reads back as `q` |
| ProductView.EntrySplit | product.py:426 | A catalog entry splits on " - $" back into the vegetable's name and its rendered price, for a name without '$' |
| ProductView.AddEntryRow | product.py:417-436 | Adding a catalog entry gives a row with the vegetable's name, the quantity, its price, the exact price times quantity, and no contents, for a name without '$' |
| ProductView.AddBoxRow | product.py:442-467 | Adding a box gives a row named after its size, priced at the template price, with the exact subtotal, listing the first `size` choosers |
| ProductView.ContentsSplit | product.py:452-459 | The contents text splits on ", " back into one "name x 1" item per chooser shown, in order |
| ProductView.BoxRowContents | product.py:453-459 | A box row lists exactly as many items as the box holds (3, 4 or 5) |
| ProductView.ContentItemOfEntry | product.py:455-456 | A chooser showing a catalog entry contributes that vegetable's name, for a name without '$' |
| ProductView.UnitsOfTypes | product.py:558-567 | Each item type maps to its unit (box, kg, piece, pack, item), and every other key maps to "item" |
| ProductView.BoxRowsAreBoxes | product.py:499-500 | Every row the box adder writes is classified as a box |
| ProductView.TypeFollowsMode | product.py:498-512 | Outside boxes, a row's type is the sales mode the catalog reader filed its name under |
| ProductView.CartFailureSticks | product.py:488-525 | Once a row fails to read, the rest of the cart is not read |
| ProductView.FirstFailureStops | product.py:488-525 | Checkout fails at the first unreadable row, keeping exactly the entries of the rows before it |
| ProductView.ReadDollars | product.py:494-495 | A rendered "$" amount reads back as the same cents after the '$' is removed |
| ProductView.RowARendered | product.py:426-436 | A row the entry adder builds holds its price and the exact price times quantity, rendered from whole cents |
| ProductView.RowBRendered | product.py:446-467 | A row the box adder builds holds the template's price and the exact price times quantity, rendered |
| ProductView.CheckoutTotal | product.py:483-525 | For rows whose amounts are rendered whole cents, checkout reads every row in order and totals exactly the sum of the subtotals |
| ProductView.ValidCartChecksOut | product.py:417-525 | A cart built by the adders (the view's invariant) checks out with no error, one entry per row in order, and a total equal to the sum of the rows' price times quantity |
| ProductView.FirstContaining | product.py:408-411 | The search finds the first option containing the text, and none when no option does |
| ProductView.MatchedChoiceFits | product.py:407-411 | A matched chooser shows a master-list entry containing the template item's name, or keeps its text when no entry does |
| ProductView.Product.constructor | product.py:256-270 | The view starts with the small box, five empty choosers and an empty cart, and satisfies its invariant (five choosers, every row rendered from whole cents with subtotal = price × quantity) |
| ProductView.Product.UpdateBContents | product.py:393-415 | The first `size` choosers move to their matched entries and the others stay. A template with too few items stops with IndexError after matching the items it has. The invariant is kept |
| ProductView.Product.SelectBoxSize | product.py:237-245 | Choosing a size selects it and refreshes the choosers for that size, keeping the invariant; it reports failure exactly when the template is shorter than both the box and the chooser list (the IndexError of product.py:407) |
| ProductView.Product.AddToCartA | product.py:417-440 | A valid entry appends exactly its row. A missing product, a bad quantity or entry, or a bad price leaves the cart unchanged with the matching error. The invariant is kept |
| ProductView.Product.AddToCartB | product.py:442-472 | A valid quantity appends exactly the box row; a bad one leaves the cart unchanged. The invariant is kept |
| ProductView.Product.ClearCart | product.py:568-574 | The cart becomes empty, keeping the invariant |
| ProductView.Product.FillCartDict | product.py:488-525 | `cart_dict` becomes the scan of the cart; the call succeeds iff no row fails to read, and then the total is the scan's sum |
| ProductView.Product.CheckOutOrder | product.py:474-557 | An empty cart only warns. Otherwise `cart_dict` becomes the scan of the cart. An unreadable row is an error that keeps the cart. Cancel keeps the cart; Yes and No empty it, and all three report the total. The invariant is kept |
| ProductView.CreateProduct | product.py:7-46 | Each reader's error, and a small template shorter than the small box, ends construction. Otherwise the view holds both readers' results with the small box's choosers matched, and satisfies its invariant |
| Model.Staff.constructor | model.py:19-24 | Every field is stored as given |
| Model.Customer.constructor | model.py:34-44 | A private customer stores every field as given and starts with no orders and no payments |
| Model.Customer.Corporate | model.py:55-62 | A corporate customer also stores its discount rate, with the corporate id as customer id |
| Model.IdCounter.constructor | model.py:109 | The counter starts at 1000 with nothing issued |
| Model.IdCounter.Issue | model.py:112-113 | The number read is the old counter value, and the counter moves up by one |
| Model.IssuedAscending | model.py:109-113 | Issued numbers are at least 1000, strictly increasing, and below the counter |
| Model.Numbered | model.py:77 | An id built as prefix + `str(n)` starts with the prefix, and the text after it reads back as n |
| Model.NumberedInjective | model.py:109-113 | With one prefix, two numbers give the same id iff they are equal |
| Model.IdsInjective | model.py:112 | Two counter values give the same order number (or payment id) iff they are equal, and an order number ("ORD…") is never a payment id ("pay…") |
| Model.IssuedOrderNumbersUnique | model.py:109-113 | No two issued order numbers are equal |
| Model.Order.constructor | model.py:108-121 | An order takes the next number and keeps its customer, date and status, with no items and zero discount, fee and total |
| Model.Payment.constructor | model.py:74-80 | A payment takes the next number and keeps its amount, date and card details |
| Model.TwoOrders | model.py:108-113 | Two successive orders take consecutive, distinct numbers and move the counter on by two |
| DataInit.GetCustomerDistance | data_init.py:15-17 | Fewer than two words is IndexError; ValueError exactly when there is a second word and it is no integer; a success is the integer the second word reads as |
| DataInit.DistanceOfAddress | data_init.py:15-17 | An address "word n" has distance n |
| DataInit.CalculateOrderAmounts | data_init.py:19-36 | The call fails iff the distance does. Otherwise total = discounted + fee, and discounted = base × (1 − rate), with rate 0 for private customers |
| DataInit.FeeRule | data_init.py:21-26 | The fee is 10 beyond 20 km and 0 up to 20 km inclusive |
| DataInit.FeeIgnoresDiscount | data_init.py:21-30 | The fee depends only on the address, never on the customer's kind or the base |
| DataInit.PrivatePaysBase | data_init.py:29-32 | A private customer's discounted amount is the base itself |
| DataInit.AmountBounds | data_init.py:28-34 | With a rate in [0, 1], the discounted amount lies in [0, base], and the total is at least it |
| DataInit.SeedDistances | data_init.py:42-47 | The seed addresses have distances 10, 30 and 20 |
| DataInit.SeedFees | data_init.py:42-47 | Of the seed customers, only those at "Distance 30" pay the fee |
| LoginView.FirstMatch | login.py:59-62 | The first record whose username and password both match, and none iff no record matches |
| LoginView.VerifyLogin | login.py:56-76 | A returned staff member or customer comes from the records with exactly those credentials. Nobody is returned iff no record matches |
| LoginView.StaffFirst | login.py:58-62 | A matching staff member wins over every customer, and it is the earliest such staff member |
| LoginView.PrivateBeforeCorporate | login.py:64-74 | Without a matching staff member, a matching private customer wins over corporate customers, and the customer returned is a private one at or before it |
| LoginView.CorporateLast | login.py:70-76 | With no matching staff member or private customer, a matching corporate customer is found, and the customer returned is a corporate one at or before it |
| LoginView.GetUserInfo | login.py:35-53 | One "username, password" line per record: staff, then private, then corporate customers |
| LoginView.VerifiedUserListed | login.py:35-76 | Whoever can log in has their line in the user-information list |
| Controller.LastMatch | controller.py:120-122 | The last record with the username, and none iff there is none |
| Controller.StaffLookupLast | controller.py:118-122 | When a record has the username, a staff lookup ends on a record with that username at or after it and with no later match; when none does, it keeps the current user |
| Controller.CustomerLookupLast | controller.py:128-132 | When a record has the username, a customer lookup ends on a record with that username at or after it and with no later match; when none does, it keeps the current user |
| Controller.Company.constructor | controller.py:10-14 | The controller starts with empty catalog tables, no user, and the records given |
| Controller.Company.ParseVeggies | controller.py:18-72 | A missing file leaves the tables as they were. Otherwise they are replaced with what the lines give |
| Controller.Company.ParseBoxes | controller.py:74-113 | The same for the box templates |
| Controller.Company.Init | controller.py:10-14 | The vegetables are read, then the boxes; an error in the first reader skips the second |
| Controller.Company.GetUser | controller.py:116-132 | "staff" and "corporate" make the last match the user and keep it when none matches. "private" replaces the private slot with the match and keeps the user. A second "private" lookup fails. Other types change nothing |
| Controller.Company.FindStaff | controller.py:120-122 | The staff loop leaves the last matching record as the user |
| Controller.Company.FindPrivate | controller.py:125-127 | The private loop leaves the last match in the private slot |
| Controller.Company.FindCustomer | controller.py:130-132 | A customer loop leaves the last matching record as the user |
| Controller.Company.GetUserIntended | controller.py:116-132 | As intended: "private" makes the last matching private customer the user, and the records stay in place |
| Controller.PrivateLookupAsWritten | controller.py:123-127 | Two "private" lookups of an existing customer leave no user, and the second fails |
| Controller.PrivateLookupIntended | controller.py:123-127 | Under the intended rule, the same two lookups make the customer the user, and both succeed |
| PaymentView.CardInputAccepts | payment.py:222-226 | The card field admits exactly the digit strings of at most 16 characters, the empty one included |
| PaymentView.CvvInputAccepts | payment.py:228-232 | The CVV field admits exactly the digit strings of at most 3 characters |
| PaymentView.ValidatorsPrefixClosed | payment.py:222-232 | Every prefix of an admitted text is admitted, so deleting never leaves a rejected field |
| PaymentView.ValidatorsExtend | payment.py:222-232 | One more digit is admitted iff there is room for it |
| PaymentView.CreditChecks | payment.py:242-268 | A credit payment is confirmed iff all six fields are filled, the card has 16 characters and the CVV 3. With an empty field the answer is "fill in all fields"; with all filled, a card length other than 16 is reported, and with the card right, a CVV length other than 3 |
| PaymentView.DebitChecks | payment.py:274-296 | A debit payment is confirmed iff a bank is chosen and the card has 16 characters. A missing bank is reported first, then an empty card number, then a card length other than 16 |
| PaymentView.ConfirmedCardsAreDigits | payment.py:222-296 | Behind the key validators, a confirmed card number is 16 digits and a confirmed CVV 3 digits |
| PaymentView.AmountLabelsExact | payment.py:306-311 | Whole-cent amounts are shown exactly, after "$" (the discount after "-$"), and the total reads back as its cents |
| Widgets.EmptyAccepted | my_widgts.py:44-45 | The empty text is accepted in either mode and writes nothing |
| Widgets.IntModeAccepts | my_widgts.py:48-53 | Int mode accepts exactly the digit strings worth at least the minimum. It writes the maximum back iff the value exceeds it |
| Widgets.IntModeRejectsNonDigits | my_widgts.py:48-53 | In int mode any non-digit is rejected and writes nothing |
| Widgets.FloatModeRejects | my_widgts.py:56-64 | Float mode rejects two points, any character other than a digit or a point, and more than one digit after the point |
| Widgets.FloatModeAccepts | my_widgts.py:56-68 | A text "w.d" is accepted iff it is worth at least 0.1. It writes the maximum, with one decimal, back iff it is worth more than that |
| Widgets.FloatModeWholeAccepts | my_widgts.py:56-68 | A text of whole digits, alone or with a trailing point ("12", "12."), is accepted iff it is worth at least 0.1, and writes the maximum, with one decimal, back iff it is worth more than that |
| Widgets.PointCases | my_widgts.py:59-70 | "." alone is rejected (its conversion fails), while "5." is accepted |
| Widgets.ValidatedSpinbox.constructor | my_widgts.py:5-16 | The widget starts in float mode, with the maximum `to`, and `from_` as integer minimum and default value |
| Widgets.ValidatedSpinbox.SetModel | my_widgts.py:26-38 | "int" and "float" set the mode, lower bound, step and shown text. Any other name is ValueError and changes nothing |
| Widgets.ValidatedSpinbox.ValidateInput | my_widgts.py:40-70 | The answer is the current mode's verdict. The text becomes the maximum exactly when the verdict clamps, and stays unchanged otherwise |

## Findings

| source | as written | input that shows it | evidently intended | confidence | as-written member | corrected member |
|---|---|---|---|---|---|---|
| controller.py:123-127 | The "private" branch of `get_user` assigns the matching customer to `self.private_customers`, replacing the dictionary it iterates | `get_user("privateSS", "private")` twice, with one private customer of that name: the user stays unset, and the second call fails on `.values()` | `self.user = private_customer`, as the "staff" and "corporate" branches do | high; not executed | Controller.PrivateLookupAsWritten | Controller.PrivateLookupIntended |

## Left out

- ProductView.EntrySplit, ProductView.AddEntryRow and ProductView.ContentItemOfEntry: they assume a vegetable name with no '$', which is more than the " - $" split at product.py:426 needs; a name such as "A$ mix" is outside their contracts.
- The Tk widgets themselves are not modelled: layout, label visibility (`grid`/`grid_remove`), notebook tabs and message box texts. Warnings and errors are returned as outcome values instead.
- `_update_a_products`, which only refills a combobox from the list of the selected sales mode, is not modelled. The lists it reads are modelled.
- The payment callback after "Pay Now" and the payment panel's account payment and cancel are not modelled (UI only).
- File and pickle I/O are not modelled: a catalog file is its lines plus an existence flag, and the record dictionaries are sequences in insertion order.
- Each `print` is left out, including the controller's listing of the vegetables and checkout's warning for an unknown type.
- Float rendering: `f"{float(x):.2f}"` is modelled only for values held in whole cents. The checkout total is shown through a float, which is not modelled.
- Money.FormatCents: renders every integer number of cents exactly, while Python's `float` conversion is exact only up to about 2^46 dollars (about 7·10^13); beyond that the model and the program print different digits.
- Catalog.ParseVeggies, Catalog.ParseBoxes, ProductView.RowA and ProductView.Product.AddToCartA: `Decimal` is modelled for plain literals: a sign, digits, one optional point, at least one digit. Exponents, `NaN`, `Infinity` and underscores are rejected in the model, though Python accepts them. The sign of a negative zero is not tracked, and the 28-digit context precision is treated as unbounded.
- Text.ParseInt: Python's `int()` also accepts underscores between digits ("1_0" is 10); the model rejects them, so DataInit.GetCustomerDistance and ProductView.ParseQuantity fail on such text where the program succeeds.
- Text: `strip`, `isspace`, `isdigit` and `lower` are modelled on ASCII only; Python's Unicode digits and white space are not.
- ProductView.Product.CheckOutOrder: the Treeview's conversion of stored values (a numeric-looking name would come back as a number) is not modelled. Rows keep their types.
- ProductView.Product.UpdateBContents: the chooser that Tk shows for a hidden row is not modelled; only the chooser texts are.
- Widgets.ValidatedSpinbox.ValidateInput: what Tk does when `set` is called during validation (it switches validation off) is not modelled. Bounds `from_` and `to` are assumed whole numbers, and `float` is modelled in tenths.
- Controller.Company.constructor: the Python `__init__` never sets the record dictionaries or the user. The model takes them as constructor arguments and starts with no user.
- Model: the `Item`, `Veggie`, `WeightedVeggie`, `PackVeggie`, `UnitPriceVeggie` and `PremadeBox` classes and every `__str__` are left out, because the core never uses them.
- Model.TwoOrders is stated for orders drawn from any valid counter, not only the class-level counter starting at 1000.
- The screens `customer_home.py`, `staff_home.py`, `table_structure.py` and `text1.py`, and the scripts `run.py`, `model_pickle.py` and `data_save.py`, are not part of this model.
