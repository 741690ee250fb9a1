/**
 * The two catalog readers of the storefront (`_parse_veggies` and
 * `_parse_premadeboxes`, written identically in the product view and in the
 * company controller). A file is given as its list of lines and a flag saying
 * whether it exists; what the Python code raises becomes a `CatalogError`.
 *
 * Each reader is specified by a left fold over the lines (`ScanVeggies`,
 * `ScanBoxes`); the methods run the loop imperatively, appending to lists as
 * the Python code does, and are proved equal to the fold.
 */
module Catalog {
  import opened Wrappers
  import opened Text
  import opened Money

  /** FileNotFoundError, a line that does not unpack into `key, value`
      (ValueError), a price that `Decimal` rejects (InvalidOperation), and a
      box line under a section with no `<size>box_default_dict` (AttributeError). */
  datatype CatalogError = FileNotFound | MalformedLine | InvalidPrice | UnknownBoxSize

  /** Python's `line[1:-1]` on a header line. */
  function Inner(line: string): (r: string)
    ensures |line| >= 2 ==> r == line[1..|line| - 1]
    ensures |line| < 2 ==> r == ""
  {
    if |line| >= 2 then line[1..|line| - 1] else ""
  }

  /** How both readers see one line once stripped: blank, a `[section]`
      header, a line with exactly one `=` (so `key, value = line.split('=')`
      succeeds), a line with more than one `=`, or anything else. */
  datatype LineView = Blank | Header(text: string) | Pair(key: string, value: string) | Broken | Plain

  function ViewLine(raw: string): LineView {
    var line := Strip(raw);
    if line == [] then Blank
    else if line[0] == '[' then Header(Inner(line))
    else if '=' in line then
      if CountChar(line, '=') == 1 then
        var k := CharIndex(line, '=');
        Pair(line[..k], line[k + 1..])
      else Broken
    else Plain
  }

  /** `ViewLine` agrees with the Python tests: `'=' in line` and the two-way
      unpacking of `line.split('=')`. */
  lemma ViewLineIsSplit(raw: string)
    ensures var line := Strip(raw);
      (Contains(line, "=") <==> '=' in line) &&
      (ViewLine(raw).Pair? ==> Split(line, "=") == [ViewLine(raw).key, ViewLine(raw).value]) &&
      (ViewLine(raw).Broken? ==> |Split(line, "=")| > 2)
  {
    var line := Strip(raw);
    assert "=" == ['='];
    FindCharFacts(line, '=');
    if line != [] && line[0] != '[' && '=' in line {
      SplitCharCount(line, '=');
      if CountChar(line, '=') == 1 {
        SplitAtOnlyChar(line, '=');
      }
    }
  }

  /** A stripped line `key=value` with no other `=` is seen as that pair. */
  lemma ViewPair(raw: string, key: string, value: string)
    requires Strip(raw) == key + "=" + value && (key == [] || key[0] != '[')
    requires '=' !in key && '=' !in value
    ensures ViewLine(raw) == Pair(key, value)
  {
    var line := Strip(raw);
    var k := |key|;
    assert line[..k] == key && line[k] == '=' && line[k + 1..] == value;
    assert line != [] && line[0] == if key == [] then '=' else key[0];
    CountAround(line, k, '=');
    assert CountChar(line, '=') == 1;
    CharIndexAt(line, '=', k);
    assert ViewLine(raw) == Pair(line[..k], line[k + 1..]);
  }

  /** A stripped line that is not a header and has two `=` is malformed. */
  lemma ViewBroken(raw: string)
    requires var line := Strip(raw); line != [] && line[0] != '[' && CountChar(line, '=') >= 2
    ensures ViewLine(raw) == Broken
  {
  }

  // ================================================================ vegetables

  /** One priced vegetable line: its stripped name and its price in cents. */
  datatype Veggie = Veggie(name: string, cents: int)

  /** The three mode sublists; the mode is read off the item NAME. */
  datatype SalesMode = ByWeight | ByUnit | ByPack | NoMode

  /** `'weight/kg' in name`, else `'unit' in name`, else `'pack' in name`. */
  function ModeOf(name: string): (m: SalesMode)
    ensures m == ByWeight <==> Contains(name, "weight/kg")
    ensures m == ByUnit <==> !Contains(name, "weight/kg") && Contains(name, "unit")
    ensures m == ByPack <==> !Contains(name, "weight/kg") && !Contains(name, "unit") && Contains(name, "pack")
  {
    if Contains(name, "weight/kg") then ByWeight
    else if Contains(name, "unit") then ByUnit
    else if Contains(name, "pack") then ByPack
    else NoMode
  }

  /** The list entry of a vegetable: `f"{name} - ${price:.2f}"`. */
  function Entry(v: Veggie): string {
    v.name + " - $" + FormatCents(v.cents)
  }

  function Entries(vs: seq<Veggie>): (r: seq<string>)
    ensures |r| == |vs|
    ensures forall i :: 0 <= i < |vs| ==> r[i] == Entry(vs[i])
  {
    if vs == [] then [] else Entries(vs[..|vs| - 1]) + [Entry(vs[|vs| - 1])]
  }

  /** The vegetables of one mode, in file order. */
  function InMode(vs: seq<Veggie>, m: SalesMode): seq<Veggie> {
    if vs == [] then []
    else InMode(vs[..|vs| - 1], m) + (if ModeOf(vs[|vs| - 1].name) == m then [vs[|vs| - 1]] else [])
  }

  /** `all_veggies_list` and the weight, unit and pack lists. */
  datatype VeggieTables = VeggieTables(all: seq<string>, weight: seq<string>, unit: seq<string>, pack: seq<string>)

  const NoVeggies := VeggieTables([], [], [], [])

  function TablesOf(vs: seq<Veggie>): VeggieTables {
    VeggieTables(Entries(vs), Entries(InMode(vs, ByWeight)), Entries(InMode(vs, ByUnit)), Entries(InMode(vs, ByPack)))
  }

  /** The reader's state after some lines: the current section (`""` also
      stands for `None`; both are false), the items read so far, and the
      error that stopped it. */
  datatype VeggieScan = VeggieScan(section: string, items: seq<Veggie>, failure: Option<CatalogError>)

  /** What one line does to the reader. */
  function VeggieStep(st: VeggieScan, raw: string): VeggieScan {
    VeggieStepOn(st, ViewLine(raw))
  }

  /** One turn of the reader's loop, given how the line reads. */
  function VeggieStepOn(st: VeggieScan, view: LineView): VeggieScan {
    if st.failure.Some? then st
    else match view
      case Header(text) => st.(section := text)
      case Broken => if st.section != [] then st.(failure := Some(MalformedLine)) else st
      case Pair(key, value) =>
        if st.section == [] then st
        else (match ParseDecimal(Strip(value))
          case None => st.(failure := Some(InvalidPrice))
          case Some(d) => st.(items := st.items + [Veggie(Strip(key), Quantize(d))]))
      case _ => st
  }

  function ScanVeggies(lines: seq<string>): VeggieScan {
    if lines == [] then VeggieScan("", [], None)
    else VeggieStep(ScanVeggies(lines[..|lines| - 1]), lines[|lines| - 1])
  }

  /** The lists a read leaves behind (reset, then filled up to any failing line)
      and the error it raised, if any. */
  datatype VeggieLoad = VeggieLoad(tables: VeggieTables, failure: Option<CatalogError>)

  function LoadVeggies(lines: seq<string>): VeggieLoad {
    var st := ScanVeggies(lines);
    VeggieLoad(TablesOf(st.items), st.failure)
  }

  lemma VeggieScanNext(lines: seq<string>, i: nat)
    requires i < |lines|
    ensures ScanVeggies(lines[..i + 1]) == VeggieStep(ScanVeggies(lines[..i]), lines[i])
  {
    assert lines[..i + 1][..i] == lines[..i];
  }

  lemma VeggieScanSnoc(lines: seq<string>, raw: string)
    ensures ScanVeggies(lines + [raw]) == VeggieStep(ScanVeggies(lines), raw)
  {
    assert (lines + [raw])[..|lines|] == lines;
  }

  /** Once a line has failed, later lines change nothing. */
  lemma {:induction false} VeggieFailureSticks(lines: seq<string>, k: nat)
    requires k <= |lines|
    requires ScanVeggies(lines[..k]).failure.Some?
    ensures ScanVeggies(lines) == ScanVeggies(lines[..k])
  {
    if k < |lines| {
      var n := |lines| - 1;
      assert lines[..n][..k] == lines[..k];
      VeggieFailureSticks(lines[..n], k);
    } else {
      assert lines[..k] == lines;
    }
  }

  lemma EntriesAppend(vs: seq<Veggie>, v: Veggie)
    ensures Entries(vs + [v]) == Entries(vs) + [Entry(v)]
  {
    assert (vs + [v])[..|vs|] == vs;
  }

  lemma InModeAppend(vs: seq<Veggie>, v: Veggie, m: SalesMode)
    ensures InMode(vs + [v], m) == InMode(vs, m) + (if ModeOf(v.name) == m then [v] else [])
  {
    assert (vs + [v])[..|vs|] == vs;
  }

  lemma EntriesAppendIf(vs: seq<Veggie>, v: Veggie, b: bool)
    ensures Entries(vs + (if b then [v] else [])) == Entries(vs) + (if b then [Entry(v)] else [])
  {
    if b {
      EntriesAppend(vs, v);
    } else {
      assert vs + [] == vs;
    }
  }

  /** Appending one item extends the master list and exactly the sublist of its mode. */
  lemma TablesAppend(vs: seq<Veggie>, v: Veggie)
    ensures var t, e, m := TablesOf(vs), Entry(v), ModeOf(v.name);
      TablesOf(vs + [v]) == VeggieTables(t.all + [e],
        t.weight + (if m == ByWeight then [e] else []),
        t.unit + (if m == ByUnit then [e] else []),
        t.pack + (if m == ByPack then [e] else []))
  {
    var m := ModeOf(v.name);
    EntriesAppend(vs, v);
    InModeAppend(vs, v, ByWeight);
    InModeAppend(vs, v, ByUnit);
    InModeAppend(vs, v, ByPack);
    EntriesAppendIf(InMode(vs, ByWeight), v, m == ByWeight);
    EntriesAppendIf(InMode(vs, ByUnit), v, m == ByUnit);
    EntriesAppendIf(InMode(vs, ByPack), v, m == ByPack);
  }

  /** `Product._parse_veggies` / `Company._parse_veggies`. */
  method ParseVeggies(fileExists: bool, lines: seq<string>) returns (r: VeggieLoad)
    ensures !fileExists ==> r == VeggieLoad(NoVeggies, Some(FileNotFound))
    ensures fileExists ==> r == LoadVeggies(lines)
  {
    if !fileExists {
      return VeggieLoad(NoVeggies, Some(FileNotFound));
    }
    var all, weight, unit, pack := [], [], [], [];
    var section := "";
    ghost var items: seq<Veggie> := [];
    var i := 0;
    while i < |lines|
      invariant i <= |lines|
      invariant ScanVeggies(lines[..i]) == VeggieScan(section, items, None)
      invariant VeggieTables(all, weight, unit, pack) == TablesOf(items)
    {
      VeggieScanNext(lines, i);
      var view := ViewLine(lines[i]);
      if view.Header? {
        section := view.text;
      } else if view.Broken? && section != [] {
        VeggieFailureSticks(lines, i + 1);
        return VeggieLoad(VeggieTables(all, weight, unit, pack), Some(MalformedLine));
      } else if view.Pair? && section != [] {
        var name := Strip(view.key);
        var price := ParseDecimal(Strip(view.value));
        if price.None? {
          VeggieFailureSticks(lines, i + 1);
          return VeggieLoad(VeggieTables(all, weight, unit, pack), Some(InvalidPrice));
        }
        var v := Veggie(name, Quantize(price.value));
        var entry := Entry(v);
        all := all + [entry];
        var mode := ModeOf(name);
        if mode == ByWeight {
          weight := weight + [entry];
        } else if mode == ByUnit {
          unit := unit + [entry];
        } else if mode == ByPack {
          pack := pack + [entry];
        }
        TablesAppend(items, v);
        items := items + [v];
      }
      i := i + 1;
    }
    assert lines[..i] == lines;
    return VeggieLoad(VeggieTables(all, weight, unit, pack), None);
  }

  /** `b` contains the elements of `a` in order, possibly with others between. */
  predicate IsSubsequence<T(==)>(a: seq<T>, b: seq<T>) {
    a == [] ||
    (b != [] &&
     ((a[|a| - 1] == b[|b| - 1] && IsSubsequence(a[..|a| - 1], b[..|b| - 1])) ||
      IsSubsequence(a, b[..|b| - 1])))
  }

  /** Every mode sublist is an order-preserving subsequence of the master list. */
  lemma {:induction false} SublistIsSubsequence(vs: seq<Veggie>, m: SalesMode)
    ensures IsSubsequence(Entries(InMode(vs, m)), Entries(vs))
  {
    if vs != [] {
      var init := vs[..|vs| - 1];
      SublistIsSubsequence(init, m);
      assert Entries(vs)[..|vs| - 1] == Entries(init);
      if ModeOf(vs[|vs| - 1].name) == m {
        var a := Entries(InMode(vs, m));
        assert a == Entries(InMode(init, m)) + [Entry(vs[|vs| - 1])];
        assert a[..|a| - 1] == Entries(InMode(init, m));
      } else {
        assert InMode(vs, m) == InMode(init, m);
      }
    }
  }

  /** An item is in a sublist exactly when its name selects that mode. */
  lemma {:induction false} InModeMembers(vs: seq<Veggie>, m: SalesMode, v: Veggie)
    ensures v in InMode(vs, m) <==> v in vs && ModeOf(v.name) == m
  {
    if vs != [] {
      var init := vs[..|vs| - 1];
      InModeMembers(init, m, v);
      assert vs == init + [vs[|vs| - 1]];
    }
  }

  /** The sublists and the unclassified items hold each item exactly once. */
  lemma {:induction false} ModesPartition(vs: seq<Veggie>)
    ensures |InMode(vs, ByWeight)| + |InMode(vs, ByUnit)| + |InMode(vs, ByPack)| + |InMode(vs, NoMode)| == |vs|
  {
    if vs != [] {
      ModesPartition(vs[..|vs| - 1]);
    }
  }

  /** After any read, each sublist is drawn in order from the master list and
      no item is in two sublists, so together they are no longer than it. */
  lemma SublistsFitMasterList(lines: seq<string>)
    ensures var t := LoadVeggies(lines).tables;
      |t.weight| + |t.unit| + |t.pack| <= |t.all| &&
      IsSubsequence(t.weight, t.all) && IsSubsequence(t.unit, t.all) && IsSubsequence(t.pack, t.all)
  {
    var vs := ScanVeggies(lines).items;
    ModesPartition(vs);
    SublistIsSubsequence(vs, ByWeight);
    SublistIsSubsequence(vs, ByUnit);
    SublistIsSubsequence(vs, ByPack);
  }

  /** A vegetable line with two or more `=` under a section stops the reader
      with a ValueError. */
  lemma TwoEqualsFail(st: VeggieScan, raw: string)
    requires st.failure.None? && st.section != []
    requires var line := Strip(raw); line != [] && line[0] != '[' && CountChar(line, '=') >= 2
    ensures VeggieStep(st, raw) == st.(failure := Some(MalformedLine))
  {
    ViewBroken(raw);
  }

  /** A well-formed vegetable line under a section appends its item, with the
      name stripped and the price rounded half up to cents; the name may be
      empty, as in a line `=5`. */
  lemma ItemLineAppends(st: VeggieScan, raw: string, name: string, price: string, d: Dec)
    requires st.failure.None? && st.section != []
    requires Strip(raw) == name + "=" + price && (name == [] || name[0] != '[')
    requires '=' !in name && '=' !in price
    requires ParseDecimal(Strip(price)) == Some(d)
    ensures VeggieStep(st, raw) == st.(items := st.items + [Veggie(Strip(name), Quantize(d))])
  {
    ViewPair(raw, name, price);
    PairAppends(st, name, price, d);
  }

  lemma PairAppends(st: VeggieScan, name: string, price: string, d: Dec)
    requires st.failure.None? && st.section != []
    requires ParseDecimal(Strip(price)) == Some(d)
    ensures VeggieStepOn(st, Pair(name, price)) == st.(items := st.items + [Veggie(Strip(name), Quantize(d))])
  {
  }

  /** A vegetable line under a section whose price `Decimal` rejects stops
      the reader with InvalidOperation; no item is appended. */
  lemma VeggieBadPriceFails(st: VeggieScan, raw: string, name: string, price: string)
    requires st.failure.None? && st.section != []
    requires Strip(raw) == name + "=" + price && (name == [] || name[0] != '[')
    requires '=' !in name && '=' !in price
    requires ParseDecimal(Strip(price)).None?
    ensures VeggieStep(st, raw) == st.(failure := Some(InvalidPrice))
  {
    ViewPair(raw, name, price);
    PairBadPrice(st, name, price);
  }

  lemma PairBadPrice(st: VeggieScan, name: string, price: string)
    requires st.failure.None? && st.section != []
    requires ParseDecimal(Strip(price)).None?
    ensures VeggieStepOn(st, Pair(name, price)) == st.(failure := Some(InvalidPrice))
  {
  }

  /** A header line `[...]` makes the text between the brackets the current
      section (`line[1:-1]`) and appends nothing. */
  lemma VeggieHeaderSelectsSection(st: VeggieScan, raw: string)
    requires st.failure.None?
    requires Strip(raw) != [] && Strip(raw)[0] == '['
    ensures VeggieStep(st, raw) == st.(section := Inner(Strip(raw)))
  {
  }

  /** A line that is blank once stripped changes neither reader. */
  lemma BlankLinesIgnored(vst: VeggieScan, bst: BoxScan, raw: string)
    requires Strip(raw) == []
    ensures VeggieStep(vst, raw) == vst && BoxStep(bst, raw) == bst
  {
  }

  /** `key=value` lines before any section header are ignored. */
  lemma NoSectionIgnored(st: VeggieScan, raw: string)
    requires st.section == [] && !ViewLine(raw).Header?
    ensures VeggieStep(st, raw) == st
  {
  }

  // ================================================================ boxes

  datatype BoxSize = Small | Medium | Large

  /** The size whose `<size>box_default_dict` attribute exists. */
  function SizeNamed(s: string): (r: Option<BoxSize>)
    ensures r == Some(Small) <==> s == "small"
    ensures r == Some(Medium) <==> s == "medium"
    ensures r == Some(Large) <==> s == "large"
  {
    if s == "small" then Some(Small)
    else if s == "medium" then Some(Medium)
    else if s == "large" then Some(Large)
    else None
  }

  /** A `{'price': ..., 'contents': [...]}` box dictionary; the price in cents. */
  datatype BoxTemplate = BoxTemplate(cents: int, contents: seq<string>)

  const EmptyBox := BoxTemplate(0, [])

  datatype BoxTemplates = BoxTemplates(small: BoxTemplate, medium: BoxTemplate, large: BoxTemplate) {
    function Get(size: BoxSize): BoxTemplate {
      match size
      case Small => small
      case Medium => medium
      case Large => large
    }

    function Set(size: BoxSize, t: BoxTemplate): (r: BoxTemplates)
      ensures r.Get(size) == t
      ensures forall other :: other != size ==> r.Get(other) == Get(other)
    {
      match size
      case Small => this.(small := t)
      case Medium => this.(medium := t)
      case Large => this.(large := t)
    }
  }

  const NoBoxes := BoxTemplates(EmptyBox, EmptyBox, EmptyBox)

  /** The box reader's state: the current lowercased section, the three box
      dictionaries, and the error that stopped it. */
  datatype BoxScan = BoxScan(size: string, boxes: BoxTemplates, failure: Option<CatalogError>)

  /** What one line does to the box reader. The key is lowercased but not
      stripped, so only `price=...` (no space before `=`) sets a price. */
  function BoxStep(st: BoxScan, raw: string): BoxScan {
    BoxStepOn(st, ViewLine(raw))
  }

  /** One turn of the reader's loop, given how the line reads. */
  function BoxStepOn(st: BoxScan, view: LineView): BoxScan {
    if st.failure.Some? then st
    else match view
      case Header(text) => st.(size := Lower(text))
      case Broken => if st.size != [] then st.(failure := Some(MalformedLine)) else st
      case Pair(key, value) =>
        if st.size == [] then st
        else if Lower(key) == "price" then
          (match SizeNamed(st.size)
            case None => st.(failure := Some(UnknownBoxSize))
            case Some(size) =>
              match ParseDecimal(Strip(value))
              case None => st.(failure := Some(InvalidPrice))
              case Some(d) => st.(boxes := st.boxes.Set(size, st.boxes.Get(size).(cents := Quantize(d)))))
        else if StartsWith(Lower(key), "item") then
          (match SizeNamed(st.size)
            case None => st.(failure := Some(UnknownBoxSize))
            case Some(size) =>
              var t := st.boxes.Get(size);
              st.(boxes := st.boxes.Set(size, t.(contents := t.contents + [Strip(value)]))))
        else st
      case _ => st
  }

  function ScanBoxes(lines: seq<string>): BoxScan {
    if lines == [] then BoxScan("", NoBoxes, None)
    else BoxStep(ScanBoxes(lines[..|lines| - 1]), lines[|lines| - 1])
  }

  datatype BoxLoad = BoxLoad(boxes: BoxTemplates, failure: Option<CatalogError>)

  function LoadBoxes(lines: seq<string>): BoxLoad {
    var st := ScanBoxes(lines);
    BoxLoad(st.boxes, st.failure)
  }

  lemma BoxScanNext(lines: seq<string>, i: nat)
    requires i < |lines|
    ensures ScanBoxes(lines[..i + 1]) == BoxStep(ScanBoxes(lines[..i]), lines[i])
  {
    assert lines[..i + 1][..i] == lines[..i];
  }

  lemma BoxScanSnoc(lines: seq<string>, raw: string)
    ensures ScanBoxes(lines + [raw]) == BoxStep(ScanBoxes(lines), raw)
  {
    assert (lines + [raw])[..|lines|] == lines;
  }

  /** Once a line has failed, later lines change nothing. */
  lemma {:induction false} BoxFailureSticks(lines: seq<string>, k: nat)
    requires k <= |lines|
    requires ScanBoxes(lines[..k]).failure.Some?
    ensures ScanBoxes(lines) == ScanBoxes(lines[..k])
  {
    if k < |lines| {
      var n := |lines| - 1;
      assert lines[..n][..k] == lines[..k];
      BoxFailureSticks(lines[..n], k);
      assert ScanBoxes(lines) == BoxStep(ScanBoxes(lines[..n]), lines[n]);
    } else {
      assert lines[..k] == lines;
    }
  }

  /** `Product._parse_premadeboxes` / `Company._parse_premadeboxes`. */
  method ParseBoxes(fileExists: bool, lines: seq<string>) returns (r: BoxLoad)
    ensures !fileExists ==> r == BoxLoad(NoBoxes, Some(FileNotFound))
    ensures fileExists ==> r == LoadBoxes(lines)
  {
    if !fileExists {
      return BoxLoad(NoBoxes, Some(FileNotFound));
    }
    var boxes := NoBoxes;
    var size := "";
    var i := 0;
    while i < |lines|
      invariant i <= |lines|
      invariant ScanBoxes(lines[..i]) == BoxScan(size, boxes, None)
    {
      BoxScanNext(lines, i);
      var view := ViewLine(lines[i]);
      if view.Header? {
        size := Lower(view.text);
      } else if view.Broken? && size != [] {
        BoxFailureSticks(lines, i + 1);
        return BoxLoad(boxes, Some(MalformedLine));
      } else if view.Pair? && size != [] {
        var key := Lower(view.key);
        if key == "price" || StartsWith(key, "item") {
          var known := SizeNamed(size);
          if known.None? {
            BoxFailureSticks(lines, i + 1);
            return BoxLoad(boxes, Some(UnknownBoxSize));
          }
          var box := boxes.Get(known.value);
          if key == "price" {
            var price := ParseDecimal(Strip(view.value));
            if price.None? {
              BoxFailureSticks(lines, i + 1);
              return BoxLoad(boxes, Some(InvalidPrice));
            }
            boxes := boxes.Set(known.value, box.(cents := Quantize(price.value)));
          } else {
            boxes := boxes.Set(known.value, box.(contents := box.contents + [Strip(view.value)]));
          }
        }
      }
      i := i + 1;
    }
    assert lines[..i] == lines;
    return BoxLoad(boxes, None);
  }

  /** A header line selects the lowercased section and changes no box. */
  lemma HeaderSelectsSize(st: BoxScan, raw: string)
    requires st.failure.None?
    requires Strip(raw) != [] && Strip(raw)[0] == '['
    ensures BoxStep(st, raw) == st.(size := Lower(Inner(Strip(raw))))
  {
  }

  /** A `price=` line under a box section sets that box's price, rounded half
      up; nothing else changes. Since no other line touches a price, the last
      such line wins. */
  lemma PriceLineSetsPrice(st: BoxScan, raw: string, key: string, value: string, size: BoxSize, d: Dec)
    requires st.failure.None? && SizeNamed(st.size) == Some(size)
    requires Strip(raw) == key + "=" + value && key != [] && key[0] != '['
    requires '=' !in key && '=' !in value && Lower(key) == "price"
    requires ParseDecimal(Strip(value)) == Some(d)
    ensures var after := BoxStep(st, raw);
      after.failure.None? && after.size == st.size &&
      after.boxes.Get(size) == st.boxes.Get(size).(cents := Quantize(d)) &&
      forall other :: other != size ==> after.boxes.Get(other) == st.boxes.Get(other)
  {
    ViewPair(raw, key, value);
    PricePairSets(st, key, value, size, d);
  }

  lemma PricePairSets(st: BoxScan, key: string, value: string, size: BoxSize, d: Dec)
    requires st.failure.None? && SizeNamed(st.size) == Some(size) && Lower(key) == "price"
    requires ParseDecimal(Strip(value)) == Some(d)
    ensures var after := BoxStepOn(st, Pair(key, value));
      after.failure.None? && after.size == st.size &&
      after.boxes.Get(size) == st.boxes.Get(size).(cents := Quantize(d)) &&
      forall other :: other != size ==> after.boxes.Get(other) == st.boxes.Get(other)
  {
  }

  /** A `price=` line under a box section whose value `Decimal` rejects
      stops the reader with InvalidOperation; no price is set. */
  lemma BoxBadPriceFails(st: BoxScan, raw: string, key: string, value: string)
    requires st.failure.None? && SizeNamed(st.size).Some?
    requires Strip(raw) == key + "=" + value && key != [] && key[0] != '['
    requires '=' !in key && '=' !in value && Lower(key) == "price"
    requires ParseDecimal(Strip(value)).None?
    ensures BoxStep(st, raw) == st.(failure := Some(InvalidPrice))
  {
    ViewPair(raw, key, value);
    PriceRejected(st, key, value);
  }

  lemma PriceRejected(st: BoxScan, key: string, value: string)
    requires st.failure.None? && SizeNamed(st.size).Some? && Lower(key) == "price"
    requires ParseDecimal(Strip(value)).None?
    ensures BoxStepOn(st, Pair(key, value)) == st.(failure := Some(InvalidPrice))
  {
  }

  /** An `item...=` line under a box section appends the stripped value to
      that box's contents and changes nothing else. */
  lemma ItemLineAddsContent(st: BoxScan, raw: string, key: string, value: string, size: BoxSize)
    requires st.failure.None? && SizeNamed(st.size) == Some(size)
    requires Strip(raw) == key + "=" + value && key != [] && key[0] != '['
    requires '=' !in key && '=' !in value && StartsWith(Lower(key), "item")
    ensures var after := BoxStep(st, raw);
      after.failure.None? && after.size == st.size &&
      after.boxes.Get(size) == st.boxes.Get(size).(contents := st.boxes.Get(size).contents + [Strip(value)]) &&
      forall other :: other != size ==> after.boxes.Get(other) == st.boxes.Get(other)
  {
    ViewPair(raw, key, value);
    ItemPairAdds(st, key, value, size);
  }

  lemma ItemPairAdds(st: BoxScan, key: string, value: string, size: BoxSize)
    requires st.failure.None? && SizeNamed(st.size) == Some(size) && StartsWith(Lower(key), "item")
    ensures var after := BoxStepOn(st, Pair(key, value));
      after.failure.None? && after.size == st.size &&
      after.boxes.Get(size) == st.boxes.Get(size).(contents := st.boxes.Get(size).contents + [Strip(value)]) &&
      forall other :: other != size ==> after.boxes.Get(other) == st.boxes.Get(other)
  {
    ItemIsNotPrice(Lower(key));
  }

  lemma ItemIsNotPrice(k: string)
    requires StartsWith(k, "item")
    ensures k != "price"
  {
    assert k[..4][0] == k[0];
  }

  /** A line that is not a `price=` pair leaves every price as it was; in
      particular `price = 5` (a space before `=`) sets no price. */
  lemma OtherLineKeepsPrices(st: BoxScan, raw: string, size: BoxSize)
    requires !ViewLine(raw).Pair? || Lower(ViewLine(raw).key) != "price"
    ensures BoxStep(st, raw).boxes.Get(size).cents == st.boxes.Get(size).cents
  {
    if st.failure.None? && ViewLine(raw).Pair? && st.size != [] && Lower(ViewLine(raw).key) != "price"
       && StartsWith(Lower(ViewLine(raw).key), "item") && SizeNamed(st.size).Some? {
      var z := SizeNamed(st.size).value;
      var t := st.boxes.Get(z);
      var after := st.boxes.Set(z, t.(contents := t.contents + [Strip(ViewLine(raw).value)]));
      assert BoxStep(st, raw).boxes == after;
      assert after.Get(size).cents == st.boxes.Get(size).cents;
    }
  }

  /** A price or item line under a section that is not small, medium or large
      stops the reader (the `getattr` lookup fails). */
  lemma UnknownSizeFails(st: BoxScan, raw: string, key: string, value: string)
    requires st.failure.None? && st.size != [] && SizeNamed(st.size).None?
    requires Strip(raw) == key + "=" + value && key != [] && key[0] != '['
    requires '=' !in key && '=' !in value
    requires Lower(key) == "price" || StartsWith(Lower(key), "item")
    ensures BoxStep(st, raw) == st.(failure := Some(UnknownBoxSize))
  {
    ViewPair(raw, key, value);
    assert BoxStepOn(st, Pair(key, value)) == st.(failure := Some(UnknownBoxSize));
  }
}
