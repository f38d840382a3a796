/** The tonnage calculator of services/calculTonnage.js: each order line's
    quantity is weighed with its catalogue product's weight, converted to grams
    through a fixed unit table, and the grand total is reported in tonnes. */
module Tonnage {
  import opened Common

  /** A catalogue entry: `_id`, `weight` and the optional `unite` string. */
  datatype Product = Product(id: string, weight: real, unit: Option<string>)

  /** An order line of a client: `productId` and `quantity`. */
  datatype OrderLine = OrderLine(productId: string, quantity: real)

  const GramsPerTonne: real := 1000000.0

  /** `toLowerCase` on the characters that can lower-case into a unit name:
      the ASCII capitals and the Kelvin sign, which lower-cases to 'k'. */
  function LowerChar(c: char): char {
    if 'A' <= c <= 'Z' then (c as int + 32) as char
    else if c == '\U{212A}' then 'k'
    else c
  }

  function Lower(s: string): string {
    seq(|s|, i requires 0 <= i < |s| => LowerChar(s[i]))
  }

  /** The unit a product is weighed in: its `unite` lower-cased, or '' when absent. */
  function UnitName(p: Product): string {
    match p.unit
    case Some(u) => Lower(u)
    case None => ""
  }

  /** Grams per unit of the unit table; 0 for a unit the table does not know. */
  function GramsPerUnit(unit: string): real {
    match unit
    case "g" => 1.0
    case "gr" => 1.0
    case "kg" => 1000.0
    case "tonnes" => 1000000.0
    case "l" => 1000.0
    case "ml" => 1.0
    case "cl" => 10.0
    case _ => 0.0
  }

  predicate KnownUnit(unit: string) {
    unit in {"g", "gr", "kg", "tonnes", "l", "ml", "cl"}
  }

  /** `find`: the position of the first catalogue entry whose id is `id`. */
  function FindProduct(catalogue: seq<Product>, id: string): (r: Option<nat>)
    ensures r.Some? ==> r.value < |catalogue| && catalogue[r.value].id == id
    ensures r.Some? ==> forall j :: 0 <= j < r.value ==> catalogue[j].id != id
    ensures r.None? ==> forall j :: 0 <= j < |catalogue| ==> catalogue[j].id != id
    decreases |catalogue|
  {
    if catalogue == [] then None
    else if catalogue[0].id == id then Some(0)
    else match FindProduct(catalogue[1..], id)
      case Some(k) => Some(k + 1)
      case None => None
  }

  /** Grams one order line contributes: unit weight in grams times quantity, or 0. */
  function LineGrams(line: OrderLine, catalogue: seq<Product>): real {
    match FindProduct(catalogue, line.productId)
    case None => 0.0
    case Some(k) =>
      var p := catalogue[k];
      p.weight * GramsPerUnit(UnitName(p)) * line.quantity
  }

  /** The grams accumulated over the lines, in order. */
  function TotalGrams(lines: seq<OrderLine>, catalogue: seq<Product>): real
    decreases |lines|
  {
    if lines == [] then 0.0
    else TotalGrams(lines[..|lines| - 1], catalogue) + LineGrams(lines[|lines| - 1], catalogue)
  }

  /** The result of `calculerTonnageClient`; `None` stands for an argument that is not an array. */
  function TonnageOf(lines: Option<seq<OrderLine>>, catalogue: Option<seq<Product>>): real {
    if lines.None? || catalogue.None? then 0.0
    else TotalGrams(lines.value, catalogue.value) / GramsPerTonne
  }

  /** The loop of `calculerTonnageClient`, accumulating grams line by line. */
  method CalculerTonnageClient(lines: Option<seq<OrderLine>>, catalogue: Option<seq<Product>>)
    returns (tonnes: real)
    ensures lines.None? || catalogue.None? ==> tonnes == 0.0
    ensures tonnes == TonnageOf(lines, catalogue)
  {
    if lines.None? || catalogue.None? {
      return 0.0;
    }
    var ls, cat := lines.value, catalogue.value;
    var grams := 0.0;
    var i := 0;
    while i < |ls|
      invariant 0 <= i <= |ls|
      invariant grams == TotalGrams(ls[..i], cat)
    {
      var line := ls[i];
      var found := FindProduct(cat, line.productId);
      if found.Some? {
        var p := cat[found.value];
        var unitGrams := p.weight * GramsPerUnit(UnitName(p));
        grams := grams + unitGrams * line.quantity;
      }
      assert ls[..i + 1][..i] == ls[..i];
      i := i + 1;
    }
    assert ls[..i] == ls;
    tonnes := grams / GramsPerTonne;
  }

  /** The unit table: exactly the seven units have a non-zero factor, with these values. */
  lemma UnitTable(unit: string)
    ensures GramsPerUnit(unit) != 0.0 <==> KnownUnit(unit)
    ensures GramsPerUnit("g") == GramsPerUnit("gr") == GramsPerUnit("ml") == 1.0
    ensures GramsPerUnit("kg") == GramsPerUnit("l") == 1000.0
    ensures GramsPerUnit("cl") == 10.0 && GramsPerUnit("tonnes") == GramsPerTonne
  {
  }

  /** Units are matched without regard to case: two spellings that lower-case alike weigh alike. */
  lemma {:induction false} UnitCaseInsensitive(p: Product, u: string)
    requires p.unit.Some? && Lower(p.unit.value) == Lower(u)
    ensures GramsPerUnit(UnitName(p)) == GramsPerUnit(UnitName(p.(unit := Some(u))))
  {
  }

  /** "KG", "Kg" and "L" are read as kilograms and litres. */
  lemma UpperCaseUnits()
    ensures GramsPerUnit(Lower("KG")) == 1000.0
    ensures GramsPerUnit(Lower("Kg")) == 1000.0
    ensures GramsPerUnit(Lower("L")) == 1000.0
  {
    assert Lower("KG") == "kg";
    assert Lower("Kg") == "kg";
    assert Lower("L") == "l";
  }

  /** A line whose product is missing, or whose unit is unknown, adds nothing. */
  lemma IgnoredLine(lines: seq<OrderLine>, line: OrderLine, catalogue: seq<Product>)
    requires FindProduct(catalogue, line.productId).None? ||
             !KnownUnit(UnitName(catalogue[FindProduct(catalogue, line.productId).value]))
    ensures TonnageOf(Some(lines + [line]), Some(catalogue)) == TonnageOf(Some(lines), Some(catalogue))
  {
    assert (lines + [line])[..|lines|] == lines;
    if FindProduct(catalogue, line.productId).Some? {
      UnitTable(UnitName(catalogue[FindProduct(catalogue, line.productId).value]));
    }
  }

  /** The first catalogue entry with the id is the one weighed, whatever follows it. */
  lemma FirstMatchWins(line: OrderLine, p: Product, rest: seq<Product>)
    requires p.id == line.productId
    ensures LineGrams(line, [p] + rest) == p.weight * GramsPerUnit(UnitName(p)) * line.quantity
  {
  }

  lemma {:induction false} TotalGramsAppend(a: seq<OrderLine>, b: seq<OrderLine>, catalogue: seq<Product>)
    ensures TotalGrams(a + b, catalogue) == TotalGrams(a, catalogue) + TotalGrams(b, catalogue)
    decreases |b|
  {
    if b == [] {
      assert a + b == a;
    } else {
      assert (a + b)[..|a + b| - 1] == a + b[..|b| - 1];
      TotalGramsAppend(a, b[..|b| - 1], catalogue);
    }
  }

  /** Tonnage is additive over concatenated line lists. */
  lemma TonnageAppend(a: seq<OrderLine>, b: seq<OrderLine>, catalogue: seq<Product>)
    ensures TonnageOf(Some(a + b), Some(catalogue))
         == TonnageOf(Some(a), Some(catalogue)) + TonnageOf(Some(b), Some(catalogue))
  {
    TotalGramsAppend(a, b, catalogue);
  }

  /** The tonnage of each line taken alone, in order. */
  function SingleLineTonnages(lines: seq<OrderLine>, catalogue: seq<Product>): (r: seq<real>)
    ensures |r| == |lines|
  {
    seq(|lines|, i requires 0 <= i < |lines| => TonnageOf(Some([lines[i]]), Some(catalogue)))
  }

  /** The tonnage of a list is the sum of the tonnages of its one-line sublists. */
  lemma {:induction false} TonnageIsSumOfSingleLines(lines: seq<OrderLine>, catalogue: seq<Product>)
    ensures TonnageOf(Some(lines), Some(catalogue)) == Sum(SingleLineTonnages(lines, catalogue))
    decreases |lines|
  {
    if lines != [] {
      var init := lines[..|lines| - 1];
      var last := lines[|lines| - 1];
      assert lines == init + [last];
      TonnageIsSumOfSingleLines(init, catalogue);
      TonnageAppend(init, [last], catalogue);
      assert SingleLineTonnages(lines, catalogue)[..|lines| - 1] == SingleLineTonnages(init, catalogue);
    }
  }
}
