/** The option map of one source product and the price rule of a variation.
    Prices are integers (cents), so sums are exact. */
module Options {

  /** One row of the option-value query: the value's label, its unsigned
      price adjustment and the prefix that gives its sign. */
  datatype ValueRow = ValueRow(term: string, price: int, prefix: string)

  /** One option of the product with its value rows, in query order. */
  datatype OptionRow = OptionRow(name: string, values: seq<ValueRow>)

  /** What the option map holds for one option: the labels in order and the
      signed delta of each label. */
  datatype OptionData = OptionData(values: seq<string>, prices: map<string, int>)

  datatype OptionEntry = OptionEntry(name: string, data: OptionData)

  /** The option map: entries in insertion order, keyed by option name. */
  type OptionMap = seq<OptionEntry>

  /** The signed adjustment of a value: negated exactly when the prefix is "-". */
  function SignedDelta(v: ValueRow): (d: int)
    ensures v.prefix == "-" ==> d == -v.price
    ensures v.prefix != "-" ==> d == v.price
  {
    (if v.prefix == "-" then -1 else 1) * v.price
  }

  /** No later row carries the term of row i. */
  ghost predicate LastWithTerm(rows: seq<ValueRow>, i: nat)
    requires i < |rows|
  {
    forall j :: i < j < |rows| ==> rows[j].term != rows[i].term
  }

  /** The terms of the rows in order, and for each term the signed delta of
      the row that carries it (a later row overwrites an earlier one). */
  function DataOf(rows: seq<ValueRow>): (d: OptionData)
    ensures |d.values| == |rows|
    ensures forall i :: 0 <= i < |rows| ==> d.values[i] == rows[i].term
  {
    if |rows| == 0 then OptionData([], map[])
    else
      var d := DataOf(rows[..|rows| - 1]);
      var v := rows[|rows| - 1];
      OptionData(d.values + [v.term], d.prices[v.term := SignedDelta(v)])
  }

  /** Exactly the terms carry a delta. */
  lemma {:induction false} DataOfKeys(rows: seq<ValueRow>)
    ensures forall l :: l in DataOf(rows).prices <==> l in DataOf(rows).values
  {
    if |rows| > 0 {
      DataOfKeys(rows[..|rows| - 1]);
    }
  }

  /** A term's delta is the signed delta of the last row that carries it. */
  lemma {:induction false} DataOfPrices(rows: seq<ValueRow>)
    ensures forall i :: 0 <= i < |rows| && LastWithTerm(rows, i) ==>
              rows[i].term in DataOf(rows).prices && DataOf(rows).prices[rows[i].term] == SignedDelta(rows[i])
  {
    if |rows| > 0 {
      var n := |rows| - 1;
      var prev := DataOf(rows[..n]).prices;
      DataOfPrices(rows[..n]);
      assert DataOf(rows).prices == prev[rows[n].term := SignedDelta(rows[n])];
      forall i | 0 <= i < n && LastWithTerm(rows, i)
        ensures rows[i].term in DataOf(rows).prices && DataOf(rows).prices[rows[i].term] == SignedDelta(rows[i])
      {
        assert rows[..n][i] == rows[i];
        assert LastWithTerm(rows[..n], i);
        assert rows[i].term != rows[n].term;
      }
    }
  }

  /** The inner loop that collects one option's terms and deltas. */
  method BuildOptionData(rows: seq<ValueRow>) returns (d: OptionData)
    ensures d == DataOf(rows)
  {
    var vals: seq<string> := [];
    var prices: map<string, int> := map[];
    for i := 0 to |rows|
      invariant OptionData(vals, prices) == DataOf(rows[..i])
    {
      var term := rows[i].term;
      vals := vals + [term];
      prices := prices[term := SignedDelta(rows[i])];
      assert rows[..i + 1][..i] == rows[..i];
    }
    assert rows[..|rows|] == rows;
    d := OptionData(vals, prices);
  }

  /** The option names in map order. */
  function Names(om: OptionMap): (ns: seq<string>)
    ensures |ns| == |om| && forall i :: 0 <= i < |om| ==> ns[i] == om[i].name
  {
    seq(|om|, i requires 0 <= i < |om| => om[i].name)
  }

  ghost predicate DistinctNames(om: OptionMap)
  {
    forall i, j :: 0 <= i < j < |om| ==> om[i].name != om[j].name
  }

  /** Position of the entry named `name`, or |om| when there is none. */
  function Position(om: OptionMap, name: string): (i: nat)
    ensures i <= |om|
    ensures i < |om| ==> om[i].name == name
    ensures forall j :: 0 <= j < i ==> om[j].name != name
  {
    if |om| == 0 then 0
    else if om[0].name == name then 0
    else 1 + Position(om[1..], name)
  }

  /** Assignment to the option map under key `name`: an existing key keeps its
      position and takes the new data; a new key is appended at the end. */
  function Put(om: OptionMap, name: string, data: OptionData): (r: OptionMap)
    requires DistinctNames(om)
    ensures DistinctNames(r)
    ensures name in Names(om) ==> Names(r) == Names(om)
    ensures name !in Names(om) ==> Names(r) == Names(om) + [name]
    ensures forall i :: 0 <= i < |r| && r[i].name == name ==> r[i].data == data
    ensures forall i :: 0 <= i < |r| && r[i].name != name ==> i < |om| && r[i] == om[i]
  {
    var i := Position(om, name);
    if i < |om| then
      om[i := OptionEntry(name, data)]
    else
      om + [OptionEntry(name, data)]
  }

  /** The option map the outer loop builds from the option rows. */
  function OptionMapOf(rows: seq<OptionRow>): (om: OptionMap)
    ensures DistinctNames(om)
  {
    if |rows| == 0 then []
    else Put(OptionMapOf(rows[..|rows| - 1]), rows[|rows| - 1].name, DataOf(rows[|rows| - 1].values))
  }

  /** The elements of `s` in order of first occurrence, without repeats. */
  function FirstOccurrences(s: seq<string>): seq<string>
  {
    if |s| == 0 then []
    else if s[|s| - 1] in FirstOccurrences(s[..|s| - 1]) then FirstOccurrences(s[..|s| - 1])
    else FirstOccurrences(s[..|s| - 1]) + [s[|s| - 1]]
  }

  /** No later option row has the name of row i. */
  ghost predicate LastWithName(rows: seq<OptionRow>, i: nat)
    requires i < |rows|
  {
    forall j :: i < j < |rows| ==> rows[j].name != rows[i].name
  }

  /** The option map lists each option name once, in order of first
      appearance among the rows. */
  lemma {:induction false} OptionMapNames(rows: seq<OptionRow>)
    ensures Names(OptionMapOf(rows)) == FirstOccurrences(seq(|rows|, i requires 0 <= i < |rows| => rows[i].name))
  {
    if |rows| > 0 {
      var n := |rows| - 1;
      OptionMapNames(rows[..n]);
      var all := seq(|rows|, i requires 0 <= i < |rows| => rows[i].name);
      assert all[..n] == seq(n, i requires 0 <= i < n => rows[..n][i].name);
    }
  }

  /** Each entry of the option map holds the data of the last row with its
      name. */
  lemma {:induction false} OptionMapData(rows: seq<OptionRow>)
    ensures forall i, k ::
              (0 <= i < |rows| && LastWithName(rows, i) && 0 <= k < |OptionMapOf(rows)| &&
               OptionMapOf(rows)[k].name == rows[i].name) ==>
              OptionMapOf(rows)[k].data == DataOf(rows[i].values)
  {
    if |rows| > 0 {
      var n := |rows| - 1;
      var front := rows[..n];
      OptionMapData(front);
      var om := OptionMapOf(rows);
      forall i, k | 0 <= i < |rows| && LastWithName(rows, i) && 0 <= k < |om| && om[k].name == rows[i].name
        ensures om[k].data == DataOf(rows[i].values)
      {
        if i < n {
          assert front[i] == rows[i] && LastWithName(front, i);
          assert rows[i].name != rows[n].name;
          assert om[k] == OptionMapOf(front)[k];
        }
      }
    }
  }

  /** The option map is empty exactly when there are no option rows. */
  lemma OptionMapEmpty(rows: seq<OptionRow>)
    ensures |OptionMapOf(rows)| == 0 <==> |rows| == 0
  {
    if |rows| > 0 {
      var n := |rows| - 1;
      assert rows[n].name in Names(OptionMapOf(rows));
    }
  }

  /** The outer loop that fills the option map row by row. */
  method BuildOptionMap(rows: seq<OptionRow>) returns (om: OptionMap)
    ensures om == OptionMapOf(rows)
  {
    om := [];
    for i := 0 to |rows|
      invariant om == OptionMapOf(rows[..i])
    {
      var data := BuildOptionData(rows[i].values);
      om := Put(om, rows[i].name, data);
      assert rows[..i + 1][..i] == rows[..i];
    }
    assert rows[..|rows|] == rows;
  }

  /** The value lists of the options, in option-map order: the input of the
      combination generator. */
  function ValueLists(om: OptionMap): (lists: seq<seq<string>>)
    ensures |lists| == |om| && forall i :: 0 <= i < |om| ==> lists[i] == om[i].data.values
  {
    seq(|om|, i requires 0 <= i < |om| => om[i].data.values)
  }

  /** Every label of every option in the map has a price. */
  ghost predicate PricedValues(om: OptionMap)
  {
    forall i, l :: 0 <= i < |om| && l in om[i].data.values ==> l in om[i].data.prices
  }

  /** The option map prices every label it lists: each entry is the data of
      one option row, whose price table is keyed by exactly its labels. */
  lemma {:induction false} OptionMapPriced(rows: seq<OptionRow>)
    ensures PricedValues(OptionMapOf(rows))
  {
    if |rows| > 0 {
      var n := |rows| - 1;
      OptionMapPriced(rows[..n]);
      DataOfKeys(rows[n].values);
    }
  }

  /** The delta of the selected label; a label without a delta reads as 0
      (a case the generated combinations never reach: see
      `Variations.DeltaNeverDefaults`). */
  function Delta(d: OptionData, selected: string): int
  {
    if selected in d.prices then d.prices[selected] else 0
  }

  /** Sum of the deltas of the selected labels, option by option. */
  function SumDeltas(om: OptionMap, combo: seq<string>): int
    requires |combo| == |om|
  {
    if |om| == 0 then 0
    else SumDeltas(om[..|om| - 1], combo[..|om| - 1]) + Delta(om[|om| - 1].data, combo[|om| - 1])
  }

  /** A variation's price: the base price plus the signed delta of every
      selected value. */
  function PriceOf(base: int, om: OptionMap, combo: seq<string>): int
    requires |combo| == |om|
  {
    base + SumDeltas(om, combo)
  }

  /** The attributes of a variation: option slug to selected label; when two
      option names share a slug the later option wins. */
  function AttrsOf(om: OptionMap, slugOf: string -> string, combo: seq<string>): map<string, string>
    requires |combo| == |om|
  {
    if |om| == 0 then map[]
    else AttrsOf(om[..|om| - 1], slugOf, combo[..|om| - 1])[slugOf(om[|om| - 1].name) := combo[|om| - 1]]
  }

  /** The loop over the option map that fills in one variation's attributes
      and accumulates its price. */
  method ComputeVariation(om: OptionMap, slugOf: string -> string, base: int, combo: seq<string>)
    returns (attrs: map<string, string>, price: int)
    requires |combo| == |om|
    ensures price == PriceOf(base, om, combo)
    ensures attrs == AttrsOf(om, slugOf, combo)
  {
    price := base;
    attrs := map[];
    var i := 0;
    while i < |om|
      invariant 0 <= i <= |om|
      invariant price == base + SumDeltas(om[..i], combo[..i])
      invariant attrs == AttrsOf(om[..i], slugOf, combo[..i])
    {
      var d := om[i];
      var slug := slugOf(d.name);
      var selected := combo[i];
      i := i + 1;
      attrs := attrs[slug := selected];
      price := price + Delta(d.data, selected);
      assert om[..i][..i - 1] == om[..i - 1] && combo[..i][..i - 1] == combo[..i - 1];
    }
    assert om[..|om|] == om && combo[..|om|] == combo;
  }

  /** The slugs of the option names, in map order. */
  function Slugs(om: OptionMap, slugOf: string -> string): (ss: seq<string>)
    ensures |ss| == |om| && forall i :: 0 <= i < |om| ==> ss[i] == slugOf(om[i].name)
  {
    seq(|om|, i requires 0 <= i < |om| => slugOf(om[i].name))
  }

  /** The attribute keys are exactly the slugs of the options. */
  lemma {:induction false} AttrsKeys(om: OptionMap, slugOf: string -> string, combo: seq<string>)
    requires |combo| == |om|
    ensures forall s :: s in AttrsOf(om, slugOf, combo) <==> s in Slugs(om, slugOf)
  {
    if |om| > 0 {
      var n := |om| - 1;
      AttrsKeys(om[..n], slugOf, combo[..n]);
      assert Slugs(om, slugOf) == Slugs(om[..n], slugOf) + [slugOf(om[n].name)];
    }
  }

  /** When the option names have distinct slugs, each option's slug maps to
      the term selected for that option. */
  lemma {:induction false} AttrsRecordSelection(om: OptionMap, slugOf: string -> string, combo: seq<string>)
    requires |combo| == |om|
    requires forall i, j :: 0 <= i < j < |om| ==> slugOf(om[i].name) != slugOf(om[j].name)
    ensures forall i :: 0 <= i < |om| ==>
              slugOf(om[i].name) in AttrsOf(om, slugOf, combo) && AttrsOf(om, slugOf, combo)[slugOf(om[i].name)] == combo[i]
  {
    if |om| > 0 {
      var n := |om| - 1;
      AttrsRecordSelection(om[..n], slugOf, combo[..n]);
      forall i | 0 <= i < n
        ensures AttrsOf(om, slugOf, combo)[slugOf(om[i].name)] == combo[i]
      {
        assert om[..n][i] == om[i] && combo[..n][i] == combo[i];
      }
    }
  }

  /** When no value row carries the "-" prefix and no adjustment is negative,
      no variation is priced below the base price. */
  lemma NoDiscountNeverCheaper(rows: seq<OptionRow>, base: int, combo: seq<string>)
    requires forall i, j :: 0 <= i < |rows| && 0 <= j < |rows[i].values| ==>
               rows[i].values[j].prefix != "-" && rows[i].values[j].price >= 0
    requires |combo| == |OptionMapOf(rows)|
    ensures PriceOf(base, OptionMapOf(rows), combo) >= base
  {
    var om := OptionMapOf(rows);
    DeltasOfRowsNonNegative(rows);
    SumNonNegative(om, combo);
  }

  ghost predicate DeltasNonNegative(om: OptionMap)
  {
    forall k, l :: 0 <= k < |om| && l in om[k].data.prices ==> om[k].data.prices[l] >= 0
  }

  lemma {:induction false} DataNonNegative(vals: seq<ValueRow>)
    requires forall j :: 0 <= j < |vals| ==> vals[j].prefix != "-" && vals[j].price >= 0
    ensures forall l :: l in DataOf(vals).prices ==> DataOf(vals).prices[l] >= 0
  {
    if |vals| > 0 {
      DataNonNegative(vals[..|vals| - 1]);
    }
  }

  lemma {:induction false} DeltasOfRowsNonNegative(rows: seq<OptionRow>)
    requires forall i, j :: 0 <= i < |rows| && 0 <= j < |rows[i].values| ==>
               rows[i].values[j].prefix != "-" && rows[i].values[j].price >= 0
    ensures DeltasNonNegative(OptionMapOf(rows))
  {
    if |rows| > 0 {
      var front := rows[..|rows| - 1];
      DeltasOfRowsNonNegative(front);
      DataNonNegative(rows[|rows| - 1].values);
    }
  }

  lemma {:induction false} SumNonNegative(om: OptionMap, combo: seq<string>)
    requires |combo| == |om| && DeltasNonNegative(om)
    ensures SumDeltas(om, combo) >= 0
  {
    if |om| > 0 {
      var n := |om| - 1;
      assert DeltasNonNegative(om[..n]) by {
        forall k, l | 0 <= k < n && l in om[..n][k].data.prices
          ensures om[..n][k].data.prices[l] >= 0
        {
          assert om[..n][k] == om[k];
        }
      }
      SumNonNegative(om[..n], combo[..n]);
    }
  }

  /** The rows of the worked example: Size {S: 0, M: +2.00, L: +4.00} and
      Color {Red: 0, Blue: +5.00}, in cents. */
  function ExampleRows(): seq<OptionRow>
  {
    [OptionRow("Size", [ValueRow("S", 0, "+"), ValueRow("M", 200, "+"), ValueRow("L", 400, "+")]),
     OptionRow("Color", [ValueRow("Red", 0, "+"), ValueRow("Blue", 500, "+")])]
  }

  /** The example's option map: Size then Color, each with its row's data. */
  lemma ExampleOptionMap()
    ensures OptionMapOf(ExampleRows())
         == [OptionEntry("Size", DataOf(ExampleRows()[0].values)), OptionEntry("Color", DataOf(ExampleRows()[1].values))]
  {
    var rows := ExampleRows();
    var sd, cd := DataOf(rows[0].values), DataOf(rows[1].values);
    assert rows[..1] == [rows[0]] && rows[..1][..0] == [];
    var one := OptionMapOf(rows[..1]);
    assert OptionMapOf(rows[..1][..0]) == [];
    assert one == Put([], "Size", sd);
    assert one == [OptionEntry("Size", sd)];
    assert Position(one, "Color") == 1;
  }

  /** The worked example: at base price 10.00, (L, Blue) is priced 19.00. */
  lemma PriceExample()
    ensures |OptionMapOf(ExampleRows())| == 2 && PriceOf(1000, OptionMapOf(ExampleRows()), ["L", "Blue"]) == 1900
  {
    var rows := ExampleRows();
    var size, color := rows[0], rows[1];
    ExampleOptionMap();
    DataOfPrices(size.values);
    DataOfPrices(color.values);
    assert LastWithTerm(size.values, 2) && LastWithTerm(color.values, 1);
    var sd, cd := DataOf(size.values), DataOf(color.values);
    assert sd.prices["L"] == 400 && cd.prices["Blue"] == 500;
    var om := OptionMapOf(rows);
    var combo := ["L", "Blue"];
    assert om[..1] == [om[0]] && om[..1][..0] == [];
    assert combo[..1] == ["L"] && combo[..1][..0] == [];
    assert SumDeltas(om[..1], combo[..1]) == 400;
  }
}
