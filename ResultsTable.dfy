/**
 * The results table's sorting hook and row styling: a comparator on one column
 * (collation when the left value is a string, numeric comparison otherwise), a
 * stable sort of a copy of the rows, the click-to-toggle sort configuration, the
 * header arrow, and the row's class list.
 */
module ResultsTable {
  import opened Wrappers
  import opened JsValues
  import opened Api
  import opened Sorting

  datatype Direction = Ascending | Descending

  datatype SortConfig = SortConfig(key: string, direction: Direction)

  /**
   * What the JavaScript engine supplies: `String.prototype.localeCompare` under the
   * current locale, and `Number.prototype.toString`.
   */
  datatype Host = Host(localeCompare: (string, string) -> int, numberToString: real -> string)

  // ---------------------------------------------------------------------------
  // The comparator
  // ---------------------------------------------------------------------------

  /** `String(c)`: how `localeCompare` converts a non-string argument. */
  function ToText(host: Host, c: Cell): string {
    match c
    case Str(s) => s
    case Num(x) => host.numberToString(x)
    case Bool(b) => if b then "true" else "false"
    case Null => "null"
    case Undefined => "undefined"
  }

  /** `ToNumber(c)`, as `<` converts a non-string operand; None stands for NaN. */
  function ToNumber(c: Cell): (r: Option<real>)
    ensures c.Num? ==> r == Some(c.x)
  {
    match c
    case Str(s) => ParseNumber(s)
    case Num(x) => Some(x)
    case Bool(b) => Some(if b then 1.0 else 0.0)
    case Null => Some(0.0)
    case Undefined => None
  }

  /** `a < b` when `a` is not a string: a numeric comparison that is false whenever NaN is involved. */
  predicate NumericallyLess(a: Cell, b: Cell) {
    var x, y := ToNumber(a), ToNumber(b);
    x.Some? && y.Some? && x.value < y.value
  }

  /**
   * The comparator applied to two values of the sort column: collation when the
   * left value is a string, otherwise -1, 0 or 1 by `<` and `>`, flipped when descending.
   */
  function CompareCells(host: Host, a: Cell, b: Cell, direction: Direction): (r: int)
    ensures a.Str? && direction == Ascending ==> r == host.localeCompare(a.s, ToText(host, b))
    ensures a.Str? && direction == Descending ==> r == host.localeCompare(ToText(host, b), a.s)
    ensures !a.Str? ==> -1 <= r <= 1
    ensures !a.Str? ==> (r < 0 <==> if direction == Ascending then NumericallyLess(a, b) else NumericallyLess(b, a))
    ensures !a.Str? ==> (r > 0 <==> if direction == Ascending then NumericallyLess(b, a) else NumericallyLess(a, b))
  {
    if a.Str? then
      match direction
      case Ascending => host.localeCompare(a.s, ToText(host, b))
      case Descending => host.localeCompare(ToText(host, b), a.s)
    else if NumericallyLess(a, b) then
      (if direction == Ascending then -1 else 1)
    else if NumericallyLess(b, a) then
      (if direction == Ascending then 1 else -1)
    else 0
  }

  /** The comparator passed to `sort` for a configuration: it reads nothing of a row but the sort key. */
  function RowComparator(host: Host, config: SortConfig): (cmp: (Row, Row) -> int)
    ensures forall a, b, a', b' ::
      Get(a, config.key) == Get(a', config.key) && Get(b, config.key) == Get(b', config.key) ==> cmp(a, b) == cmp(a', b')
  {
    (a: Row, b: Row) => CompareCells(host, Get(a, config.key), Get(b, config.key), config.direction)
  }

  /** The hook's `items`: the rows in their own order without a configuration, else stably sorted. */
  function SortedRows(host: Host, items: seq<Row>, config: Option<SortConfig>): (r: seq<Row>)
    ensures multiset(r) == multiset(items)
    ensures config.None? ==> r == items
  {
    if config.None? then items else InsertionSort(items, RowComparator(host, config.value))
  }

  /** `[...items]` sorted in place; the caller's array is only read. */
  method SortItems(host: Host, items: array<Row>, config: Option<SortConfig>) returns (sorted: seq<Row>)
    ensures sorted == SortedRows(host, items[..], config)
  {
    var copy := new Row[items.Length];
    var i := 0;
    while i < items.Length
      invariant 0 <= i <= items.Length
      invariant copy[..i] == items[..i]
    {
      copy[i] := items[i];
      i := i + 1;
    }
    assert copy[..] == items[..] by {
      assert copy[..] == copy[..items.Length] && items[..] == items[..items.Length];
    }
    if config.Some? {
      InsertionSortInPlace(copy, RowComparator(host, config.value));
    }
    sorted := copy[..];
  }

  /** With a consistent comparator for the column, the rows come out sorted and ties keep their order. */
  lemma SortIsStable(host: Host, items: seq<Row>, config: SortConfig)
    requires ConsistentOn(RowComparator(host, config), items)
    ensures SortedBy(SortedRows(host, items, Some(config)), RowComparator(host, config))
    ensures forall y :: y in items ==>
      Ties(SortedRows(host, items, Some(config)), y, RowComparator(host, config))
        == Ties(items, y, RowComparator(host, config))
  {
    InsertionSortCorrect(items, RowComparator(host, config));
  }

  // ---------------------------------------------------------------------------
  // Columns of one kind
  // ---------------------------------------------------------------------------

  /** The number in a row's column (0 when it holds something else). */
  function NumberAt(row: Row, key: string): real {
    match Get(row, key)
    case Num(x) => x
    case _ => 0.0
  }

  /** The text in a row's column ("" when it holds something else). */
  function TextAt(row: Row, key: string): string {
    match Get(row, key)
    case Str(s) => s
    case _ => ""
  }

  /** The texts of a column, row by row. */
  function Texts(items: seq<Row>, key: string): (t: seq<string>)
    ensures |t| == |items|
    ensures forall i :: 0 <= i < |items| ==> t[i] == TextAt(items[i], key)
  {
    if items == [] then [] else [TextAt(items[0], key)] + Texts(items[1..], key)
  }

  lemma TextOfRow(items: seq<Row>, key: string, r: Row)
    requires r in items
    ensures TextAt(r, key) in Texts(items, key)
  {
    var i :| 0 <= i < |items| && items[i] == r;
    assert Texts(items, key)[i] == TextAt(r, key);
  }

  /** On a column of numbers the comparator orders by the number (reversed when descending). */
  lemma NumericComparator(host: Host, items: seq<Row>, config: SortConfig)
    requires forall r :: r in items ==> Get(r, config.key).Num?
    ensures forall a, b :: a in items && b in items ==>
      RowComparator(host, config)(a, b) ==
        if config.direction == Ascending then Sign(NumberAt(a, config.key) - NumberAt(b, config.key))
        else Sign(-NumberAt(a, config.key) - -NumberAt(b, config.key))
  {
  }

  /**
   * A column of numbers ends up in ascending (or descending) numeric order, and rows
   * with equal numbers keep their input order.
   */
  lemma NumericColumnOrder(host: Host, items: seq<Row>, config: SortConfig)
    requires forall r :: r in items ==> Get(r, config.key).Num?
    ensures var out := SortedRows(host, items, Some(config));
      forall i, j :: 0 <= i < j < |out| ==>
        if config.direction == Ascending then NumberAt(out[i], config.key) <= NumberAt(out[j], config.key)
        else NumberAt(out[i], config.key) >= NumberAt(out[j], config.key)
    ensures forall y :: y in items ==>
      Ties(SortedRows(host, items, Some(config)), y, RowComparator(host, config))
        == Ties(items, y, RowComparator(host, config))
  {
    var out := InsertionSort(items, RowComparator(host, config));
    assert SortedRows(host, items, Some(config)) == out;
    if config.direction == Ascending {
      AscendingNumbers(host, items, config, out);
    } else {
      DescendingNumbers(host, items, config, out);
    }
  }

  /** Ascending on a column of numbers: the numbers never decrease down the table. */
  lemma AscendingNumbers(host: Host, items: seq<Row>, config: SortConfig, out: seq<Row>)
    requires forall r :: r in items ==> Get(r, config.key).Num?
    requires config.direction == Ascending
    requires out == InsertionSort(items, RowComparator(host, config))
    ensures forall i, j :: 0 <= i < j < |out| ==> NumberAt(out[i], config.key) <= NumberAt(out[j], config.key)
    ensures forall y :: y in items ==> Ties(out, y, RowComparator(host, config)) == Ties(items, y, RowComparator(host, config))
  {
    var cmp, k := RowComparator(host, config), config.key;
    NumericComparator(host, items, config);
    var key := (r: Row) => NumberAt(r, k);
    assert forall a, b :: a in items && b in items ==> cmp(a, b) == Sign(key(a) - key(b));
    KeySortOrder(items, cmp, key, out);
    forall i, j | 0 <= i < j < |out| ensures NumberAt(out[i], k) <= NumberAt(out[j], k) {
      assert key(out[i]) <= key(out[j]);
    }
  }

  /** Descending on a column of numbers: the numbers never increase down the table. */
  lemma DescendingNumbers(host: Host, items: seq<Row>, config: SortConfig, out: seq<Row>)
    requires forall r :: r in items ==> Get(r, config.key).Num?
    requires config.direction == Descending
    requires out == InsertionSort(items, RowComparator(host, config))
    ensures forall i, j :: 0 <= i < j < |out| ==> NumberAt(out[i], config.key) >= NumberAt(out[j], config.key)
    ensures forall y :: y in items ==> Ties(out, y, RowComparator(host, config)) == Ties(items, y, RowComparator(host, config))
  {
    var cmp, k := RowComparator(host, config), config.key;
    NumericComparator(host, items, config);
    var key := (r: Row) => -NumberAt(r, k);
    assert forall a, b :: a in items && b in items ==> cmp(a, b) == Sign(key(a) - key(b));
    KeySortOrder(items, cmp, key, out);
    forall i, j | 0 <= i < j < |out| ensures NumberAt(out[i], k) >= NumberAt(out[j], k) {
      assert key(out[i]) <= key(out[j]);
    }
  }

  /** On a column of strings the comparator is the collation (arguments swapped when descending). */
  lemma TextComparator(host: Host, items: seq<Row>, config: SortConfig, a: Row, b: Row)
    requires Get(a, config.key).Str? && Get(b, config.key).Str?
    ensures RowComparator(host, config)(a, b) ==
      if config.direction == Ascending then host.localeCompare(TextAt(a, config.key), TextAt(b, config.key))
      else host.localeCompare(TextAt(b, config.key), TextAt(a, config.key))
  {
  }

  /** A consistent collation gives a consistent comparator on a column of strings. */
  lemma TextComparatorConsistent(host: Host, items: seq<Row>, config: SortConfig)
    requires forall r :: r in items ==> Get(r, config.key).Str?
    requires ConsistentOn(host.localeCompare, Texts(items, config.key))
    ensures ConsistentOn(RowComparator(host, config), items)
  {
    var cmp, lc, texts, k := RowComparator(host, config), host.localeCompare, Texts(items, config.key), config.key;
    forall x, y | x in items && y in items ensures cmp(x, y) < 0 <==> cmp(y, x) > 0 {
      TextOfRow(items, k, x);
      TextOfRow(items, k, y);
      TextComparator(host, items, config, x, y);
      TextComparator(host, items, config, y, x);
    }
    forall x, y, z | x in items && y in items && z in items && Leq(cmp, x, y) && Leq(cmp, y, z)
      ensures cmp(x, z) <= 0
    {
      TextOfRow(items, k, x);
      TextOfRow(items, k, y);
      TextOfRow(items, k, z);
      TextComparator(host, items, config, x, y);
      TextComparator(host, items, config, y, z);
      TextComparator(host, items, config, x, z);
      if config.direction == Ascending {
        Transitive(lc, texts, TextAt(x, k), TextAt(y, k), TextAt(z, k));
      } else {
        Transitive(lc, texts, TextAt(z, k), TextAt(y, k), TextAt(x, k));
      }
    }
  }

  /**
   * A column of strings under a consistent collation ends up in collation order
   * (reversed when descending), and rows that collate equal keep their input order.
   */
  lemma TextColumnOrder(host: Host, items: seq<Row>, config: SortConfig)
    requires forall r :: r in items ==> Get(r, config.key).Str?
    requires ConsistentOn(host.localeCompare, Texts(items, config.key))
    ensures var out := SortedRows(host, items, Some(config));
      forall i, j :: 0 <= i < j < |out| ==>
        if config.direction == Ascending then host.localeCompare(TextAt(out[i], config.key), TextAt(out[j], config.key)) <= 0
        else host.localeCompare(TextAt(out[j], config.key), TextAt(out[i], config.key)) <= 0
    ensures forall y :: y in items ==>
      Ties(SortedRows(host, items, Some(config)), y, RowComparator(host, config))
        == Ties(items, y, RowComparator(host, config))
  {
    var cmp := RowComparator(host, config);
    var out := SortedRows(host, items, Some(config));
    TextComparatorConsistent(host, items, config);
    SortIsStable(host, items, config);
    forall i, j | 0 <= i < j < |out|
      ensures if config.direction == Ascending then host.localeCompare(TextAt(out[i], config.key), TextAt(out[j], config.key)) <= 0
              else host.localeCompare(TextAt(out[j], config.key), TextAt(out[i], config.key)) <= 0
    {
      ElementsOfSorted(items, cmp, out[i]);
      ElementsOfSorted(items, cmp, out[j]);
      assert cmp(out[i], out[j]) <= 0;
      TextComparator(host, items, config, out[i], out[j]);
    }
  }

  // ---------------------------------------------------------------------------
  // The sort configuration
  // ---------------------------------------------------------------------------

  /** `requestSort(key)`: descending exactly when `key` is already sorted ascending. */
  function NextSortConfig(current: Option<SortConfig>, key: string): (r: SortConfig)
    ensures r.key == key
    ensures r.direction == Descending <==> current == Some(SortConfig(key, Ascending))
  {
    var direction :=
      if current.Some? && current.value.key == key && current.value.direction == Ascending then Descending
      else Ascending;
    SortConfig(key, direction)
  }

  /** Requesting the same column again flips the direction; from ascending, twice returns to ascending. */
  lemma RequestSortToggles(current: Option<SortConfig>, key: string)
    ensures NextSortConfig(Some(NextSortConfig(current, key)), key).direction
         != NextSortConfig(current, key).direction
    ensures NextSortConfig(Some(NextSortConfig(Some(SortConfig(key, Ascending)), key)), key)
         == SortConfig(key, Ascending)
  {
  }

  /** `allColumns`: the given columns, then the prediction. */
  function AllColumns(columns: seq<string>): (r: seq<string>)
    ensures |r| == |columns| + 1 && r[..|columns|] == columns && r[|columns|] == "prediction"
  {
    columns + ["prediction"]
  }

  /** The table starts sorted by prediction, ascending. */
  const InitialSortConfig := SortConfig("prediction", Ascending)

  const AscendingSymbol := " \U{25B2}"
  const DescendingSymbol := " \U{25BC}"

  /** `getSortDirectionSymbol`: an arrow on the sorted column only, pointing the sort's way. */
  function SortDirectionSymbol(config: Option<SortConfig>, name: string): (r: Option<string>)
    ensures r.Some? <==> config.Some? && config.value.key == name
    ensures r == Some(AscendingSymbol) <==> config == Some(SortConfig(name, Ascending))
    ensures r == Some(DescendingSymbol) <==> config == Some(SortConfig(name, Descending))
  {
    assert AscendingSymbol[1] != DescendingSymbol[1];
    if config.None? || config.value.key != name then None
    else if config.value.direction == Ascending then
      assert config.value == SortConfig(name, Ascending);
      Some(AscendingSymbol)
    else
      assert config.value.direction == Descending;
      assert config.value == SortConfig(name, Descending);
      Some(DescendingSymbol)
  }

  /** The table opens with an upward arrow on the prediction column and no other arrow. */
  lemma InitialArrows(name: string)
    ensures SortDirectionSymbol(Some(InitialSortConfig), name) ==
      if name == "prediction" then Some(AscendingSymbol) else None
  {
  }

  /** After a click on `key`, only `key` shows an arrow, and it flips if `key` already had one pointing up. */
  lemma SymbolAfterRequest(current: Option<SortConfig>, key: string, name: string)
    ensures SortDirectionSymbol(Some(NextSortConfig(current, key)), name) ==
      if name != key then None
      else if SortDirectionSymbol(current, key) == Some(AscendingSymbol) then Some(DescendingSymbol)
      else Some(AscendingSymbol)
  {
  }

  /** The hook's state: the current sort configuration. */
  class SortableData {
    const host: Host
    var sortConfig: Option<SortConfig>

    constructor(host: Host, config: Option<SortConfig>)
      ensures this.host == host && sortConfig == config
    {
      this.host := host;
      sortConfig := config;
    }

    /** The rows the table shows: a permutation of `items`. */
    function Items(items: seq<Row>): (r: seq<Row>)
      reads this
      ensures multiset(r) == multiset(items)
    {
      SortedRows(host, items, sortConfig)
    }

    method RequestSort(key: string)
      modifies this
      ensures sortConfig == Some(NextSortConfig(old(sortConfig), key))
    {
      var direction := Ascending;
      if sortConfig.Some? && sortConfig.value.key == key && sortConfig.value.direction == Ascending {
        direction := Descending;
      }
      sortConfig := Some(SortConfig(key, direction));
    }
  }

  // ---------------------------------------------------------------------------
  // Row classes
  // ---------------------------------------------------------------------------

  /**
   * The row's `className`: the attack marker, a space, then the selection marker.
   * The classes it denotes are 'attack-row' when `is_attack` is truthy, then
   * 'selected-row' when the row's index is the selected one.
   */
  function RowClass(row: Row, selectedRowIndex: Cell): (c: string)
    ensures Tokens(c) ==
      (if Truthy(Get(row, "is_attack")) then ["attack-row"] else []) +
      (if selectedRowIndex == Get(row, "index") then ["selected-row"] else [])
  {
    var a := if Truthy(Get(row, "is_attack")) then "attack-row" else "";
    var b := if selectedRowIndex == Get(row, "index") then "selected-row" else "";
    assert ' ' !in "attack-row" && ' ' !in "selected-row";
    ClassTokens(a, b);
    a + " " + b
  }

  /** The class list a class attribute denotes: its space-separated non-empty tokens. */
  function Tokens(s: string): seq<string>
    decreases |s|
  {
    var i := IndexOf(s, ' ');
    var head := if i == 0 then [] else [s[..i]];
    if i == |s| then head else head + Tokens(s[i + 1..])
  }

  lemma TokensOfWord(w: string)
    requires ' ' !in w
    ensures Tokens(w) == if w == "" then [] else [w]
  {
    assert w[..|w|] == w;
  }

  lemma TokensJoin(a: string, b: string)
    requires ' ' !in a
    ensures Tokens(a + " " + b) == Tokens(a) + Tokens(b)
  {
    var s := a + " " + b;
    assert s == a + (" " + b);
    assert IndexOf(a, ' ') == |a|;
    IndexOfAfterPrefix(a, " " + b, ' ');
    assert s[..|a|] == a && s[|a| + 1..] == b;
    TokensOfWord(a);
  }

  /** Two space-free words joined by a space denote the non-empty ones among them. */
  lemma ClassTokens(a: string, b: string)
    requires ' ' !in a && ' ' !in b
    ensures Tokens(a + " " + b) == (if a == "" then [] else [a]) + (if b == "" then [] else [b])
  {
    TokensJoin(a, b);
    TokensOfWord(a);
    TokensOfWord(b);
  }

  /** A row is styled as an attack exactly when `is_attack` is truthy, and as selected exactly when its index is the selected one. */
  lemma RowClassMarkers(row: Row, selectedRowIndex: Cell)
    ensures "attack-row" in Tokens(RowClass(row, selectedRowIndex)) <==> Truthy(Get(row, "is_attack"))
    ensures "selected-row" in Tokens(RowClass(row, selectedRowIndex)) <==> selectedRowIndex == Get(row, "index")
  {
    assert "attack-row"[0] != "selected-row"[0];
  }
}
