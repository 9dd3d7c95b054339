/**
 Turning a data frame into JSON-safe records: `df_to_records` of `axbi/dataframe.py`.

 A frame is a list of typed columns. Reals stand for finite floats; a cell that is neither missing, a number nor a
 text is `Opaque`.
 */
module Records {
  import opened Numerals

  const JS_MAX_INTEGER := 9007199254740991

  const MIN_INT64 := -0x8000_0000_0000_0000

  const TWO_TO_64 := 0x1_0000_0000_0000_0000

  datatype Cell =
    | Nothing | NotANumber | NotATime
    | Float(value: real) | Infinite(negative: bool) | Integer(n: int) | Text(text: string) | Opaque(id: int)

  datatype Dtype = FloatType | Int64Type | UInt64Type | ObjectType | StringType | OtherType

  datatype Column = Column(name: string, dtype: Dtype, cells: seq<Cell>)

  datatype Frame = Frame(columns: seq<Column>, rows: nat)

  type Record = map<string, Cell>

  /** `isna` on a cell; lists and dictionaries are never missing. */
  predicate IsNa(c: Cell) { c.Nothing? || c.NotANumber? || c.NotATime? }

  /** What a column of each type can hold. */
  predicate Holds(t: Dtype, c: Cell) {
    match t
    case FloatType => c.Float? || c.NotANumber? || c.Infinite?
    case Int64Type => c.Integer? && MIN_INT64 <= c.n < -MIN_INT64
    case UInt64Type => c.Integer? && 0 <= c.n < TWO_TO_64
    case StringType => c.Text? || IsNa(c)
    case ObjectType => true
    case OtherType => c.Opaque? || c.NotATime?
  }

  predicate IsObject(t: Dtype) { t.ObjectType? || t.StringType? }

  ghost predicate UniqueNames(cs: seq<Column>) { forall i, j :: 0 <= i < j < |cs| ==> cs[i].name != cs[j].name }

  /** A frame with unique column names, all columns of one length and true to their type. */
  ghost predicate Valid(f: Frame) {
    && (forall c <- f.columns :: |c.cells| == f.rows && forall x <- c.cells :: Holds(c.dtype, x))
    && UniqueNames(f.columns)
  }

  function Abs(n: int): nat { if n < 0 then -n else n }

  /** A 64-bit signed word. */
  function Wrap64(n: int): int { (n - MIN_INT64) % TWO_TO_64 + MIN_INT64 }

  /** `_convert_big_integers`. */
  function ConvertBigInteger(c: Cell): Cell {
    if c.Integer? && Abs(c.n) > JS_MAX_INTEGER then Text(StrInt(c.n)) else c
  }

  /** The per-cell reference: a missing value becomes None, an integer beyond the JavaScript range its text. */
  function ReferenceCell(c: Cell): Cell { if IsNa(c) then Nothing else ConvertBigInteger(c) }

  /** The vectorised masks: `np.abs(...) > JS_MAX_INTEGER` wraps on a signed column. Wrap-around makes the mask miss
      one int64, and no other. */
  predicate BigMask(t: Dtype, c: Cell): (mask: bool)
    ensures t.Int64Type? && Holds(t, c) ==> ((mask <==> Abs(c.n) > JS_MAX_INTEGER) <==> c.n != MIN_INT64)
  {
    c.Integer? && (if t.Int64Type? then Wrap64(Abs(c.n)) else Abs(c.n)) > JS_MAX_INTEGER
  }

  /** What a cell of a typed column becomes. */
  function ConvertedCell(t: Dtype, c: Cell): Cell {
    match t
    case FloatType => if c.NotANumber? then Nothing else c
    case Int64Type => if BigMask(t, c) then Text(StrInt(c.n)) else c
    case UInt64Type => if BigMask(t, c) then Text(StrInt(c.n)) else c
    case ObjectType => ReferenceCell(c)
    case StringType => ReferenceCell(c)
    case OtherType => c
  }

  /** The cells on which the conversion keeps to the reference. */
  predicate Convertible(t: Dtype, c: Cell) { !(t.Int64Type? && c == Integer(MIN_INT64)) && !(t.OtherType? && IsNa(c)) }

  lemma ConvertedCellIff(t: Dtype, c: Cell)
    requires Holds(t, c)
    ensures ConvertedCell(t, c) == ReferenceCell(c) <==> Convertible(t, c)
  {
  }

  // ---------------------------------------------------------------- records

  /** One record of `to_dict(orient="records")`. */
  function Row(columns: seq<Column>, r: nat): Record
    requires forall c <- columns :: r < |c.cells|
  {
    if columns == [] then map[]
    else
      var last := columns[|columns| - 1];
      Row(columns[..|columns| - 1], r)[last.name := last.cells[r]]
  }

  lemma {:induction false} RowHasCells(columns: seq<Column>, r: nat)
    requires forall c <- columns :: r < |c.cells|
    requires UniqueNames(columns)
    ensures forall i :: 0 <= i < |columns| ==>
              columns[i].name in Row(columns, r) && Row(columns, r)[columns[i].name] == columns[i].cells[r]
    ensures forall key <- Row(columns, r) :: exists i :: 0 <= i < |columns| && columns[i].name == key
  {
    if columns != [] {
      var front := columns[..|columns| - 1];
      RowHasCells(front, r);
      assert columns == front + [columns[|columns| - 1]];
      forall key <- Row(columns, r) ensures exists i :: 0 <= i < |columns| && columns[i].name == key {
        if key in Row(front, r) {
          var i :| 0 <= i < |front| && front[i].name == key;
          assert columns[i].name == key;
        }
      }
    }
  }

  /** `to_dict(orient="records")`. */
  function ToDict(columns: seq<Column>, rows: nat): seq<Record>
    requires forall c <- columns :: |c.cells| == rows
  {
    seq(rows, r requires 0 <= r < rows => Row(columns, r))
  }

  /** Frames with the same unique names have the same records only if they have the same cells. */
  lemma SameRecordsSameCells(a: seq<Column>, b: seq<Column>, rows: nat, i: nat, r: nat)
    requires forall c <- a :: |c.cells| == rows
    requires forall c <- b :: |c.cells| == rows
    requires |a| == |b| && forall k :: 0 <= k < |a| ==> a[k].name == b[k].name
    requires UniqueNames(a)
    requires ToDict(a, rows) == ToDict(b, rows) && i < |a| && r < rows
    ensures a[i].cells[r] == b[i].cells[r]
  {
    RowHasCells(a, r);
    RowHasCells(b, r);
    assert ToDict(a, rows)[r] == ToDict(b, rows)[r];
  }

  function ConvertedColumn(c: Column): Column {
    c.(cells := seq(|c.cells|, r requires 0 <= r < |c.cells| => ConvertedCell(c.dtype, c.cells[r])))
  }

  function ReferenceColumn(c: Column): Column {
    c.(cells := seq(|c.cells|, r requires 0 <= r < |c.cells| => ReferenceCell(c.cells[r])))
  }

  /** A frame's columns with every cell converted as the code does it, and as the reference does. */
  function ConvertedColumns(cs: seq<Column>): seq<Column> {
    seq(|cs|, i requires 0 <= i < |cs| => ConvertedColumn(cs[i]))
  }

  function ReferenceColumns(cs: seq<Column>): seq<Column> {
    seq(|cs|, i requires 0 <= i < |cs| => ReferenceColumn(cs[i]))
  }

  ghost predicate ColumnConvertible(c: Column) { forall x <- c.cells :: Convertible(c.dtype, x) }

  lemma ColumnIsReferenceIff(c: Column)
    requires forall x <- c.cells :: Holds(c.dtype, x)
    ensures ConvertedColumn(c) == ReferenceColumn(c) <==> ColumnConvertible(c)
  {
    forall r | 0 <= r < |c.cells|
      ensures ConvertedColumn(c).cells[r] == ReferenceColumn(c).cells[r] <==> Convertible(c.dtype, c.cells[r])
    {
      assert c.cells[r] in c.cells;
      ConvertedCellIff(c.dtype, c.cells[r]);
    }
    assert ConvertedColumn(c) == ReferenceColumn(c) <==> ConvertedColumn(c).cells == ReferenceColumn(c).cells;
  }

  /** The records are the reference's exactly when no int64 column holds the smallest int64 and no column outside the
      converted types has a missing value. */
  lemma RecordsAreReferenceIff(f: Frame)
    requires Valid(f)
    ensures ToDict(ConvertedColumns(f.columns), f.rows) == ToDict(ReferenceColumns(f.columns), f.rows)
            <==> forall c <- f.columns :: ColumnConvertible(c)
  {
    var a, b := ConvertedColumns(f.columns), ReferenceColumns(f.columns);
    forall c <- f.columns ensures ConvertedColumn(c) == ReferenceColumn(c) <==> ColumnConvertible(c) {
      ColumnIsReferenceIff(c);
    }
    if forall c <- f.columns :: ColumnConvertible(c) {
      forall i | 0 <= i < |a| ensures a[i] == b[i] { assert f.columns[i] in f.columns; }
      assert a == b;
    }
    if ToDict(a, f.rows) == ToDict(b, f.rows) {
      forall c <- f.columns ensures ConvertedColumn(c) == ReferenceColumn(c) {
        var i :| 0 <= i < |f.columns| && f.columns[i] == c;
        forall r | 0 <= r < f.rows ensures a[i].cells[r] == b[i].cells[r] {
          SameRecordsSameCells(a, b, f.rows, i, r);
        }
        assert a[i].cells == b[i].cells;
      }
    }
  }

  // ---------------------------------------------------------------- what a cell becomes

  /** A JSON-safe value for a cell: nothing for a missing one, for an integer a JavaScript number cannot hold a text that
      reads back as that integer, and any other cell itself. */
  ghost predicate JsonSafe(c: Cell, out: Cell) {
    match c
    case Nothing => out == Nothing
    case NotANumber => out == Nothing
    case NotATime => out == Nothing
    case Integer(n) =>
      if -9007199254740991 <= n <= 9007199254740991 then out == c else out.Text? && Value(out.text) == n
    case _ => out == c
  }

  lemma ReferenceIsJsonSafe(c: Cell)
    ensures JsonSafe(c, ReferenceCell(c))
  {
    if c.Integer? { StrIntReadsBack(c.n); }
  }

  /** A record's value for a column is the JSON-safe form of its cell, but for the two kinds of cell the conversion misses:
      these stay as they are. */
  ghost predicate HoldsCell(record: Record, c: Column, r: nat)
    requires r < |c.cells|
  {
    && c.name in record
    && if Convertible(c.dtype, c.cells[r]) then JsonSafe(c.cells[r], record[c.name]) else record[c.name] == c.cells[r]
  }

  lemma RecordsAreJsonSafe(f: Frame, i: nat, r: nat)
    requires Valid(f) && i < |f.columns| && r < f.rows == |f.columns[i].cells|
    ensures HoldsCell(ToDict(ConvertedColumns(f.columns), f.rows)[r], f.columns[i], r)
  {
    var c := f.columns[i];
    assert c in f.columns && c.cells[r] in c.cells;
    RowHasCells(ConvertedColumns(f.columns), r);
    assert ConvertedColumns(f.columns)[i].cells[r] == ConvertedCell(c.dtype, c.cells[r]);
    ConvertedCellIff(c.dtype, c.cells[r]);
    ReferenceIsJsonSafe(c.cells[r]);
  }

  // ---------------------------------------------------------------- the vectorised stage

  /** A cell after the column-wise replacements; integers inside object columns are still to come. */
  function StagedCell(t: Dtype, c: Cell): Cell {
    if IsObject(t) then (if IsNa(c) then Nothing else c) else ConvertedCell(t, c)
  }

  function StagedCells(c: Column): seq<Cell> {
    seq(|c.cells|, r requires 0 <= r < |c.cells| => StagedCell(c.dtype, c.cells[r]))
  }

  function Replaced(c: Column, converted: map<string, seq<Cell>>): Column {
    if c.name in converted then c.(cells := converted[c.name]) else c
  }

  /** `converted` has what the columns of the given types need, and nothing for any other name. */
  ghost predicate Replaces(cs: seq<Column>, types: set<Dtype>, converted: map<string, seq<Cell>>) {
    && (forall c <- cs :: c.dtype in types ==> Replaced(c, converted).cells == StagedCells(c))
    && (forall name <- converted :: exists c <- cs :: c.name == name && c.dtype in types)
  }

  /** One more column, replaced if it is of a given type and some cell changes. */
  lemma ReplacesOneMore(cs: seq<Column>, k: nat, types: set<Dtype>, converted: map<string, seq<Cell>>)
    requires k < |cs| && UniqueNames(cs) && Replaces(cs[..k], types, converted)
    ensures cs[k].dtype in types ==> Replaces(cs[..k + 1], types, converted[cs[k].name := StagedCells(cs[k])])
    ensures cs[k].dtype !in types || StagedCells(cs[k]) == cs[k].cells ==> Replaces(cs[..k + 1], types, converted)
  {
  }

  method GetFloatConversions(cs: seq<Column>) returns (converted: map<string, seq<Cell>>)
    requires UniqueNames(cs)
    ensures Replaces(cs, {FloatType}, converted)
  {
    converted := map[];
    for k := 0 to |cs|
      invariant Replaces(cs[..k], {FloatType}, converted)
    {
      ReplacesOneMore(cs, k, {FloatType}, converted);
      if cs[k].dtype.FloatType? && exists r :: 0 <= r < |cs[k].cells| && cs[k].cells[r].NotANumber? {
        converted := converted[cs[k].name := seq(|cs[k].cells|, r requires 0 <= r < |cs[k].cells| =>
          if cs[k].cells[r].NotANumber? then Nothing else cs[k].cells[r])];
        assert converted[cs[k].name] == StagedCells(cs[k]);
      } else {
        assert cs[k].dtype.FloatType? ==> StagedCells(cs[k]) == cs[k].cells;
      }
    }
    assert cs[..|cs|] == cs;
  }

  method GetIntegerConversions(cs: seq<Column>) returns (converted: map<string, seq<Cell>>)
    requires UniqueNames(cs)
    ensures Replaces(cs, {Int64Type, UInt64Type}, converted)
  {
    converted := map[];
    for k := 0 to |cs|
      invariant Replaces(cs[..k], {Int64Type, UInt64Type}, converted)
    {
      var c := cs[k];
      ReplacesOneMore(cs, k, {Int64Type, UInt64Type}, converted);
      if (c.dtype.Int64Type? || c.dtype.UInt64Type?) && exists r :: 0 <= r < |c.cells| && BigMask(c.dtype, c.cells[r]) {
        converted := converted[c.name := seq(|c.cells|, r requires 0 <= r < |c.cells| =>
          if BigMask(c.dtype, c.cells[r]) then Text(StrInt(c.cells[r].n)) else c.cells[r])];
        assert converted[c.name] == StagedCells(c);
      } else {
        assert c.dtype in {Int64Type, UInt64Type} ==> StagedCells(c) == c.cells;
      }
    }
    assert cs[..|cs|] == cs;
  }

  method GetObjectConversions(cs: seq<Column>) returns (converted: map<string, seq<Cell>>)
    requires UniqueNames(cs)
    ensures Replaces(cs, {ObjectType, StringType}, converted)
  {
    converted := map[];
    for k := 0 to |cs|
      invariant Replaces(cs[..k], {ObjectType, StringType}, converted)
    {
      var c := cs[k];
      ReplacesOneMore(cs, k, {ObjectType, StringType}, converted);
      if IsObject(c.dtype) && exists r :: 0 <= r < |c.cells| && IsNa(c.cells[r]) {
        converted := converted[c.name := seq(|c.cells|, r requires 0 <= r < |c.cells| =>
          if IsNa(c.cells[r]) then Nothing else c.cells[r])];
        assert converted[c.name] == StagedCells(c);
      } else {
        assert IsObject(c.dtype) ==> StagedCells(c) == c.cells;
      }
    }
    assert cs[..|cs|] == cs;
  }

  // ---------------------------------------------------------------- integers inside object columns

  predicate IsPlain(record: Record, key: string) { key in record ==> record[key].Nothing? || record[key].Text? }

  ghost predicate PlainColumn(records: seq<Record>, key: string) { forall record <- records :: IsPlain(record, key) }

  /** The object columns with some value that is neither missing nor a text. */
  method FindMixedColumns(records: array<Record>, objectCols: set<string>) returns (mixed: set<string>)
    ensures mixed <= objectCols
    ensures forall key <- objectCols :: key in mixed || PlainColumn(records[..], key)
  {
    mixed := {};
    var keys := objectCols;
    while keys != {}
      invariant keys <= objectCols && mixed <= objectCols
      invariant forall key <- objectCols :: key in keys || key in mixed || PlainColumn(records[..], key)
    {
      var key :| key in keys;
      var r := 0;
      while r < records.Length && IsPlain(records[r], key)
        invariant 0 <= r <= records.Length && PlainColumn(records[..r], key)
      {
        assert records[..r + 1] == records[..r] + [records[r]];
        r := r + 1;
      }
      if r < records.Length {
        mixed := mixed + {key};
      } else {
        assert records[..r] == records[..];
      }
      keys := keys - {key};
    }
  }

  function Fixed(record: Record, keys: set<string>): Record {
    map key | key in record :: if key in keys then ConvertBigInteger(record[key]) else record[key]
  }

  lemma PlainNeedsNoFix(record: Record, few: set<string>, many: set<string>)
    requires few <= many && forall key | key in many - few :: IsPlain(record, key)
    ensures Fixed(record, few) == Fixed(record, many)
  {
    forall key <- record ensures Fixed(record, few)[key] == Fixed(record, many)[key] {
      assert key in many - few ==> IsPlain(record, key);
    }
  }

  /** `_convert_object_column_big_integers`: skipping the columns whose values are all texts or missing loses
      nothing. */
  method ConvertObjectColumnBigIntegers(records: array<Record>, objectCols: set<string>)
    modifies records
    ensures forall r :: 0 <= r < records.Length ==> records[r] == Fixed(old(records[r]), objectCols)
  {
    var mixed := FindMixedColumns(records, objectCols);
    for r := 0 to records.Length
      invariant forall q :: 0 <= q < r ==> records[q] == Fixed(old(records[q]), mixed)
      invariant forall q :: r <= q < records.Length ==> records[q] == old(records[q])
    {
      var keys := mixed;
      while keys != {}
        invariant keys <= mixed
        invariant records[r] == Fixed(old(records[r]), mixed - keys)
        invariant forall q :: 0 <= q < records.Length && q != r ==>
                    records[q] == if q < r then Fixed(old(records[q]), mixed) else old(records[q])
      {
        var key :| key in keys;
        if key in records[r] {
          records[r] := records[r][key := ConvertBigInteger(records[r][key])];
        }
        keys := keys - {key};
      }
      assert mixed - keys == mixed;
    }
    forall r | 0 <= r < records.Length ensures Fixed(old(records[r]), mixed) == Fixed(old(records[r]), objectCols) {
      assert old(records[r]) in old(records[..]);
      forall key | key in objectCols - mixed ensures IsPlain(old(records[r]), key) {
        assert PlainColumn(old(records[..]), key);
      }
      PlainNeedsNoFix(old(records[r]), mixed, objectCols);
    }
  }

  // ---------------------------------------------------------------- the whole conversion

  function Staged(c: Column): Column { c.(cells := StagedCells(c)) }

  function StagedColumns(cs: seq<Column>): seq<Column> { seq(|cs|, i requires 0 <= i < |cs| => Staged(cs[i])) }

  /** Replacements for columns of other types leave a column alone. */
  lemma OthersNotReplaced(cs: seq<Column>, types: set<Dtype>, converted: map<string, seq<Cell>>, c: Column)
    requires UniqueNames(cs) && c in cs && Replaces(cs, types, converted) && c.dtype !in types
    ensures c.name !in converted
  {
  }

  lemma AllReplaced(cs: seq<Column>, floats: map<string, seq<Cell>>, ints: map<string, seq<Cell>>,
                    objects: map<string, seq<Cell>>, c: Column)
    requires UniqueNames(cs) && c in cs
    requires Replaces(cs, {FloatType}, floats) && Replaces(cs, {Int64Type, UInt64Type}, ints)
    requires Replaces(cs, {ObjectType, StringType}, objects)
    ensures Replaced(c, floats + ints + objects) == Staged(c)
  {
    if !c.dtype.FloatType? { OthersNotReplaced(cs, {FloatType}, floats, c); }
    if c.dtype !in {Int64Type, UInt64Type} { OthersNotReplaced(cs, {Int64Type, UInt64Type}, ints, c); }
    if !IsObject(c.dtype) { OthersNotReplaced(cs, {ObjectType, StringType}, objects, c); }
    match c.dtype
    case FloatType => assert Replaced(c, floats).cells == StagedCells(c);
    case Int64Type => assert Replaced(c, ints).cells == StagedCells(c);
    case UInt64Type => assert Replaced(c, ints).cells == StagedCells(c);
    case ObjectType => assert Replaced(c, objects).cells == StagedCells(c);
    case StringType => assert Replaced(c, objects).cells == StagedCells(c);
    case OtherType => assert StagedCells(c) == c.cells;
  }

  lemma FixedCell(c: Column, r: nat, keys: set<string>)
    requires r < |c.cells| && (c.name in keys <==> IsObject(c.dtype))
    ensures ConvertedColumn(c).cells[r] ==
            if c.name in keys then ConvertBigInteger(Staged(c).cells[r]) else Staged(c).cells[r]
  {
  }

  lemma FixedPut(record: Record, key: string, c: Cell, keys: set<string>)
    ensures Fixed(record[key := c], keys) == Fixed(record, keys)[key := if key in keys then ConvertBigInteger(c) else c]
  {
  }

  /** Converting the integers of the object columns afterwards completes the record. */
  lemma {:induction false} FixedRow(cs: seq<Column>, r: nat, keys: set<string>)
    requires forall c <- cs :: r < |c.cells| && (c.name in keys <==> IsObject(c.dtype))
    requires UniqueNames(cs)
    ensures Fixed(Row(StagedColumns(cs), r), keys) == Row(ConvertedColumns(cs), r)
  {
    if cs != [] {
      var front, last := cs[..|cs| - 1], cs[|cs| - 1];
      FixedRow(front, r, keys);
      assert StagedColumns(cs)[..|front|] == StagedColumns(front);
      assert ConvertedColumns(cs)[..|front|] == ConvertedColumns(front);
      assert last in cs;
      FixedCell(last, r, keys);
      FixedPut(Row(StagedColumns(front), r), last.name, Staged(last).cells[r], keys);
    }
  }

  /** The replaced columns of the vectorised stage. */
  method ReplaceColumns(cs: seq<Column>) returns (processed: seq<Column>)
    requires UniqueNames(cs)
    ensures processed == StagedColumns(cs)
  {
    var floats := GetFloatConversions(cs);
    var ints := GetIntegerConversions(cs);
    var objects := GetObjectConversions(cs);
    var converted := floats + ints + objects;
    processed := seq(|cs|, i requires 0 <= i < |cs| => Replaced(cs[i], converted));
    forall i | 0 <= i < |cs| ensures processed[i] == Staged(cs[i]) {
      AllReplaced(cs, floats, ints, objects, cs[i]);
    }
  }

  lemma OthersStay(cs: seq<Column>)
    requires forall i :: 0 <= i < |cs| ==> cs[i].dtype.OtherType?
    ensures ConvertedColumns(cs) == cs
  {
    forall i | 0 <= i < |cs| ensures ConvertedColumn(cs[i]) == cs[i] {
      assert ConvertedColumn(cs[i]).cells == cs[i].cells;
    }
  }

  lemma NothingToFix(records: seq<Record>)
    ensures forall r :: 0 <= r < |records| ==> Fixed(records[r], {}) == records[r]
  {
  }

  lemma ObjectNames(cs: seq<Column>, names: set<string>)
    requires UniqueNames(cs) && names == set c | c in cs && IsObject(c.dtype) :: c.name
    ensures forall c <- cs :: c.name in names <==> IsObject(c.dtype)
  {
  }

  method ToRecords(cs: seq<Column>, rows: nat) returns (records: array<Record>)
    requires forall c <- cs :: |c.cells| == rows
    ensures fresh(records) && records[..] == ToDict(cs, rows)
  {
    records := new Record[rows](r requires 0 <= r < rows => Row(cs, r));
  }

  lemma RecordsHoldCells(f: Frame)
    requires Valid(f)
    ensures forall c <- f.columns :: |c.cells| == f.rows
    ensures forall i, r :: 0 <= i < |f.columns| && 0 <= r < f.rows ==>
              HoldsCell(ToDict(ConvertedColumns(f.columns), f.rows)[r], f.columns[i], r)
  {
    forall i, r | 0 <= i < |f.columns| && 0 <= r < f.rows
      ensures HoldsCell(ToDict(ConvertedColumns(f.columns), f.rows)[r], f.columns[i], r)
    {
      assert f.columns[i] in f.columns;
      RecordsAreJsonSafe(f, i, r);
    }
  }

  /** `df_to_records`. */
  method DfToRecords(f: Frame) returns (records: array<Record>)
    requires Valid(f)
    ensures fresh(records) && records[..] == ToDict(ConvertedColumns(f.columns), f.rows)
    ensures forall i, r :: 0 <= i < |f.columns| && 0 <= r < f.rows ==>
              |f.columns[i].cells| == f.rows && HoldsCell(records[r], f.columns[i], r)
  {
    RecordsHoldCells(f);
    var cs := f.columns;
    if forall i :: 0 <= i < |cs| ==> cs[i].dtype.OtherType? {
      OthersStay(cs);
      records := ToRecords(cs, f.rows);
      return;
    }
    var processed := ReplaceColumns(cs);
    records := ToRecords(processed, f.rows);
    var objectCols := set c | c in cs && IsObject(c.dtype) :: c.name;
    if objectCols != {} {
      ConvertObjectColumnBigIntegers(records, objectCols);
    } else {
      NothingToFix(records[..]);
    }
    ObjectNames(cs, objectCols);
    forall r | 0 <= r < f.rows ensures records[r] == Row(ConvertedColumns(cs), r) {
      FixedRow(cs, r, objectCols);
    }
  }
}
