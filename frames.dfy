/** The data frame a chart's rows are loaded into (`pd.DataFrame(rows)`),
    its cells, and the in-place column coercions the renderers perform
    (a column replaced by its `pd.to_numeric` or `pd.to_datetime`
    conversion, unparsable text becoming NaN). */
module Frames {
  import opened Wrappers
  import opened Seqs
  import opened Json

  /** A cell of the frame. `Instant` is a parsed calendar date; `Other`
      stands for a boolean or a nested list or object. */
  datatype Cell = Num(x: real) | Str(s: string) | Instant(t: int) | Missing | Other

  /** The cell a JSON row value becomes. */
  function CellOf(v: Json): Cell {
    match v
    case JNum(n) => Num(n)
    case JStr(s) => Str(s)
    case JNull => Missing
    case _ => Other
  }

  /** One row: a JSON object's fields. */
  type Record = seq<(string, Json)>

  /** How `pd.to_datetime` reads one value, kept abstract: a text in its
      date syntax, and a number as an offset from the epoch. */
  datatype DateParser = DateParser(fromText: string -> Option<int>, fromNumber: real -> Option<int>)

  /** The parsers pandas applies, kept abstract: the number syntax of
      `pd.to_numeric` and the date reading of `pd.to_datetime`. */
  datatype Coercers = Coercers(toNumber: string -> Option<real>, toDate: DateParser)

  /** A frame as a value: its ordered columns and each column's cells. */
  datatype Table = Table(columns: seq<string>, data: map<string, seq<Cell>>)

  ghost predicate WellFormed(t: Table) {
    Distinct(t.columns) && forall c :: c in t.data <==> c in t.columns
  }

  /** Every field name of every row, row after row. */
  function RowKeys(rows: seq<Record>): seq<string> {
    if rows == [] then [] else RowKeys(rows[..|rows| - 1]) + Keys(rows[|rows| - 1])
  }

  /** The columns pandas builds from a list of records: every field name
      once, in the order of first appearance. */
  function ColumnsOf(rows: seq<Record>): seq<string> {
    Dedup(RowKeys(rows))
  }

  /** The cell of column `c` in `row`; a row without the field holds NaN. */
  function CellAt(row: Record, c: string): Cell {
    match Get(row, c)
    case Some(v) => CellOf(v)
    case None => Missing
  }

  function TableOf(rows: seq<Record>): (t: Table)
    ensures WellFormed(t)
  {
    var cols := ColumnsOf(rows);
    Table(cols, map c | c in cols :: seq(|rows|, i requires 0 <= i < |rows| => CellAt(rows[i], c)))
  }

  /** A name is a field of some row exactly when it is a column of the frame. */
  lemma {:induction false} RowKeysAreFields(rows: seq<Record>, c: string)
    ensures c in RowKeys(rows) <==> exists i :: 0 <= i < |rows| && HasKey(rows[i], c)
  {
    if rows != [] {
      var n := |rows| - 1;
      var p := rows[..n];
      RowKeysAreFields(p, c);
      assert RowKeys(rows) == RowKeys(p) + Keys(rows[n]);
      assert c in Keys(rows[n]) <==> HasKey(rows[n], c) by {
        if c in Keys(rows[n]) {
          var j :| 0 <= j < |rows[n]| && Keys(rows[n])[j] == c;
          assert rows[n][j].0 == c;
        }
      }
      if c in RowKeys(p) {
        var i :| 0 <= i < |p| && HasKey(p[i], c);
        assert p[i] == rows[i];
      }
      if exists i :: 0 <= i < |rows| && HasKey(rows[i], c) {
        var i :| 0 <= i < |rows| && HasKey(rows[i], c);
        if i < n {
          assert p[i] == rows[i];
        }
      }
    }
  }

  /** The frame of a list of records: one column per field name, without
      repetition and in order of first appearance, and each column as long
      as the list, holding that field's value of each row or NaN. */
  lemma TableOfShape(rows: seq<Record>)
    ensures var t := TableOf(rows);
      && Distinct(t.columns)
      && (forall c :: c in t.columns <==> exists i :: 0 <= i < |rows| && HasKey(rows[i], c))
      && (forall a, b :: 0 <= a < b < |t.columns| ==>
            IndexOf(RowKeys(rows), t.columns[a]) < IndexOf(RowKeys(rows), t.columns[b]))
      && (forall c :: c in t.data ==> |t.data[c]| == |rows|)
      && (forall c, i :: c in t.data && 0 <= i < |rows| ==> t.data[c][i] == CellAt(rows[i], c))
  {
    var keys := RowKeys(rows);
    DedupFirstAppearance(keys);
    forall c ensures c in TableOf(rows).columns <==> exists i :: 0 <= i < |rows| && HasKey(rows[i], c) {
      RowKeysAreFields(rows, c);
      if c in keys {
        var j :| 0 <= j < |keys| && keys[j] == c;
      }
    }
  }

  /** `pd.to_numeric(..., errors='coerce')` on one cell: text that does not
      parse becomes NaN; anything else is kept. */
  function ToNumber(parse: string -> Option<real>, c: Cell): (r: Cell)
    ensures !r.Str?
    ensures c.Str? && parse(c.s).Some? ==> r == Num(parse(c.s).value)
    ensures c.Str? && parse(c.s).None? ==> r == Missing
    ensures !c.Str? ==> r == c
  {
    match c
    case Str(s) => (match parse(s) case Some(x) => Num(x) case None => Missing)
    case _ => c
  }

  /** `pd.to_datetime(..., errors='coerce')` on one cell of a text column:
      text and numbers become dates, or NaT when they cannot be read. */
  function ToDate(parse: DateParser, c: Cell): (r: Cell)
    ensures !r.Str? && !r.Num?
    ensures c.Str? || c.Num? ==> r.Instant? || r.Missing?
    ensures c.Str? && parse.fromText(c.s).Some? ==> r == Instant(parse.fromText(c.s).value)
    ensures c.Str? && parse.fromText(c.s).None? ==> r == Missing
    ensures c.Num? && parse.fromNumber(c.x).Some? ==> r == Instant(parse.fromNumber(c.x).value)
    ensures c.Num? && parse.fromNumber(c.x).None? ==> r == Missing
    ensures !c.Str? && !c.Num? ==> r == c
  {
    match c
    case Str(s) => (match parse.fromText(s) case Some(t) => Instant(t) case None => Missing)
    case Num(x) => (match parse.fromNumber(x) case Some(t) => Instant(t) case None => Missing)
    case _ => c
  }

  function NumericColumn(parse: string -> Option<real>, col: seq<Cell>): seq<Cell> {
    seq(|col|, i requires 0 <= i < |col| => ToNumber(parse, col[i]))
  }

  function DateColumn(parse: DateParser, col: seq<Cell>): seq<Cell> {
    seq(|col|, i requires 0 <= i < |col| => ToDate(parse, col[i]))
  }

  /** A column of pandas' `object` dtype, taken here as one holding text. */
  predicate HasText(col: seq<Cell>) {
    exists i :: 0 <= i < |col| && col[i].Str?
  }

  /** The frame's data after the columns in `sel` were coerced to numbers. */
  function Coerced(data: map<string, seq<Cell>>, sel: seq<string>, parse: string -> Option<real>): map<string, seq<Cell>> {
    map c | c in data :: if c in sel then NumericColumn(parse, data[c]) else data[c]
  }

  /** The frame's data after the date column `d`, if it is of object
      dtype, was converted to dates. */
  function DateCoerced(data: map<string, seq<Cell>>, d: Option<string>, parse: DateParser): map<string, seq<Cell>> {
    if d.Some? && d.value in data && HasText(data[d.value]) then data[d.value := DateColumn(parse, data[d.value])]
    else data
  }

  /** In a sequence without repetition, the element at `i` is not among
      those kept from before it. */
  lemma FilterPrefixExcludes(s: seq<string>, i: nat, keep: string -> bool)
    requires Distinct(s) && i < |s|
    ensures s[i] !in Filter(s[..i], keep)
  {
    var r := Filter(s[..i], keep);
    forall k | 0 <= k < |r| ensures r[k] != s[i] {
      var j :| 0 <= j < i && s[..i][j] == r[k];
    }
  }

  /** Coercing one more column updates that column alone. */
  lemma CoercedStep(data: map<string, seq<Cell>>, sel: seq<string>, col: string, parse: string -> Option<real>)
    requires col in data && col !in sel
    ensures Coerced(data, sel + [col], parse) == Coerced(data, sel, parse)[col := NumericColumn(parse, data[col])]
  {
  }

  /** Coercion never fails: a coerced cell is a number or NaN or was not
      text to begin with, and coercing it again changes nothing. */
  lemma {:induction false} CoercionIdempotent(parse: string -> Option<real>, data: map<string, seq<Cell>>, sel: seq<string>)
    ensures forall c, i :: c in Coerced(data, sel, parse) && c in sel && 0 <= i < |Coerced(data, sel, parse)[c]| ==>
      !Coerced(data, sel, parse)[c][i].Str?
    ensures Coerced(Coerced(data, sel, parse), sel, parse) == Coerced(data, sel, parse)
  {
    var once := Coerced(data, sel, parse);
    forall c | c in once ensures Coerced(once, sel, parse)[c] == once[c] {
      if c in sel {
        assert NumericColumn(parse, once[c]) == once[c];
      }
    }
  }

  /** Cell by cell, a coerced column holds the parsed number of each text
      that parses, NaN for each text that does not, and every other cell
      as it was; the columns not selected are unchanged. */
  lemma CoercedCells(parse: string -> Option<real>, data: map<string, seq<Cell>>, sel: seq<string>)
    ensures forall c :: c in Coerced(data, sel, parse) <==> c in data
    ensures forall c :: c in data && c !in sel ==> Coerced(data, sel, parse)[c] == data[c]
    ensures forall c, i :: c in data && c in sel && 0 <= i < |data[c]| ==>
      && i < |Coerced(data, sel, parse)[c]|
      && (data[c][i].Str? && parse(data[c][i].s).None? ==> Coerced(data, sel, parse)[c][i] == Missing)
      && (data[c][i].Str? && parse(data[c][i].s).Some? ==> Coerced(data, sel, parse)[c][i] == Num(parse(data[c][i].s).value))
      && (!data[c][i].Str? ==> Coerced(data, sel, parse)[c][i] == data[c][i])
  {
  }

  /** Cell by cell, a converted date column holds the parsed instant of
      each readable text or number, NaN for each unreadable one, and every
      other cell as it was; a column without text, and every other
      column, is unchanged. */
  lemma DateCoercedCells(parse: DateParser, data: map<string, seq<Cell>>, d: string)
    requires d in data
    ensures forall c :: c in DateCoerced(data, Some(d), parse) <==> c in data
    ensures forall c :: c in data && c != d ==> DateCoerced(data, Some(d), parse)[c] == data[c]
    ensures !HasText(data[d]) ==> DateCoerced(data, Some(d), parse)[d] == data[d]
    ensures HasText(data[d]) ==> forall i :: 0 <= i < |data[d]| ==>
      && i < |DateCoerced(data, Some(d), parse)[d]|
      && (data[d][i].Str? && parse.fromText(data[d][i].s).Some? ==>
            DateCoerced(data, Some(d), parse)[d][i] == Instant(parse.fromText(data[d][i].s).value))
      && (data[d][i].Num? && parse.fromNumber(data[d][i].x).Some? ==>
            DateCoerced(data, Some(d), parse)[d][i] == Instant(parse.fromNumber(data[d][i].x).value))
      && ((data[d][i].Str? && parse.fromText(data[d][i].s).None?) || (data[d][i].Num? && parse.fromNumber(data[d][i].x).None?) ==>
            DateCoerced(data, Some(d), parse)[d][i] == Missing)
      && (!data[d][i].Str? && !data[d][i].Num? ==> DateCoerced(data, Some(d), parse)[d][i] == data[d][i])
  {
  }

  /** A pandas data frame, changed in place column by column. */
  class Frame {
    var columns: seq<string>
    var data: map<string, seq<Cell>>

    ghost predicate Valid()
      reads this
    {
      WellFormed(Table(columns, data))
    }

    function Snapshot(): Table
      reads this
    {
      Table(columns, data)
    }

    /** `pd.DataFrame(rows)` for a list of records. */
    constructor (rows: seq<Record>)
      ensures Valid() && Snapshot() == TableOf(rows)
    {
      var t := TableOf(rows);
      columns := t.columns;
      data := t.data;
    }

    /** The coercion loop: every column that passes `keep`, in column
        order, is replaced by its numeric conversion and noted. */
    method CoerceWhere(keep: string -> bool, parse: string -> Option<real>) returns (coerced: seq<string>)
      requires Valid()
      modifies this`data
      ensures Valid()
      ensures coerced == Filter(columns, keep)
      ensures data == Coerced(old(data), coerced, parse)
    {
      coerced := [];
      for i := 0 to |columns|
        invariant Valid()
        invariant coerced == Filter(columns[..i], keep)
        invariant data == Coerced(old(data), coerced, parse)
      {
        var col := columns[i];
        assert columns[..i + 1][..i] == columns[..i];
        if keep(col) {
          FilterPrefixExcludes(columns, i, keep);
          CoercedStep(old(data), coerced, col, parse);
          assert data[col] == old(data)[col];
          data := data[col := NumericColumn(parse, data[col])];
          coerced := coerced + [col];
        }
      }
      assert columns[..|columns|] == columns;
    }

    /** The date loop: the first column that passes `isDate` is the date
        column, converted to dates when it holds text; the loop stops
        there. */
    method ConvertFirstWhere(isDate: string -> bool, parse: DateParser) returns (found: Option<string>)
      requires Valid()
      modifies this`data
      ensures Valid()
      ensures found == FirstWhere(columns, isDate)
      ensures data == DateCoerced(old(data), found, parse)
    {
      found := None;
      var i := 0;
      while i < |columns|
        invariant 0 <= i <= |columns|
        invariant data == old(data)
        invariant forall j :: 0 <= j < i ==> !isDate(columns[j])
      {
        var col := columns[i];
        if isDate(col) {
          FirstWhereAt(columns, isDate, i);
          found := Some(col);
          if HasText(data[col]) {
            data := data[col := DateColumn(parse, data[col])];
          }
          return;
        }
        i := i + 1;
      }
    }
  }
}
