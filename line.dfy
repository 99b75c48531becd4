/** The line-chart renderer (app.py:316-355): the date column, the columns
    coerced to numbers, and the axes of the plot. */
module LineChart {
  import opened Wrappers
  import opened Seqs
  import opened Text
  import opened Frames

  /** The column name, lowercased, mentions "date" or "time". */
  predicate IsDateName(col: string) {
    Contains(Lower(col), "date") || Contains(Lower(col), "time")
  }

  /** `col != date_col`, as a test. */
  function NotDate(d: Option<string>): string -> bool {
    col => Some(col) != d
  }

  /** What the line panel shows above its raw-data table. */
  datatype LineResult = LinePlot(x: string, ys: seq<string>) | LineError(message: string)

  const LineErrorPrefix := "Could not create line chart. Missing appropriate columns. Available columns: "

  /** The line panel for a frame with these columns: the date column
      against every other column, else the first column against the rest. */
  function LineChoice(cols: seq<string>): (r: LineResult)
    ensures r.LinePlot? ==> r.x in cols && |r.ys| > 0 && forall k :: 0 <= k < |r.ys| ==> r.ys[k] in cols
    ensures r.LineError? ==> |LineErrorPrefix| <= |r.message| && r.message[..|LineErrorPrefix|] == LineErrorPrefix
  {
    var d := FirstWhere(cols, IsDateName);
    var numeric := Filter(cols, NotDate(d));
    if d.Some? && |numeric| > 0 then LinePlot(d.value, numeric)
    else if |cols| >= 2 then LinePlot(cols[0], cols[1..])
    else LineError(LineErrorPrefix + Join(", ", cols))
  }

  /** The frame's data once the line branch has converted the date column
      and coerced every other column. */
  function LineCoerced(data: map<string, seq<Cell>>, cols: seq<string>, cv: Coercers): (r: map<string, seq<Cell>>)
    ensures forall c :: c in r <==> c in data
    ensures forall c :: c in r ==> |r[c]| == |data[c]|
  {
    var d := FirstWhere(cols, IsDateName);
    Coerced(DateCoerced(data, d, cv.toDate), Filter(cols, NotDate(d)), cv.toNumber)
  }

  /** The line branch on a freshly built frame. The fallback to a column
      named "Date" is never taken (`DateFallbackNeverFires`). */
  method RenderLine(frame: Frame, cv: Coercers) returns (result: LineResult)
    requires frame.Valid()
    modifies frame`data
    ensures frame.Valid()
    ensures result == LineChoice(frame.columns)
    ensures frame.data == LineCoerced(old(frame.data), frame.columns, cv)
  {
    var d := frame.ConvertFirstWhere(IsDateName, cv.toDate);
    if d.None? && "Date" in frame.columns {
      DateFallbackNeverFires(frame.columns);
      assert false;
    }
    var numeric := frame.CoerceWhere(NotDate(d), cv.toNumber);
    if d.Some? && |numeric| > 0 {
      result := LinePlot(d.value, numeric);
    } else if |frame.columns| >= 2 {
      result := LinePlot(frame.columns[0], frame.columns[1..]);
    } else {
      result := LineError(LineErrorPrefix + Join(", ", frame.columns));
    }
  }

  /** A column named "Date" always passes the date test, so the loop has
      already found a date column whenever one named "Date" exists. */
  lemma DateFallbackNeverFires(cols: seq<string>)
    ensures "Date" in cols ==> FirstWhere(cols, IsDateName).Some?
  {
    assert Lower("Date") == "date";
    assert OccursAt("date", "date", 0);
    assert IsDateName("Date");
  }

  /** On a frame's columns (which never repeat) the line chart fails
      exactly when there are fewer than two columns. */
  lemma LineFailsIff(cols: seq<string>)
    requires Distinct(cols)
    ensures LineChoice(cols).LineError? <==> |cols| < 2
  {
    var d := FirstWhere(cols, IsDateName);
    var numeric := Filter(cols, NotDate(d));
    if d.Some? && |cols| >= 2 {
      var k :| 0 <= k < |cols| && cols[k] == d.value;
      var j := if k == 0 then 1 else 0;
      assert NotDate(d)(cols[j]);
      assert cols[j] in numeric;
    }
  }

  /** The error names every column of the frame. */
  lemma LineErrorListsColumns(cols: seq<string>)
    ensures LineChoice(cols).LineError? ==>
      var m := LineChoice(cols).message;
      && m[..|LineErrorPrefix|] == LineErrorPrefix
      && forall i :: 0 <= i < |cols| ==> Contains(m, cols[i])
  {
    if LineChoice(cols).LineError? {
      var m := LineChoice(cols).message;
      assert m == LineErrorPrefix + Join(", ", cols);
      forall i | 0 <= i < |cols| ensures Contains(m, cols[i]) {
        JoinContainsEach(", ", cols, i);
        ContainsAfterPrefix(LineErrorPrefix, Join(", ", cols), cols[i]);
      }
    }
  }

  /** With a date column the plot draws it against every other column, in
      frame order. */
  lemma LineWithDate(cols: seq<string>)
    requires Distinct(cols) && |cols| >= 2
    requires FirstWhere(cols, IsDateName).Some?
    ensures var x := FirstWhere(cols, IsDateName).value;
      var k := IndexOf(cols, x);
      && IsDateName(x)
      && LineChoice(cols) == LinePlot(x, cols[..k] + cols[k + 1..])
  {
    var d := FirstWhere(cols, IsDateName);
    var k := IndexOf(cols, d.value);
    forall j | 0 <= j < |cols| && j != k ensures NotDate(d)(cols[j]) {
    }
    FilterRemovesOne(cols, NotDate(d), k);
    assert |cols[..k] + cols[k + 1..]| > 0;
  }

  /** Without a date column the plot draws the first column against the
      rest, and every column, the first included, has been coerced to
      numbers. */
  lemma LineWithoutDate(cols: seq<string>)
    requires |cols| >= 2
    requires FirstWhere(cols, IsDateName).None?
    ensures LineChoice(cols) == LinePlot(cols[0], cols[1..])
    ensures Filter(cols, NotDate(None)) == cols
  {
    forall i | 0 <= i < |cols| ensures NotDate(None)(cols[i]) {
    }
    FilterKeepsAll(cols, NotDate(None));
  }

  /** After the line branch no column holds text: the date column was
      converted (or held none) and every other column was coerced. */
  lemma LineFrameHoldsNoText(data: map<string, seq<Cell>>, cols: seq<string>, cv: Coercers)
    requires WellFormed(Table(cols, data))
    ensures var out := LineCoerced(data, cols, cv);
      forall c: string, i: int :: c in out && 0 <= i < |out[c]| ==> !out[c][i].Str?
  {
    var d := FirstWhere(cols, IsDateName);
    var dated := DateCoerced(data, d, cv.toDate);
    var numeric := Filter(cols, NotDate(d));
    var out: map<string, seq<Cell>> := LineCoerced(data, cols, cv);
    forall c: string, i: int | c in out && 0 <= i < |out[c]| ensures !out[c][i].Str? {
      if Some(c) == d {
        if HasText(data[c]) {
          assert dated[c] == DateColumn(cv.toDate, data[c]);
        }
        assert c !in numeric;
      } else {
        var j :| 0 <= j < |cols| && cols[j] == c;
        assert NotDate(d)(cols[j]);
        assert c in numeric;
      }
    }
  }

  /** A date column that held text holds only dates and NaT afterwards:
      its numbers were read as dates too. */
  lemma DateColumnHoldsDates(data: map<string, seq<Cell>>, cols: seq<string>, cv: Coercers, d: string)
    requires WellFormed(Table(cols, data))
    requires FirstWhere(cols, IsDateName) == Some(d) && HasText(data[d])
    ensures d in LineCoerced(data, cols, cv)
    ensures forall i :: 0 <= i < |data[d]| ==> !LineCoerced(data, cols, cv)[d][i].Str? && !LineCoerced(data, cols, cv)[d][i].Num?
  {
    var numeric := Filter(cols, NotDate(Some(d)));
    assert d !in numeric;
    assert DateCoerced(data, Some(d), cv.toDate)[d] == DateColumn(cv.toDate, data[d]);
  }

  /** The vital-signs panel of the reply format's example: "Date" against
      the three measurements. */
  lemma VitalSignsPanel()
    ensures LineChoice(["Date", "Blood Pressure", "Heart Rate", "Temperature"])
      == LinePlot("Date", ["Blood Pressure", "Heart Rate", "Temperature"])
  {
    var cols := ["Date", "Blood Pressure", "Heart Rate", "Temperature"];
    DateFallbackNeverFires(cols);
    assert IsDateName(cols[0]) by {
      assert Lower("Date") == "date";
      assert OccursAt("date", "date", 0);
    }
    FirstWhereAt(cols, IsDateName, 0);
    assert Distinct(cols);
    LineWithDate(cols);
    assert cols[..0] + cols[1..] == ["Blood Pressure", "Heart Rate", "Temperature"];
  }
}
