/** The bar-chart renderer (app.py:258-314): which columns are coerced to
    numbers, which column labels the bars, which one gives their height,
    and which reference lines are drawn. */
module BarChart {
  import opened Wrappers
  import opened Seqs
  import opened Text
  import opened Frames

  /** The column name, lowercased, holds `word`. */
  predicate Mentions(col: string, word: string) {
    Contains(Lower(col), word)
  }

  /** The test that marks a bar-chart column as numeric. */
  predicate IsNumericName(col: string) {
    col == "Value" || Mentions(col, "value") || EndsWith(col, "Min") || EndsWith(col, "Max") || EndsWith(col, "Target")
  }

  predicate IsNonNumericName(col: string) {
    !IsNumericName(col)
  }

  predicate IsValueName(col: string) {
    Mentions(col, "value")
  }

  predicate IsLowName(col: string) {
    Mentions(col, "min") || Mentions(col, "low")
  }

  predicate IsHighName(col: string) {
    Mentions(col, "max") || Mentions(col, "high")
  }

  predicate IsTargetName(col: string) {
    Mentions(col, "target") || Mentions(col, "reference")
  }

  /** `col not in xs`, as a test. */
  function Outside(xs: seq<string>): string -> bool {
    col => col !in xs
  }

  /** The x axis: the first column that was not coerced, else the first column. */
  function LabelColumn(cols: seq<string>, numeric: seq<string>): (x: Option<string>)
    ensures x.None? <==> cols == []
    ensures x.Some? ==> x.value in cols
    ensures (exists i :: 0 <= i < |cols| && cols[i] !in numeric) ==> x.Some? && x.value !in numeric
  {
    match FirstWhere(cols, Outside(numeric))
    case Some(col) => Some(col)
    case None => if |cols| > 0 then Some(cols[0]) else None
  }

  /** The x-axis loop with its `break`, and the first-column fallback. */
  method FindLabelColumn(cols: seq<string>, numeric: seq<string>) returns (x: Option<string>)
    ensures x == LabelColumn(cols, numeric)
  {
    x := None;
    var i := 0;
    while i < |cols|
      invariant 0 <= i <= |cols|
      invariant forall j :: 0 <= j < i ==> cols[j] in numeric
    {
      if cols[i] !in numeric {
        FirstWhereAt(cols, Outside(numeric), i);
        x := Some(cols[i]);
        break;
      }
      i := i + 1;
    }
    if x.None? && |cols| > 0 {
      x := Some(cols[0]);
    }
  }

  /** The y axis: "Value" if present, else the first column mentioning
      "value", else the first coerced column. */
  function ValueColumn(cols: seq<string>, numeric: seq<string>): (y: Option<string>)
    ensures y.Some? ==> y.value in numeric || (y.value in cols && IsValueName(y.value))
    ensures y.None? <==> "Value" !in cols && (forall i :: 0 <= i < |cols| ==> !IsValueName(cols[i])) && numeric == []
  {
    ValueIsValueName();
    if "Value" in cols then Some("Value")
    else match FirstWhere(cols, IsValueName)
      case Some(col) => Some(col)
      case None => if |numeric| > 0 then Some(numeric[0]) else None
  }

  datatype RefKind = LowerReference | UpperReference | TargetReference

  /** A dashed line drawn over the bars, read from `column`. */
  datatype RefLine = RefLine(kind: RefKind, column: string)

  /** The reference lines: the first "min"/"low" column and the first
      "max"/"high" column, or, when there is neither, the first
      "target"/"reference" column. */
  function ReferenceLines(cols: seq<string>): (r: seq<RefLine>)
    ensures 0 < |r| <==> exists i :: 0 <= i < |cols| && (IsLowName(cols[i]) || IsHighName(cols[i]) || IsTargetName(cols[i]))
    ensures forall k :: 0 <= k < |r| ==> r[k].column in cols
  {
    var low := FirstWhere(cols, IsLowName);
    var high := FirstWhere(cols, IsHighName);
    var target := FirstWhere(cols, IsTargetName);
    (if low.Some? then [RefLine(LowerReference, low.value)] else [])
    + (if high.Some? then [RefLine(UpperReference, high.value)] else [])
    + (if target.Some? && low.None? && high.None? then [RefLine(TargetReference, target.value)] else [])
  }

  /** What the bar panel shows above its raw-data table. */
  datatype BarResult = BarPlot(x: string, y: string, refs: seq<RefLine>) | BarError(message: string)

  const BarErrorPrefix := "Could not determine appropriate columns for visualization. Available columns: "

  /** The bar panel for a frame with these columns. */
  function BarChoice(cols: seq<string>): (r: BarResult)
    ensures r.BarPlot? ==> r.x in cols && r.x != "" && r.y in cols && IsNumericName(r.y)
    ensures r.BarPlot? ==> forall k :: 0 <= k < |r.refs| ==> r.refs[k].column in cols
    ensures r.BarError? ==> |BarErrorPrefix| <= |r.message| && r.message[..|BarErrorPrefix|] == BarErrorPrefix
  {
    var numeric := Filter(cols, IsNumericName);
    var x := LabelColumn(cols, numeric);
    var y := ValueColumn(cols, numeric);
    if x.Some? && x.value != "" && y.Some? && y.value != "" then BarPlot(x.value, y.value, ReferenceLines(cols))
    else BarError(BarErrorPrefix + Join(", ", cols))
  }

  /** The bar branch on a freshly built frame: coerce the numeric columns
      in place, then choose the axes and reference lines. */
  method RenderBar(frame: Frame, parse: string -> Option<real>) returns (result: BarResult)
    requires frame.Valid()
    modifies frame`data
    ensures frame.Valid()
    ensures result == BarChoice(frame.columns)
    ensures frame.data == Coerced(old(frame.data), Filter(frame.columns, IsNumericName), parse)
  {
    var numeric := frame.CoerceWhere(IsNumericName, parse);
    var x := FindLabelColumn(frame.columns, numeric);
    var y := ValueColumn(frame.columns, numeric);
    if x.Some? && x.value != "" && y.Some? && y.value != "" {
      result := BarPlot(x.value, y.value, ReferenceLines(frame.columns));
    } else {
      result := BarError(BarErrorPrefix + Join(", ", frame.columns));
    }
  }

  /** A column is coerced exactly when its name passes the numeric test. */
  lemma CoercedIffNumericName(cols: seq<string>, i: nat)
    requires i < |cols|
    ensures cols[i] in Filter(cols, IsNumericName) <==> IsNumericName(cols[i])
  {
    var numeric := Filter(cols, IsNumericName);
    if cols[i] in numeric {
      var k :| 0 <= k < |numeric| && numeric[k] == cols[i];
    }
  }

  /** The x axis is the first column whose name fails the numeric test;
      when every name passes it, the first column. */
  lemma LabelColumnChoice(cols: seq<string>)
    ensures var x := LabelColumn(cols, Filter(cols, IsNumericName));
      && (x.None? <==> cols == [])
      && ((exists i :: 0 <= i < |cols| && !IsNumericName(cols[i])) ==> x == FirstWhere(cols, IsNonNumericName))
      && ((forall i :: 0 <= i < |cols| ==> IsNumericName(cols[i])) && cols != [] ==> x == Some(cols[0]))
  {
    var numeric := Filter(cols, IsNumericName);
    forall i | 0 <= i < |cols| ensures Outside(numeric)(cols[i]) == IsNonNumericName(cols[i]) {
      CoercedIffNumericName(cols, i);
    }
    FirstWhereCongruent(cols, Outside(numeric), IsNonNumericName);
  }

  /** The y axis is always a coerced column with a non-empty name; there is
      one exactly when some column passes the numeric test, and "Value"
      wins when present. */
  lemma ValueColumnChoice(cols: seq<string>)
    ensures var numeric := Filter(cols, IsNumericName);
      var y := ValueColumn(cols, numeric);
      && (y.Some? ==> y.value in numeric && y.value != "")
      && (y.None? <==> forall i :: 0 <= i < |cols| ==> !IsNumericName(cols[i]))
      && ("Value" in cols ==> y == Some("Value"))
      && ("Value" !in cols && (exists i :: 0 <= i < |cols| && IsValueName(cols[i])) ==> y == FirstWhere(cols, IsValueName))
      && ("Value" !in cols && (forall i :: 0 <= i < |cols| ==> !IsValueName(cols[i])) ==> y == FirstWhere(cols, IsNumericName))
  {
    FilterStartsWithFirstWhere(cols, IsNumericName);
    var numeric := Filter(cols, IsNumericName);
    var y := ValueColumn(cols, numeric);
    if "Value" in cols {
      var i :| 0 <= i < |cols| && cols[i] == "Value";
      CoercedIffNumericName(cols, i);
    } else if FirstWhere(cols, IsValueName).Some? {
      var i :| 0 <= i < |cols| && cols[i] == y.value;
      CoercedIffNumericName(cols, i);
      assert Lower(y.value) != "";
    } else if |numeric| > 0 {
      assert IsNumericName(numeric[0]);
    }
  }

  /** The bar chart fails exactly when no column passes the numeric test
      or the chosen label column is named "" (an empty name is falsy). */
  lemma BarFailsIff(cols: seq<string>)
    ensures BarChoice(cols).BarError? <==>
      (forall i :: 0 <= i < |cols| ==> !IsNumericName(cols[i]))
      || FirstWhere(cols, IsNonNumericName) == Some("")
  {
    var numeric := Filter(cols, IsNumericName);
    var x := LabelColumn(cols, numeric);
    var y := ValueColumn(cols, numeric);
    LabelColumnChoice(cols);
    ValueColumnChoice(cols);
    EmptyNameIsNotNumeric();
    assert BarChoice(cols).BarError? <==> !(x.Some? && x.value != "" && y.Some?);
  }

  lemma EmptyNameIsNotNumeric()
    ensures !IsNumericName("")
  {
    assert Lower("") == "";
  }

  /** The error names every column of the frame. */
  lemma BarErrorListsColumns(cols: seq<string>)
    ensures BarChoice(cols).BarError? ==>
      var m := BarChoice(cols).message;
      && m[..|BarErrorPrefix|] == BarErrorPrefix
      && forall i :: 0 <= i < |cols| ==> Contains(m, cols[i])
  {
    if BarChoice(cols).BarError? {
      var m := BarChoice(cols).message;
      assert m == BarErrorPrefix + Join(", ", cols);
      forall i | 0 <= i < |cols| ensures Contains(m, cols[i]) {
        JoinContainsEach(", ", cols, i);
        ContainsAfterPrefix(BarErrorPrefix, Join(", ", cols), cols[i]);
      }
    }
  }

  /** `r` draws a line of this kind. */
  predicate Draws(r: seq<RefLine>, kind: RefKind) {
    exists k :: 0 <= k < |r| && r[k].kind == kind
  }

  /** At most two reference lines, each read from a column of the frame:
      the first column that qualifies for its kind. */
  lemma ReferenceLinesColumns(cols: seq<string>)
    ensures var r := ReferenceLines(cols);
      && |r| <= 2
      && (forall k :: 0 <= k < |r| ==> r[k].column in cols)
      && (forall k :: 0 <= k < |r| && r[k].kind == LowerReference ==> Some(r[k].column) == FirstWhere(cols, IsLowName))
      && (forall k :: 0 <= k < |r| && r[k].kind == UpperReference ==> Some(r[k].column) == FirstWhere(cols, IsHighName))
      && (forall k :: 0 <= k < |r| && r[k].kind == TargetReference ==> Some(r[k].column) == FirstWhere(cols, IsTargetName))
  {
    ReferenceLinesCases(cols);
  }

  /** A lower line exactly when some column mentions "min" or "low", an
      upper line exactly when some column mentions "max" or "high", and a
      target line exactly when some column mentions "target" or
      "reference" and there is neither of the others. */
  lemma ReferenceLinesKinds(cols: seq<string>)
    ensures var r := ReferenceLines(cols);
      && (Draws(r, LowerReference) <==> exists i :: 0 <= i < |cols| && IsLowName(cols[i]))
      && (Draws(r, UpperReference) <==> exists i :: 0 <= i < |cols| && IsHighName(cols[i]))
      && (Draws(r, TargetReference) <==>
            (exists i :: 0 <= i < |cols| && IsTargetName(cols[i]))
            && forall i :: 0 <= i < |cols| ==> !IsLowName(cols[i]) && !IsHighName(cols[i]))
  {
    var low := FirstWhere(cols, IsLowName);
    var high := FirstWhere(cols, IsHighName);
    var target := FirstWhere(cols, IsTargetName);
    var r := ReferenceLines(cols);
    ReferenceLinesCases(cols);
    assert Draws(r, LowerReference) <==> low.Some? by {
      if low.Some? { assert r[0].kind == LowerReference; }
    }
    assert Draws(r, UpperReference) <==> high.Some? by {
      if high.Some? { assert r[|r| - 1].kind == UpperReference; }
    }
    assert Draws(r, TargetReference) <==> target.Some? && low.None? && high.None? by {
      if target.Some? && low.None? && high.None? { assert r[0].kind == TargetReference; }
    }
  }

  /** The five shapes the list of reference lines can take. */
  lemma ReferenceLinesCases(cols: seq<string>)
    ensures var low := FirstWhere(cols, IsLowName);
      var high := FirstWhere(cols, IsHighName);
      var target := FirstWhere(cols, IsTargetName);
      var r := ReferenceLines(cols);
      && (low.Some? && high.Some? ==> r == [RefLine(LowerReference, low.value), RefLine(UpperReference, high.value)])
      && (low.Some? && high.None? ==> r == [RefLine(LowerReference, low.value)])
      && (low.None? && high.Some? ==> r == [RefLine(UpperReference, high.value)])
      && (low.None? && high.None? && target.Some? ==> r == [RefLine(TargetReference, target.value)])
      && (low.None? && high.None? && target.None? ==> r == [])
  {
  }

  /** `word` is not in `col` when a letter of it is missing from `col` lowercased. */
  lemma NotMentioned(col: string, lower: string, word: string, k: nat)
    requires Lower(col) == lower && k < |word| && word[k] !in lower
    ensures !Mentions(col, word)
  {
    MissingCharNotContained(lower, word, k);
  }

  /** `word` is in `col` when it occurs at `i` in `col` lowercased. */
  lemma MentionedAt(col: string, lower: string, word: string, i: nat)
    requires Lower(col) == lower && OccursAt(lower, word, i)
    ensures Mentions(col, word)
  {
  }

  /** "Value" mentions "value". */
  lemma ValueIsValueName()
    ensures IsValueName("Value")
  {
    LowerValue();
    MentionedAt("Value", "value", "value", 0);
  }

  /** The example column names lowercased. */
  lemma LowerTest() ensures Lower("Test") == "test" {}
  lemma LowerType() ensures Lower("Type") == "type" {}
  lemma LowerValue() ensures Lower("Value") == "value" {}
  lemma LowerRangeMin() ensures Lower("Normal Range Min") == "normal range min" {}
  lemma LowerRangeMax() ensures Lower("Normal Range Max") == "normal range max" {}
  lemma LowerTarget() ensures Lower("Target") == "target" {}

  /** How the columns of the reply format's example bar charts classify. */
  lemma TestIsNotNumeric()
    ensures !IsNumericName("Test")
  {
    LowerTest();
    NotMentioned("Test", "test", "value", 0);
    assert !EndsWith("Test", "Min") && !EndsWith("Test", "Max") && !EndsWith("Test", "Target");
  }

  lemma TestIsNotLow()
    ensures !IsLowName("Test")
  {
    LowerTest();
    NotMentioned("Test", "test", "min", 0);
    NotMentioned("Test", "test", "low", 0);
  }

  lemma TestIsNotHigh()
    ensures !IsHighName("Test")
  {
    LowerTest();
    NotMentioned("Test", "test", "max", 0);
    NotMentioned("Test", "test", "high", 0);
  }

  lemma TypeIsNotNumeric()
    ensures !IsNumericName("Type")
  {
    LowerType();
    NotMentioned("Type", "type", "value", 0);
    assert !EndsWith("Type", "Min") && !EndsWith("Type", "Max") && !EndsWith("Type", "Target");
  }

  lemma TypeIsNotLow()
    ensures !IsLowName("Type")
  {
    LowerType();
    NotMentioned("Type", "type", "min", 0);
    NotMentioned("Type", "type", "low", 0);
  }

  lemma TypeIsNotHigh()
    ensures !IsHighName("Type")
  {
    LowerType();
    NotMentioned("Type", "type", "max", 0);
    NotMentioned("Type", "type", "high", 0);
  }

  lemma TypeIsNotTarget()
    ensures !IsTargetName("Type")
  {
    LowerType();
    NotMentioned("Type", "type", "target", 1);
    NotMentioned("Type", "type", "reference", 0);
  }

  lemma ValueIsNotLow()
    ensures !IsLowName("Value")
  {
    LowerValue();
    NotMentioned("Value", "value", "min", 0);
    NotMentioned("Value", "value", "low", 1);
  }

  lemma ValueIsNotHigh()
    ensures !IsHighName("Value")
  {
    LowerValue();
    NotMentioned("Value", "value", "max", 0);
    NotMentioned("Value", "value", "high", 0);
  }

  lemma ValueIsNotTarget()
    ensures !IsTargetName("Value")
  {
    LowerValue();
    NotMentioned("Value", "value", "target", 0);
    NotMentioned("Value", "value", "reference", 0);
  }

  lemma RangeMinIsLow()
    ensures IsLowName("Normal Range Min")
  {
    LowerRangeMin();
    MentionedAt("Normal Range Min", "normal range min", "min", 13);
  }

  lemma RangeMinIsNotHigh()
    ensures !IsHighName("Normal Range Min")
  {
    LowerRangeMin();
    NotMentioned("Normal Range Min", "normal range min", "max", 2);
    NotMentioned("Normal Range Min", "normal range min", "high", 0);
  }

  lemma RangeMaxIsHigh()
    ensures IsHighName("Normal Range Max")
  {
    LowerRangeMax();
    MentionedAt("Normal Range Max", "normal range max", "max", 13);
  }

  lemma TargetIsNotLow()
    ensures !IsLowName("Target")
  {
    LowerTarget();
    NotMentioned("Target", "target", "min", 0);
    NotMentioned("Target", "target", "low", 0);
  }

  lemma TargetIsNotHigh()
    ensures !IsHighName("Target")
  {
    LowerTarget();
    NotMentioned("Target", "target", "max", 0);
    NotMentioned("Target", "target", "high", 0);
  }

  lemma TargetIsTarget()
    ensures IsTargetName("Target")
  {
    LowerTarget();
    MentionedAt("Target", "target", "target", 0);
  }

  /** The chart drawn once both axes are known. */
  lemma BarChoiceOf(cols: seq<string>, x: string, y: string)
    requires LabelColumn(cols, Filter(cols, IsNumericName)) == Some(x) && x != ""
    requires ValueColumn(cols, Filter(cols, IsNumericName)) == Some(y) && y != ""
    ensures BarChoice(cols) == BarPlot(x, y, ReferenceLines(cols))
  {
  }

  /** The blood-test panel of the reply format's example: bars of "Value"
      labelled by "Test", with a lower line from "Normal Range Min" and an
      upper line from "Normal Range Max". */
  lemma BloodTestPanel()
    ensures BarChoice(["Test", "Value", "Normal Range Min", "Normal Range Max"])
      == BarPlot("Test", "Value", [RefLine(LowerReference, "Normal Range Min"), RefLine(UpperReference, "Normal Range Max")])
  {
    var cols := ["Test", "Value", "Normal Range Min", "Normal Range Max"];
    var numeric := Filter(cols, IsNumericName);
    TestIsNotNumeric();
    CoercedIffNumericName(cols, 0);
    FirstWhereAt(cols, Outside(numeric), 0);
    var x := LabelColumn(cols, numeric);
    assert x == Some("Test");
    assert cols[1] == "Value";
    var y := ValueColumn(cols, numeric);
    assert y == Some("Value");
    BarChoiceOf(cols, "Test", "Value");
    BloodTestReferenceLines();
  }

  lemma BloodTestReferenceLines()
    ensures ReferenceLines(["Test", "Value", "Normal Range Min", "Normal Range Max"])
      == [RefLine(LowerReference, "Normal Range Min"), RefLine(UpperReference, "Normal Range Max")]
  {
    var cols := ["Test", "Value", "Normal Range Min", "Normal Range Max"];
    TestIsNotLow();
    ValueIsNotLow();
    RangeMinIsLow();
    FirstWhereAt(cols, IsLowName, 2);
    TestIsNotHigh();
    ValueIsNotHigh();
    RangeMinIsNotHigh();
    RangeMaxIsHigh();
    FirstWhereAt(cols, IsHighName, 3);
    ReferenceLinesCases(cols);
  }

  /** The cholesterol panel of the reply format's example: bars of "Value"
      labelled by "Type", and one target line from "Target" since nothing
      mentions a minimum or a maximum. */
  lemma CholesterolPanel()
    ensures BarChoice(["Type", "Value", "Target"])
      == BarPlot("Type", "Value", [RefLine(TargetReference, "Target")])
  {
    var cols := ["Type", "Value", "Target"];
    var numeric := Filter(cols, IsNumericName);
    TypeIsNotNumeric();
    CoercedIffNumericName(cols, 0);
    FirstWhereAt(cols, Outside(numeric), 0);
    var x := LabelColumn(cols, numeric);
    assert x == Some("Type");
    assert cols[1] == "Value";
    var y := ValueColumn(cols, numeric);
    assert y == Some("Value");
    BarChoiceOf(cols, "Type", "Value");
    CholesterolReferenceLines();
  }

  lemma CholesterolReferenceLines()
    ensures ReferenceLines(["Type", "Value", "Target"]) == [RefLine(TargetReference, "Target")]
  {
    var cols := ["Type", "Value", "Target"];
    TypeIsNotLow();
    ValueIsNotLow();
    TargetIsNotLow();
    assert FirstWhere(cols, IsLowName) == None;
    TypeIsNotHigh();
    ValueIsNotHigh();
    TargetIsNotHigh();
    assert FirstWhere(cols, IsHighName) == None;
    TypeIsNotTarget();
    ValueIsNotTarget();
    TargetIsTarget();
    FirstWhereAt(cols, IsTargetName, 2);
    ReferenceLinesCases(cols);
  }
}
