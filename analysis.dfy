/** The analysis page (app.py:229-374): the reply's JSON is read, the
    entries that look like charts become tabs, and each tab is rendered by
    the renderer its "type" names. An exception anywhere ends the page with
    the generic error, after the tabs already drawn. */
module Analysis {
  import opened Wrappers
  import opened Seqs
  import opened Text
  import opened Json
  import opened Frames
  import opened Fence
  import opened BarChart
  import opened LineChart

  /** An accepted entry: its "title", its "type" if any, and its "data". */
  datatype Chart = Chart(title: Json, kind: Option<Json>, data: Json)

  /** What the test for a "title" and a "data" key makes of one entry:
      skip it, take it, or raise (a `TypeError` from `in` or from
      indexing the entry with "title"). */
  datatype Verdict = Skip | Take(chart: Chart) | Raise

  /** An entry the model takes as a chart. */
  predicate IsCandidate(v: Json) {
    v.JObj? && HasKey(v.fields, "title") && HasKey(v.fields, "data")
  }

  function ChartOf(v: Json): Chart
    requires IsCandidate(v)
  {
    Chart(Get(v.fields, "title").value, Get(v.fields, "type"), Get(v.fields, "data").value)
  }

  /** `in` is a key test on an object, a substring test on a string and an
      element test on a list, and raises on anything else; indexing a
      string or a list with "title" raises too. */
  function Examine(v: Json): (r: Verdict)
    ensures r.Take? <==> IsCandidate(v)
    ensures r.Take? ==> r.chart == ChartOf(v)
    ensures v.JObj? ==> !r.Raise?
    ensures v.JNull? || v.JBool? || v.JNum? ==> r.Raise?
  {
    match v
    case JObj(fields) => if IsCandidate(v) then Take(ChartOf(v)) else Skip
    case JStr(s) => if Contains(s, "title") && Contains(s, "data") then Raise else Skip
    case JArr(items) => if JStr("title") in items && JStr("data") in items then Raise else Skip
    case _ => Raise
  }

  /** The charts accepted from the document's entries, in document order,
      or `None` when examining an entry raises. */
  function Candidates(entries: seq<(string, Json)>): (r: Option<seq<Chart>>)
    ensures r.Some? ==> |r.value| <= |entries|
  {
    if entries == [] then Some([])
    else match Candidates(entries[..|entries| - 1])
      case None => None
      case Some(cs) =>
        match Examine(entries[|entries| - 1].1)
        case Skip => Some(cs)
        case Take(c) => Some(cs + [c])
        case Raise => None
  }

  function Titles(cs: seq<Chart>): (r: seq<Json>)
    ensures |r| == |cs| && forall k :: 0 <= k < |cs| ==> r[k] == cs[k].title
  {
    seq(|cs|, k requires 0 <= k < |cs| => cs[k].title)
  }

  /** The loop over the document's entries that collects the tabs and their titles. */
  method SelectCandidates(entries: seq<(string, Json)>) returns (tabs: seq<Chart>, names: seq<Json>, raised: bool)
    ensures raised <==> Candidates(entries).None?
    ensures !raised ==> Candidates(entries) == Some(tabs) && names == Titles(tabs)
  {
    tabs := [];
    names := [];
    for i := 0 to |entries|
      invariant Candidates(entries[..i]) == Some(tabs)
      invariant names == Titles(tabs)
    {
      assert entries[..i + 1][..i] == entries[..i];
      match Examine(entries[i].1)
      case Skip =>
      case Take(c) =>
        tabs := tabs + [c];
        names := names + [c.title];
      case Raise =>
        CandidatesStayRaised(entries, i + 1);
        raised := true;
        return;
    }
    assert entries[..|entries|] == entries;
    raised := false;
  }

  /** Once an entry raises, so does every longer prefix. */
  lemma {:induction false} CandidatesStayRaised(entries: seq<(string, Json)>, n: nat)
    requires n <= |entries| && Candidates(entries[..n]).None?
    ensures Candidates(entries).None?
  {
    if n < |entries| {
      var m := |entries| - 1;
      assert entries[..m][..n] == entries[..n];
      CandidatesStayRaised(entries[..m], n);
    } else {
      assert entries[..n] == entries;
    }
  }

  /** The loop raises exactly when some entry raises. */
  lemma {:induction false} CandidatesRaiseIff(entries: seq<(string, Json)>)
    ensures Candidates(entries).None? <==> exists i :: 0 <= i < |entries| && Examine(entries[i].1).Raise?
  {
    if entries != [] {
      var m := |entries| - 1;
      CandidatesRaiseIff(entries[..m]);
      assert forall i :: 0 <= i < m ==> entries[..m][i] == entries[i];
    }
  }

  function Values(entries: seq<(string, Json)>): (r: seq<Json>)
    ensures |r| == |entries| && forall i :: 0 <= i < |entries| ==> r[i] == entries[i].1
  {
    seq(|entries|, i requires 0 <= i < |entries| => entries[i].1)
  }

  function ChartsOf(vs: seq<Json>): (r: seq<Chart>)
    requires forall i :: 0 <= i < |vs| ==> IsCandidate(vs[i])
    ensures |r| == |vs| && forall k :: 0 <= k < |vs| ==> r[k] == ChartOf(vs[k])
  {
    seq(|vs|, k requires 0 <= k < |vs| => ChartOf(vs[k]))
  }

  /** When nothing raises, the tabs are exactly the entries that are
      objects with both a "title" and a "data" key, in document order. */
  lemma {:induction false} CandidatesAreTitledObjects(entries: seq<(string, Json)>)
    requires forall i :: 0 <= i < |entries| ==> !Examine(entries[i].1).Raise?
    ensures Candidates(entries) == Some(ChartsOf(Filter(Values(entries), IsCandidate)))
  {
    if entries != [] {
      var m := |entries| - 1;
      var p := entries[..m];
      forall i | 0 <= i < |p| ensures !Examine(p[i].1).Raise? { assert p[i] == entries[i]; }
      CandidatesAreTitledObjects(p);
      var v := entries[m].1;
      var before := Filter(Values(p), IsCandidate);
      assert Values(entries)[..m] == Values(p);
      assert Filter(Values(entries), IsCandidate) == before + (if IsCandidate(v) then [v] else []);
      if IsCandidate(v) {
        assert Examine(v) == Take(ChartOf(v));
        ChartsOfSnoc(before, v);
      } else {
        assert Examine(v).Skip?;
        assert before + [] == before;
      }
    }
  }

  lemma ChartsOfSnoc(vs: seq<Json>, v: Json)
    requires forall i :: 0 <= i < |vs| ==> IsCandidate(vs[i])
    requires IsCandidate(v)
    ensures ChartsOf(vs + [v]) == ChartsOf(vs) + [ChartOf(v)]
  {
  }

  /** When nothing raises, no chart is accepted exactly when no entry is
      an object with both a "title" and a "data" key. */
  lemma {:induction false} NoCandidatesIff(entries: seq<(string, Json)>)
    requires forall i :: 0 <= i < |entries| ==> !Examine(entries[i].1).Raise?
    ensures Candidates(entries) == Some([]) <==> forall i :: 0 <= i < |entries| ==> !IsCandidate(entries[i].1)
  {
    if entries != [] {
      var m := |entries| - 1;
      var p := entries[..m];
      forall i | 0 <= i < |p| ensures !Examine(p[i].1).Raise? { assert p[i] == entries[i]; }
      NoCandidatesIff(p);
      CandidatesRaiseIff(p);
      assert forall i :: 0 <= i < m ==> p[i] == entries[i];
      if IsCandidate(entries[m].1) {
        assert Examine(entries[m].1).Take?;
      }
    }
  }

  /** Which renderer a chart's "type" selects; `None` when the chart has
      no "type" (the subscript raises `KeyError`). */
  datatype Renderer = BarRenderer | LineRenderer | TableRenderer | NoRenderer

  function Dispatch(c: Chart): (r: Option<Renderer>)
    ensures r.None? <==> c.kind.None?
    ensures r == Some(BarRenderer) <==> c.kind == Some(JStr("bar")) && Truthy(c.data)
    ensures r == Some(LineRenderer) <==> c.kind == Some(JStr("line")) && Truthy(c.data)
    ensures r == Some(TableRenderer) <==> c.kind == Some(JStr("table")) && Truthy(c.data)
  {
    if c.kind.None? then None
    else if c.kind.value == JStr("bar") && Truthy(c.data) then Some(BarRenderer)
    else if c.kind.value == JStr("line") && Truthy(c.data) then Some(LineRenderer)
    else if c.kind.value == JStr("table") && Truthy(c.data) then Some(TableRenderer)
    else Some(NoRenderer)
  }

  /** The rows of a bar or line chart: a list of objects. */
  function Records(data: Json): (r: Option<seq<Record>>)
    ensures r.Some? ==> data.JArr? && |r.value| == |data.items|
  {
    if data.JArr? && forall i :: 0 <= i < |data.items| ==> data.items[i].JObj? then
      Some(seq(|data.items|, i requires 0 <= i < |data.items| => data.items[i].fields))
    else None
  }

  /** Data `pd.DataFrame` refuses for a table: a single scalar, or an
      object whose every value is a scalar. */
  predicate IsScalar(v: Json) {
    v.JNull? || v.JBool? || v.JNum? || v.JStr?
  }

  predicate RefusedTable(data: Json) {
    IsScalar(data) || (data.JObj? && forall i :: 0 <= i < |data.fields| ==> IsScalar(data.fields[i].1))
  }

  /** One tab's contents. The bar and line panels show their plot (or
      error) above the frame as it stands after coercion. */
  datatype Panel =
    | BarView(bar: BarResult, raw: Table)
    | LineView(line: LineResult, raw: Table)
    | TableView(heading: Json, table: Json)
    | Unsupported

  /** The panel of one chart, or `None` when rendering it raises. */
  function PanelOf(c: Chart, cv: Coercers): (r: Option<Panel>)
    ensures r.None? <==>
      || c.kind.None?
      || ((Dispatch(c) == Some(BarRenderer) || Dispatch(c) == Some(LineRenderer)) && Records(c.data).None?)
      || (Dispatch(c) == Some(TableRenderer) && RefusedTable(c.data))
    ensures r.Some? && r.value.BarView? ==>
      && Dispatch(c) == Some(BarRenderer) && Records(c.data).Some?
      && r.value.raw.columns == ColumnsOf(Records(c.data).value)
      && (forall col :: col in r.value.raw.data <==> col in r.value.raw.columns)
      && r.value.raw.data == Coerced(TableOf(Records(c.data).value).data, Filter(r.value.raw.columns, IsNumericName), cv.toNumber)
      && r.value.bar == BarChoice(r.value.raw.columns)
    ensures r.Some? && r.value.LineView? ==>
      && Dispatch(c) == Some(LineRenderer) && Records(c.data).Some?
      && r.value.raw.columns == ColumnsOf(Records(c.data).value)
      && (forall col :: col in r.value.raw.data <==> col in r.value.raw.columns)
      && r.value.raw.data == LineCoerced(TableOf(Records(c.data).value).data, r.value.raw.columns, cv)
      && r.value.line == LineChoice(r.value.raw.columns)
    ensures r.Some? && r.value.TableView? ==> r.value == TableView(c.title, c.data)
    ensures r == Some(Unsupported) <==> Dispatch(c) == Some(NoRenderer)
  {
    match Dispatch(c)
    case None => None
    case Some(BarRenderer) =>
      (match Records(c.data)
       case None => None
       case Some(rows) =>
         var t := TableOf(rows);
         Some(BarView(BarChoice(t.columns), Table(t.columns, Coerced(t.data, Filter(t.columns, IsNumericName), cv.toNumber)))))
    case Some(LineRenderer) =>
      (match Records(c.data)
       case None => None
       case Some(rows) =>
         var t := TableOf(rows);
         Some(LineView(LineChoice(t.columns), Table(t.columns, LineCoerced(t.data, t.columns, cv)))))
    case Some(TableRenderer) => if RefusedTable(c.data) then None else Some(TableView(c.title, c.data))
    case Some(NoRenderer) => Some(Unsupported)
  }

  /** The body of `with tab:` for one chart. */
  method RenderChart(c: Chart, cv: Coercers) returns (p: Option<Panel>)
    ensures p == PanelOf(c, cv)
  {
    var r := Dispatch(c);
    if r.None? {
      return None;
    }
    match r.value
    case BarRenderer =>
      var rows := Records(c.data);
      if rows.None? {
        return None;
      }
      var frame := new Frame(rows.value);
      var result := RenderBar(frame, cv.toNumber);
      p := Some(BarView(result, frame.Snapshot()));
    case LineRenderer =>
      var rows := Records(c.data);
      if rows.None? {
        return None;
      }
      var frame := new Frame(rows.value);
      var result := RenderLine(frame, cv);
      p := Some(LineView(result, frame.Snapshot()));
    case TableRenderer =>
      if RefusedTable(c.data) {
        return None;
      }
      p := Some(TableView(c.title, c.data));
    case NoRenderer =>
      p := Some(Unsupported);
  }

  /** The panels drawn, in tab order, and whether rendering stopped at a
      chart that raised. */
  function RenderAll(cs: seq<Chart>, cv: Coercers): (r: (seq<Panel>, bool))
    ensures |r.0| <= |cs| && (!r.1 ==> |r.0| == |cs|)
    ensures forall k :: 0 <= k < |r.0| ==> PanelOf(cs[k], cv) == Some(r.0[k])
  {
    if cs == [] then ([], false)
    else
      var (ps, stopped) := RenderAll(cs[..|cs| - 1], cv);
      if stopped then (ps, true)
      else match PanelOf(cs[|cs| - 1], cv)
        case None => (ps, true)
        case Some(p) => (ps + [p], false)
  }

  /** The loop that fills the tabs one chart after another. */
  method RenderCharts(cs: seq<Chart>, cv: Coercers) returns (panels: seq<Panel>, stopped: bool)
    ensures (panels, stopped) == RenderAll(cs, cv)
  {
    panels := [];
    for i := 0 to |cs|
      invariant RenderAll(cs[..i], cv) == (panels, false)
    {
      assert cs[..i + 1][..i] == cs[..i];
      var p := RenderChart(cs[i], cv);
      if p.None? {
        RenderAllStaysStopped(cs, i + 1, cv);
        stopped := true;
        return;
      }
      panels := panels + [p.value];
    }
    assert cs[..|cs|] == cs;
    stopped := false;
  }

  /** Once a chart raises, no later chart is drawn. */
  lemma {:induction false} RenderAllStaysStopped(cs: seq<Chart>, n: nat, cv: Coercers)
    requires n <= |cs| && RenderAll(cs[..n], cv).1
    ensures RenderAll(cs, cv) == RenderAll(cs[..n], cv)
  {
    if n < |cs| {
      var m := |cs| - 1;
      assert cs[..m][..n] == cs[..n];
      RenderAllStaysStopped(cs[..m], n, cv);
    } else {
      assert cs[..n] == cs;
    }
  }

  /** The panels are those of the charts before the first one that
      raises, each drawn from its own chart; without such a chart every
      chart gets its panel. */
  lemma {:induction false} RenderAllPrefix(cs: seq<Chart>, cv: Coercers)
    ensures |RenderAll(cs, cv).0| <= |cs|
    ensures forall k :: 0 <= k < |RenderAll(cs, cv).0| ==> PanelOf(cs[k], cv) == Some(RenderAll(cs, cv).0[k])
    ensures RenderAll(cs, cv).1 <==> exists k :: 0 <= k < |cs| && PanelOf(cs[k], cv).None?
    ensures RenderAll(cs, cv).1 ==> PanelOf(cs[|RenderAll(cs, cv).0|], cv).None?
    ensures !RenderAll(cs, cv).1 ==> |RenderAll(cs, cv).0| == |cs|
  {
    if cs != [] {
      var m := |cs| - 1;
      var p := cs[..m];
      RenderAllPrefix(p, cv);
      assert forall k :: 0 <= k < m ==> p[k] == cs[k];
      if !RenderAll(p, cv).1 {
        assert |RenderAll(p, cv).0| == m;
      }
    }
  }

  /** A chart without "type" raises; one whose "type" is not "bar",
      "line" or "table", or whose data is empty, gets the unsupported
      notice. */
  lemma PanelKinds(c: Chart, cv: Coercers)
    ensures c.kind.None? ==> PanelOf(c, cv).None?
    ensures c.kind.Some? && c.kind.value != JStr("bar") && c.kind.value != JStr("line") && c.kind.value != JStr("table")
      ==> PanelOf(c, cv) == Some(Unsupported)
    ensures c.kind.Some? && !Truthy(c.data) ==> PanelOf(c, cv) == Some(Unsupported)
    ensures c.kind == Some(JStr("bar")) && Truthy(c.data) ==> (PanelOf(c, cv).Some? <==> Records(c.data).Some?)
    ensures c.kind == Some(JStr("line")) && Truthy(c.data) ==> (PanelOf(c, cv).Some? <==> Records(c.data).Some?)
    ensures c.kind == Some(JStr("bar")) && Truthy(c.data) && Records(c.data).Some? ==>
      PanelOf(c, cv).Some? && PanelOf(c, cv).value.BarView?
      && PanelOf(c, cv).value.bar == BarChoice(ColumnsOf(Records(c.data).value))
    ensures c.kind == Some(JStr("line")) && Truthy(c.data) && Records(c.data).Some? ==>
      PanelOf(c, cv).Some? && PanelOf(c, cv).value.LineView?
      && PanelOf(c, cv).value.line == LineChoice(ColumnsOf(Records(c.data).value))
    ensures c.kind == Some(JStr("table")) && Truthy(c.data) ==>
      (PanelOf(c, cv).Some? <==> !RefusedTable(c.data))
      && (!RefusedTable(c.data) ==> PanelOf(c, cv) == Some(TableView(c.title, c.data)))
  {
  }

  /** What the analysis page ends up showing. */
  datatype Page =
    | ParseError(raw: string)
    | Crashed
    | NoVisualizations
    | Tabs(names: seq<Json>, panels: seq<Panel>, stopped: bool)

  /** The page for a model reply, given the JSON parser (`None` for a
      `JSONDecodeError`). */
  function PageOf(reply: string, parse: string -> Option<Json>, cv: Coercers): (r: Page)
    ensures r.ParseError? <==> parse(ExtractJson(reply)).None?
    ensures r.ParseError? ==> r.raw == reply
    ensures r.Crashed? <==>
      && parse(ExtractJson(reply)).Some?
      && (!parse(ExtractJson(reply)).value.JObj? || Candidates(parse(ExtractJson(reply)).value.fields).None?)
    ensures r.NoVisualizations? ==> parse(ExtractJson(reply)).value.JObj?
    ensures r.Tabs? ==> 0 < |r.names| && |r.panels| <= |r.names| && (!r.stopped ==> |r.panels| == |r.names|)
  {
    match parse(ExtractJson(reply))
    case None => ParseError(reply)
    case Some(doc) =>
      if !doc.JObj? then Crashed
      else match Candidates(doc.fields)
        case None => Crashed
        case Some(cs) =>
          if cs == [] then NoVisualizations
          else
            var (ps, stopped) := RenderAll(cs, cv);
            Tabs(Titles(cs), ps, stopped)
  }

  /** The analysis branch after the model has replied. */
  method AnalysisView(reply: string, parse: string -> Option<Json>, cv: Coercers) returns (page: Page)
    ensures page == PageOf(reply, parse, cv)
  {
    var text := ExtractJson(reply);
    var doc := parse(text);
    if doc.None? {
      return ParseError(reply);
    }
    if !doc.value.JObj? {
      return Crashed;
    }
    var tabs, names, raised := SelectCandidates(doc.value.fields);
    if raised {
      return Crashed;
    }
    if tabs == [] {
      return NoVisualizations;
    }
    var panels, stopped := RenderCharts(tabs, cv);
    page := Tabs(names, panels, stopped);
  }

  /** A reply whose extracted text does not parse shows the whole reply,
      not just the extracted part. */
  lemma ParseFailureShowsWholeReply(reply: string, parse: string -> Option<Json>, cv: Coercers)
    requires parse(ExtractJson(reply)).None?
    ensures PageOf(reply, parse, cv) == ParseError(reply)
  {
  }

  /** When the document is an object none of whose entries raises, the
      page says there is nothing to draw exactly when no entry is an
      object with both a "title" and a "data" key. */
  lemma NoVisualizationsIff(reply: string, parse: string -> Option<Json>, cv: Coercers, fields: seq<(string, Json)>)
    requires parse(ExtractJson(reply)) == Some(JObj(fields))
    requires forall i :: 0 <= i < |fields| ==> !Examine(fields[i].1).Raise?
    ensures PageOf(reply, parse, cv) == NoVisualizations <==> forall i :: 0 <= i < |fields| ==> !IsCandidate(fields[i].1)
  {
    NoCandidatesIff(fields);
    CandidatesRaiseIff(fields);
  }

  /** A page of tabs has one tab per accepted chart, named by its title,
      and a panel for each tab up to the first chart that raised. */
  lemma TabsShape(reply: string, parse: string -> Option<Json>, cv: Coercers)
    requires PageOf(reply, parse, cv).Tabs?
    ensures var page := PageOf(reply, parse, cv);
      var doc := parse(ExtractJson(reply)).value;
      && doc.JObj?
      && Candidates(doc.fields).Some?
      && var cs := Candidates(doc.fields).value;
      && |page.names| == |cs| > 0
      && (forall k :: 0 <= k < |cs| ==> page.names[k] == cs[k].title)
      && |page.panels| <= |cs|
      && (!page.stopped ==> |page.panels| == |cs|)
      && (forall k :: 0 <= k < |page.panels| ==> PanelOf(cs[k], cv) == Some(page.panels[k]))
  {
    var doc := parse(ExtractJson(reply)).value;
    RenderAllPrefix(Candidates(doc.fields).value, cv);
  }

  /** The single row of the blood-test chart. */
  function BloodRow(): Record {
    [("Test", JStr("Hb")), ("Value", JNum(14.2)), ("Normal Range Min", JNum(13.5)), ("Normal Range Max", JNum(17.5))]
  }

  /** `{"visualization1": {"title": "Blood", "type": "bar", "data": [row]}}` */
  function BloodDocument(): Json {
    JObj([("visualization1", JObj([("title", JStr("Blood")), ("type", JStr("bar")), ("data", JArr([JObj(BloodRow())]))]))])
  }

  function BloodChart(): Chart {
    Chart(JStr("Blood"), Some(JStr("bar")), JArr([JObj(BloodRow())]))
  }

  lemma BloodCandidates()
    ensures Candidates(BloodDocument().fields) == Some([BloodChart()])
  {
    var entries := BloodDocument().fields;
    var f := entries[0].1.fields;
    assert f[1..] == [("type", JStr("bar")), ("data", JArr([JObj(BloodRow())]))];
    assert f[1..][1..] == [("data", JArr([JObj(BloodRow())]))];
    assert Get(f, "title") == Some(JStr("Blood"));
    assert Get(f, "type") == Some(JStr("bar"));
    assert Get(f, "data") == Some(JArr([JObj(BloodRow())]));
    assert Examine(entries[0].1) == Take(BloodChart());
    assert entries[..0] == [];
    assert Candidates(entries[..0]) == Some([]);
    assert [] + [BloodChart()] == [BloodChart()];
  }

  lemma BloodColumns()
    ensures ColumnsOf([BloodRow()]) == ["Test", "Value", "Normal Range Min", "Normal Range Max"]
  {
    var rows := [BloodRow()];
    var cols := ["Test", "Value", "Normal Range Min", "Normal Range Max"];
    assert rows[..0] == [];
    BloodKeys();
    assert RowKeys(rows) == [] + cols;
    assert [] + cols == cols;
    BloodKeysDistinct();
    DedupOfDistinct(cols);
    assert ColumnsOf(rows) == Dedup(cols);
  }

  lemma BloodKeys()
    ensures Keys(BloodRow()) == ["Test", "Value", "Normal Range Min", "Normal Range Max"]
  {
  }

  lemma BloodKeysDistinct()
    ensures Distinct(["Test", "Value", "Normal Range Min", "Normal Range Max"])
  {
    assert "Normal Range Min"[14] != "Normal Range Max"[14];
  }

  lemma BloodPanel(cv: Coercers)
    ensures PanelOf(BloodChart(), cv).Some?
    ensures PanelOf(BloodChart(), cv).value.BarView?
    ensures PanelOf(BloodChart(), cv).value.bar
      == BarPlot("Test", "Value", [RefLine(LowerReference, "Normal Range Min"), RefLine(UpperReference, "Normal Range Max")])
  {
    var c := BloodChart();
    assert Dispatch(c) == Some(BarRenderer);
    var items := c.data.items;
    assert forall i :: 0 <= i < |items| ==> items[i].JObj?;
    assert seq(|items|, i requires 0 <= i < |items| => items[i].fields) == [BloodRow()];
    assert Records(c.data) == Some([BloodRow()]);
    BloodColumns();
    assert TableOf([BloodRow()]).columns == ColumnsOf([BloodRow()]);
    BloodTestPanel();
  }

  /** A fenced reply holding the blood-test document yields one tab,
      titled "Blood", with bars of "Value" labelled by "Test" and a lower
      and an upper reference line. */
  lemma BloodReply(body: string, parse: string -> Option<Json>, cv: Coercers)
    requires !Contains(body + Closer[..2], Closer)
    requires parse(Strip(body)) == Some(BloodDocument())
    ensures var page := PageOf(Opener + body + Closer, parse, cv);
      && page.Tabs?
      && page.names == [JStr("Blood")]
      && !page.stopped
      && |page.panels| == 1
      && page.panels[0].BarView?
      && page.panels[0].bar
        == BarPlot("Test", "Value", [RefLine(LowerReference, "Normal Range Min"), RefLine(UpperReference, "Normal Range Max")])
  {
    BloodExtract(body);
    BloodCandidates();
    BloodPanel(cv);
    OneTab(Opener + body + Closer, parse, cv, BloodDocument().fields, BloodChart());
  }

  lemma BloodExtract(body: string)
    requires !Contains(body + Closer[..2], Closer)
    ensures ExtractJson(Opener + body + Closer) == Strip(body)
  {
    assert !Contains("" + Opener[..6], Opener);
    FencedBlockInProse("", body, "");
    assert "" + Opener + body + Closer + "" == Opener + body + Closer;
  }

  /** A single chart that renders gives one panel. */
  lemma RenderOne(c: Chart, cv: Coercers)
    requires PanelOf(c, cv).Some?
    ensures RenderAll([c], cv) == ([PanelOf(c, cv).value], false)
  {
    assert [c][..0] == [];
    assert RenderAll([c][..0], cv) == ([], false);
    assert [] + [PanelOf(c, cv).value] == [PanelOf(c, cv).value];
  }

  /** A document whose entries yield one chart that renders gives one tab. */
  lemma OneTab(reply: string, parse: string -> Option<Json>, cv: Coercers, fields: seq<(string, Json)>, c: Chart)
    requires parse(ExtractJson(reply)) == Some(JObj(fields))
    requires Candidates(fields) == Some([c]) && PanelOf(c, cv).Some?
    ensures PageOf(reply, parse, cv) == Tabs([c.title], [PanelOf(c, cv).value], false)
  {
    RenderOne(c, cv);
    PageOfCharts(reply, parse, cv, fields, [c]);
    assert Titles([c]) == [c.title];
  }

  /** The page of a document whose entries yield the charts `cs`. */
  lemma PageOfCharts(reply: string, parse: string -> Option<Json>, cv: Coercers, fields: seq<(string, Json)>, cs: seq<Chart>)
    requires parse(ExtractJson(reply)) == Some(JObj(fields))
    requires Candidates(fields) == Some(cs) && cs != []
    ensures PageOf(reply, parse, cv) == Tabs(Titles(cs), RenderAll(cs, cv).0, RenderAll(cs, cv).1)
  {
  }
}
