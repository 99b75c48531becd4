# WhiteCoatAI chart pipeline, modelled in Dafny

WhiteCoatAI is a Streamlit application that lets a user upload a medical
document and asks Gemini to turn it into chart data. This project models
the defensive core of `app.py`: how the application gets from the model's
free-text reply to the charts it draws. It also models the small pure
helpers of the report-history page.

- **Fence** (`fence.dfy`): the reply is searched with the regular
  expression ```` ```json\s*(.*?)\s*``` ```` (DOTALL). The group of the
  first match is the JSON text; with no match, the whole reply is used.
  The search is modelled by position arithmetic (`FenceMatch`), and the
  result is proved equal to what the regular expression's semantics
  select. That semantics is an explicit match predicate (`IsMatch`) with
  a leftmost opener, greedy whitespace and a lazy group.
- **Json** (`json.dfy`): the parsed document as a value, with key lookup,
  key test and Python truthiness.
- **Analysis** (`analysis.dfy`): choosing the candidate entries (an
  object with both a "title" and a "data" key) and building the tab list.
  Each chart is dispatched on its "type" (`bar`, `line`, `table`, anything
  else). Charts are rendered one after another, and rendering stops at
  the first chart that raises. The page ends in one of four outcomes:
  parse error, crash, "no visualizations", or tabs.
- **Frames** (`frames.dfy`): `pd.DataFrame(rows)` for a list of records is
  a class `Frame`. Its columns are the field names in order of first
  appearance, and a row missing a field holds NaN. Its methods coerce
  columns in place to numbers or dates; unparsable text becomes NaN.
- **BarChart** (`bar.dfy`): bar charts. It picks which columns are
  coerced, the label column, the value column and the reference lines,
  and produces the error message that lists every column.
- **LineChart** (`line.dfy`): line charts. It picks the date column,
  converts it, coerces all other columns, and chooses between the
  date-based plot and the first-column fallback.
- **History** (`history.dfy`): the history page's helpers: the
  300-character summary preview, the grid of cards in rows of three, and
  the per-extension report counts for the statistics pie chart.
- **Seqs**, **Text**, **Wrappers**: generic support. Seqs provides
  filter, first-match, deduplication in first-appearance order and
  index-of. Text provides the Python string operations the core uses.
  Wrappers defines `Option`.

The JSON parser and pandas' number and date parsers are parameters of the
model (`parse`, `Coercers`). Every property proved therefore holds for any
parser.

## Behaviour worth knowing

- **Raw data shown:** the frame written under a bar or line chart is the
  frame after its columns were coerced in place, not the data as the
  reply gave it. `Analysis.PanelOf` carries that coerced frame.
- **Candidate test:** an entry is accepted as soon as it has both a
  "title" and a "data" key (`Analysis.IsCandidate`). The title may be
  any value, and the data may be empty or of any shape. Empty or falsy
  data is caught later, at dispatch.
- **Unknown chart types:** a chart whose "type" is not "bar", "line" or
  "table", or whose data is empty, still gets its tab. The tab shows
  the notice "Unsupported visualization type or empty data"
  (`Analysis.PanelKinds`).
- **Missing "type":** an accepted entry without a "type" raises
  `KeyError` while its tab is rendered. The generic error then ends the
  page after the earlier tabs were drawn (`Analysis.RenderAllPrefix`).
- **Label named "":** the bar chart fails when the chosen label column's
  name is the empty string, because the code tests the column names for
  truthiness (`BarChart.BarFailsIff`).

## Model

| member | source | states |
|---|---|---|
| Fence.FenceMatch | app.py:234 | the selected positions form a match of the expression: opener, whitespace run, group, whitespace run, closer |
| Fence.ExtractJson | app.py:234-239 | when the expression matches, the JSON text is the text between the selected opener and its closer with surrounding whitespace stripped; otherwise it is the whole reply |
| Fence.NoMatchWholeReply | app.py:234-239 | there is no selection exactly when no match of the expression exists, and then the whole reply is parsed |
| Fence.SelectedIsLeftmost | app.py:234 | the selected opener is the leftmost one at which the expression matches |
| Fence.SelectedLeadingSpaceIsGreedy | app.py:234 | for that opener, the first whitespace run is the longest one that still matches |
| Fence.SelectedGroupIsLazy | app.py:234 | for that run, the group is the shortest one that still matches |
| Fence.SelectedTrailingSpaceIsGreedy | app.py:234 | for that group, the second whitespace run is the longest one that still matches |
| Fence.FencedBlockInProse | app.py:234-236 | a reply made of prose, a fenced block and more prose yields the block's interior, stripped, when the prose before it opens no block and the interior holds no closer |
| Fence.NoOpenerWholeReply | app.py:237-239 | a reply without the opener "```json" is parsed whole |
| Frames.TableOf | app.py:259 | the frame built from records has distinct columns, and its data holds exactly those columns |
| Frames.TableOfShape | app.py:259 | a name is a column exactly when some row has that field; columns are ordered by first appearance across the rows; every column is as long as the list of rows, and holds each row's value of that field, or NaN where the row lacks it |
| Frames.RowKeysAreFields | app.py:259 | a name occurs among the rows' field names exactly when some row has that field |
| Frames.Frame.constructor | app.py:259 | the new frame is well formed and equals the frame built from the records |
| Frames.ToNumber | app.py:261-267 | a text cell becomes its parsed number, or NaN when it does not parse; a cell that was not text is kept as it was |
| Frames.ToDate | app.py:326 | a readable text or number cell becomes its parsed instant, an unreadable one becomes NaN; any other cell is kept as it was |
| Frames.DateCoercedCells | app.py:322-327 | converting the date column keeps the frame's columns and leaves the others unchanged; a date column without text is unchanged; in one with text each readable text or number becomes its instant, each unreadable one NaN, and every other cell is kept |
| Frames.CoercedCells | app.py:261-267 | coercion keeps the frame's columns; in a selected column each text cell becomes its parsed number or NaN and every other cell is kept; unselected columns are unchanged |
| Frames.CoercionIdempotent | app.py:267 | coerced columns hold no text, and coercing them again changes nothing |
| Frames.Frame.CoerceWhere | app.py:263-268 | the columns coerced are those passing the test, in column order; exactly those columns are replaced by their numeric conversion, the rest are unchanged, and the frame stays well formed |
| Frames.Frame.ConvertFirstWhere | app.py:320-327 | the date column found is the first one passing the test; only that column changes, converted to dates when it holds text |
| BarChart.CoercedIffNumericName | app.py:264-268 | a bar-chart column is coerced exactly when it is "Value", mentions "value", or ends in "Min", "Max" or "Target" |
| BarChart.FindLabelColumn | app.py:271-279 | the loop with its break returns the first column not coerced, else the first column, else none |
| BarChart.LabelColumnChoice | app.py:270-279 | there is a label column exactly when the frame has a column; it is the first column failing the numeric test when one exists, else the first column |
| BarChart.ValueColumnChoice | app.py:281-284 | the value column is always a coerced column with a non-empty name; one exists exactly when some column passes the numeric test; "Value" wins when present; otherwise the first column mentioning "value" wins; when none mentions it, the first coerced column is taken |
| BarChart.LabelColumn | app.py:270-279 | a label exists exactly when the frame has a column; it is a frame column, and it is not coerced whenever some column is not |
| BarChart.ValueColumn | app.py:281-284 | the value column is coerced or mentions "value"; there is none exactly when no column is "Value" or mentions "value" and none is coerced |
| BarChart.ReferenceLines | app.py:291-306 | some reference line is drawn exactly when some column names a minimum, a maximum or a target; every line reads a frame column |
| BarChart.BarChoice | app.py:270-310 | a plot's label and value are frame columns, the label's name is not empty and the value passes the numeric test; its reference lines read frame columns; an error message starts with its fixed text |
| BarChart.BarFailsIff | app.py:286-310 | the bar chart shows its error exactly when no column passes the numeric test, or when the label column chosen is named "" |
| BarChart.BarErrorListsColumns | app.py:310 | the error message starts with its fixed text and names every column of the frame |
| BarChart.ReferenceLinesColumns | app.py:291-306 | at most two reference lines are drawn; each reads a frame column, the first one that qualifies for its kind |
| BarChart.ReferenceLinesKinds | app.py:291-306 | a lower line exactly when some column mentions "min" or "low"; an upper line exactly when some column mentions "max" or "high"; a target line exactly when some column mentions "target" or "reference" and neither of the others is drawn |
| BarChart.ReferenceLinesCases | app.py:291-306 | the five possible lists of reference lines, one for each combination of lower, upper and target columns found |
| BarChart.RenderBar | app.py:258-314 | the bar branch coerces exactly the numeric-named columns of the frame in place and returns the chart chosen for its columns |
| BarChart.BloodTestPanel | app.py:177-178 | the example blood-test rows give bars of "Value" labelled by "Test", with lower and upper lines from the normal-range columns |
| BarChart.BloodTestReferenceLines | app.py:291-300 | for the blood-test columns, the lower line reads "Normal Range Min" and the upper line reads "Normal Range Max" |
| BarChart.CholesterolPanel | app.py:193-195 | the example cholesterol rows give bars of "Value" labelled by "Type" |
| BarChart.CholesterolReferenceLines | app.py:303-306 | for the cholesterol columns the only line is a target line from "Target", since no column mentions a minimum or a maximum |
| LineChart.RenderLine | app.py:316-355 | the line branch converts the first date-named column, coerces every other column to numbers in place, and returns the chart chosen for its columns |
| LineChart.DateFallbackNeverFires | app.py:329-333 | whenever a column is named "Date", the loop has already found a date column, so the fallback to "Date" never runs |
| LineChart.LineFailsIff | app.py:342-351 | on distinct columns, the line chart shows its error exactly when the frame has fewer than two columns |
| LineChart.LineWithDate | app.py:342-343 | with a date column, that column is plotted against every other column in frame order |
| LineChart.LineWithoutDate | app.py:345-348 | without a date column, the first column is plotted against the rest, and every column was coerced |
| LineChart.LineFrameHoldsNoText | app.py:319-340 | after the line branch no column of the frame holds text |
| LineChart.LineChoice | app.py:342-351 | a plot's x column and y columns are frame columns, with at least one y column; an error message starts with its fixed text |
| LineChart.LineErrorListsColumns | app.py:351 | the error message starts with its fixed text and names every column of the frame |
| LineChart.LineCoerced | app.py:320-340 | converting the line frame keeps exactly its columns, each as long as before |
| LineChart.DateColumnHoldsDates | app.py:320-327 | a date column holding text is converted whole: afterwards none of its cells is text or a number |
| LineChart.VitalSignsPanel | app.py:185-186 | the example vital-signs rows plot "Date" against the three measurements |
| Analysis.Examine | app.py:248-249 | an entry is taken exactly when it is an object with a "title" and a "data" key, as the chart its fields give; an object never raises; a number, boolean or null raises |
| Analysis.Candidates | app.py:248-251 | the selection never yields more charts than the document has entries |
| Analysis.SelectCandidates | app.py:248-251 | the loop raises exactly when the modelled selection raises; otherwise it returns the selected charts and their titles in order |
| Analysis.CandidatesStayRaised | app.py:248-251 | once an entry raises, the whole selection raises |
| Analysis.CandidatesRaiseIff | app.py:248-249 | the selection raises exactly when examining some entry raises |
| Analysis.CandidatesAreTitledObjects | app.py:248-251 | when nothing raises, the charts are exactly the entries that are objects with a "title" and a "data" key, in document order |
| Analysis.NoCandidatesIff | app.py:248-253 | when nothing raises, no chart is accepted exactly when no entry is such an object |
| Analysis.Dispatch | app.py:258-363 | no "type" raises; the bar, line and table renderers are chosen exactly when the type names them and the data is truthy |
| Analysis.PanelOf | app.py:258-364 | a tab raises exactly when it has no "type", its bar or line data is not a list of objects, or its table data is refused; a bar or line panel's chart is the one chosen for the columns of its records, and its frame holds exactly those columns, with the cells as the bar or line coercion left them; a table panel shows the chart's title and data; the notice is shown exactly for the other types and for empty data |
| Analysis.PanelKinds | app.py:258-364 | no "type" raises; an unknown type or empty data gives the unsupported notice; a bar or line chart renders exactly when its data is a list of objects, and then as the bar or line chart chosen for the records' columns; a table renders exactly when its data is not refused, and then shows its title and data |
| Analysis.RenderAll | app.py:256-364 | there are never more panels than charts, one per chart when nothing stopped, each the panel of its own chart |
| Analysis.RenderChart | app.py:257-364 | one tab's body returns the panel of the modelled dispatch, building and coercing its frame in place |
| Analysis.RenderCharts | app.py:256-364 | the tab loop returns the panels of the modelled render sequence and whether it stopped |
| Analysis.RenderAllStaysStopped | app.py:256-258 | once a chart raises, no later chart is drawn |
| Analysis.RenderAllPrefix | app.py:256-364 | the panels are those of the charts before the first one that raises, each from its own chart; the rendering stops exactly when some chart raises; without such a chart every chart has its panel |
| Analysis.PageOf | app.py:234-374 | the page is a parse error exactly when the extracted text does not parse, and then it shows the whole reply; it shows the generic error exactly when the parsed document is not an object or examining an entry raises; "no visualizations" comes only from an object document; a page of tabs has at least one tab, at most one panel per tab, and one per tab when nothing stopped |
| Analysis.AnalysisView | app.py:234-370 | the analysis branch returns the page of the modelled pipeline: extraction, parsing, candidate selection and rendering |
| Analysis.ParseFailureShowsWholeReply | app.py:368-370 | when the extracted text does not parse, the page shows the whole reply |
| Analysis.NoVisualizationsIff | app.py:365-366 | for an object document whose entries do not raise, the page reports no visualizations exactly when no entry is an object with "title" and "data" |
| Analysis.TabsShape | app.py:253-257 | a page of tabs has one tab per accepted chart, named by its title, and a panel for each chart up to the first that raised |
| Analysis.BloodReply | app.py:234-314 | a fenced reply holding a one-row bar document titled "Blood", whose row has the columns of the prompt's blood-test example, gives one tab "Blood", drawn as bars of "Value" by "Test" with lower and upper lines |
| History.Preview | app.py:468 | a summary of at most 300 characters is shown whole; a longer one is cut to its first 300 and gets "..." |
| History.PreviewIsStable | app.py:468 | a preview is at most 303 characters long, and previewing it again changes nothing |
| History.GridRows | app.py:543 | a grid of cards has one row per three cards, the last row counting a partial one |
| History.GridRowsStep | app.py:543 | the first row holds the first three cards, and the rest of the grid is the grid of the remaining cards |
| History.GridRowsFlatten | app.py:543 | reading the grid row by row gives back every card once, in list order |
| History.GridRowsSizes | app.py:543 | every row holds one to three cards, and only the last row may hold fewer than three |
| History.AfterLastDot | app.py:575 | the suffix after the last dot holds no dot and, when the name has a dot, is preceded by one |
| History.ExtensionOf | app.py:575 | a name without a dot counts as "unknown"; the extension of a name with a dot is shorter than the name |
| History.ExtensionOfSpec | app.py:575 | a name without a dot counts as "unknown"; otherwise as the lowercased text after its last dot, which holds no dot |
| History.CountExtensions | app.py:573-576 | the counting loop yields the distinct extensions in order of first appearance, each with its number of reports; the counts add up to the number of reports |

## Left out

- The Streamlit user interface is not modelled: pages, tabs, buttons, session state, the file upload, the chat page, and all drawing with `px.bar`/`px.line`/`st.write`. Only what each tab would show is modelled, as a value.
- The Gemini calls are not modelled; the model's reply is an input string.
- `json.loads` is a foreign parser and is a parameter of the model. Duplicate keys are therefore not modelled; key lookup takes the first field with the key.
- pandas' number and date syntaxes are the abstract parameters `Coercers`. Dates are whole numbers.
- Frames.Frame.constructor: only a list of objects is modelled. pandas accepts other shapes for bar and line data, such as a dict of columns; the model treats them as raising.
- Analysis.RefusedTable: the ways `pd.DataFrame` can fail on table data are approximated. A scalar fails, and so does an object whose values are all scalars; every other list or object is shown as given.
- Frames.ToDate: booleans and nested values in a date column are kept unchanged (they are the cell `Other`); what `pd.to_datetime` makes of them is not modelled.
- Analysis.Candidates: its contract only bounds the number of charts; which charts are selected is stated by `Analysis.CandidatesAreTitledObjects`.
- Frames.CellOf: booleans and nested lists or objects become the cell `Other`, and coercion keeps them unchanged.
- Frames.HasText: pandas' `object` dtype is modelled as "the column holds a text cell".
- Text.Lower: only the ASCII letters are lowercased. Python's full Unicode case mapping is not modelled.
- History.CountExtensions: the order of the pie slices follows the dictionary's insertion order (first appearance); plotting itself is left out.
- The monthly grouping of uploads (app.py:590-596) and the "Most Discussed Documents" chart, the ten reports with the most chat messages (app.py:617), are not modelled.
- The document-length metric (app.py:560-561) is not modelled.
- `db.py` (MongoDB storage) is not part of this model.
- Names the page uses without a definition in reach are not part of this model: `search_reports` and `delete_report` are used but never imported or defined; `get_report_stats` is imported from `db.py`, which does not define it; and the variable `client` is defined in `db.py` but never imported by `app.py`.
- BarChart.ReferenceLines: the lines are listed in the order the code adds them; line colours, dashes and legend names are left out.
- Analysis.Titles: titles are passed to `st.tabs` as the JSON values they are; any failure `st.tabs` may raise on titles that are not strings is not modelled.
- Exceptions are modelled as outcomes, not as messages: the text of a parse error or of the generic error is not modelled.
