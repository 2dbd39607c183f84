# Cutting-stock engine of csp-panel, in Dafny

csp-panel is a small web panel that plans how to cut demanded piece
lengths out of raw bars of a fixed length. Its engine, in `app.py`, has two
solvers and a run handler around them:

- `solve_first_fit_decreasing` is the greedy baseline. It expands every
  `(length, quantity)` row into single pieces and sorts them longest first.
  Each piece goes into the first open bar that still has room. When no bar
  has room, a new bar is opened. Bars with the same contents are then
  reported as one line with a count, a description such as
  `"3x 2000mm"`, the used length and the waste.
- `solve_cutting_stock_integer` is the exact solver. It generates cutting
  patterns by column generation, starting from the unit patterns, and then
  solves an integer program over them. It reports one line for each pattern
  cut at least once. The linear and integer programs are solved by PuLP and
  CBC. The model takes those solvers as an oracle, a record of functions
  whose answers are parameters of every property.
- The pattern description `"{count}x {length}mm"`, joined with `" + "`, is
  read back by the PDF report. The model keeps that reader and leaves out
  the drawing.
- The run handler reads the rows of the cutting-list editor. It keeps the
  rows whose length and quantity are both nonzero, sorts them by length,
  longest first, and stops with an error when none is left. It then runs
  both solvers on the bar length left after the cutting allowance and
  computes each result's waste.

Modules:

- `Seqs`, `Sorting`, `Counting` and `Text` model the Python built-ins the
  engine relies on:
  - `sum` and `[x] * n`;
  - the stable `list.sort(reverse=True)`;
  - `collections.Counter` read back in first-seen order;
  - `str.split`, `str.join`, `str.replace`, `int()` and `str()` of an int.
- `PatternText` holds the description format and its reader.
- `Plan` holds the demand rows and result lines.
- `FirstFitDecreasing` and `ColumnGeneration` are the two solvers.
- `RunHandler` is the run handler.
- `Scenarios` is one worked example.

The greedy solver is written as methods with loops, each proved equal to
a specification function. The properties are proved about those
functions.

## Model

| member | source | states |
|---|---|---|
| Seqs.Repeat | app.py:89 | `[x] * n` has n copies of x, and is empty when n <= 0 |
| Seqs.SumConcat | app.py:117 | the sum of a concatenation is the sum of the sums |
| Seqs.SumRepeat | app.py:89 | n copies of x add up to n * x |
| Seqs.SumPermutation | app.py:110-117 | reordering pieces does not change their sum |
| Sorting.SortDesc | app.py:91 | the sorted list is a permutation of the input, in descending order |
| Sorting.Insert | app.py:91 | insertion makes the list one longer and puts the element into it |
| Sorting.SortDescIsStable | app.py:424 | elements with the same key keep their relative order |
| Sorting.SortDescOfSorted | app.py:110 | sorting a list that is already descending leaves it unchanged |
| Sorting.InsertKeepsOrder | app.py:91 | inserting at the insertion point keeps a descending list descending |
| Sorting.InsertContents | app.py:91 | insertion adds exactly the one element |
| Sorting.WithKeyInsert | app.py:424 | insertion puts an element after every element with the same key |
| Counting.KeyIndex | app.py:111 | the index of the entry for x, with no earlier entry for x, or the number of entries |
| Counting.Bump | app.py:111 | counting one more element adds at most one entry, and the element has an entry afterwards |
| Counting.Count | app.py:111 | the Counter's keys are distinct; each holds its number of occurrences, at least 1; every element has an entry |
| Counting.BumpTallies | app.py:111 | counting one more element keeps every entry's count equal to its occurrences |
| Counting.CountWeightedSum | app.py:111-117 | summing count * f(key) over the Counter's items equals summing f over the list |
| Counting.CountWeightedBag | app.py:111-116 | the multiset form of the previous row |
| Counting.TimesCount | app.py:111 | x occurs c * m[x] times in m taken c times |
| Text.FindFrom | app.py:204 | the first occurrence of the separator at or after a position, or -1 when there is none |
| Text.Split | app.py:204 | `str.split` returns at least one part |
| Text.Replace | app.py:209 | `str.replace` changes nothing when the target does not occur |
| Text.JoinNotEmpty | app.py:79 | `Join`: joining parts whose first part is not empty gives a non-empty string |
| Text.SplitJoin | app.py:204 | splitting a joined list gives the parts back when no part can contain the separator |
| Text.NatToString | app.py:74 | a natural number is written as at least one decimal digit |
| Text.IntToString | app.py:74 | `str(n)` of an int is made of `-` and decimal digits |
| Text.ParseInt | app.py:208-209 | `int()` accepts a string made only of signs and decimal digits, and gives a negative value only after a leading `-` |
| Text.IntToStringRoundTrip | app.py:208-209 | `int(str(n)) == n` for every int |
| PatternText.FormatTermShape | app.py:116 | `FormatTerm`: a term `"{c}x {l}mm"` has at least four characters and no `+`, so it never holds the separator |
| PatternText.FormatPatternEmpty | app.py:121 | `FormatPattern`: a description is empty exactly when the pattern has no term |
| PatternText.ParseTerm | app.py:206-209 | a term is read only from a part that holds `x ` |
| PatternText.ParsePattern | app.py:203-205 | the report draws no more terms than the description has parts |
| PatternText.TermRoundTrip | app.py:206-209 | reading one term back gives its count and length |
| PatternText.KeepParsedFormatted | app.py:205-212 | when every part is a formatted term, the reader keeps every term, in order |
| PatternText.PatternRoundTrip | app.py:203-209 | reading a pattern description back gives exactly the terms it was written from, none for the empty string |
| PatternText.UsedLengthTermsOf | app.py:116-117 | the terms of a Counter cover the summed length of its items |
| PatternText.RepeatBag | app.py:89 | `[x] * n` is x taken n times |
| PatternText.CounterTermsDescribe | app.py:115-117 | the terms written for a bar's pieces describe exactly those pieces, and their used length is the pieces' sum |
| Plan.Expand | app.py:87-89 | every expanded piece has one of the demanded lengths |
| Plan.ExpandCount | app.py:87-89 | with no negative quantity, there are as many pieces as the quantities add up to |
| Plan.ExpandLength | app.py:440 | with no negative quantity, the pieces add up to the needed length `sum(l * q)` |
| FirstFitDecreasing.FirstFit | app.py:97-98 | the first bar with room for the piece, or none; every earlier bar lacks room |
| FirstFitDecreasing.Place | app.py:95-108 | placing a piece changes the bars in place or opens exactly one new bar |
| FirstFitDecreasing.PlaceIsFirstFit | app.py:95-108 | a new bar, holding just the piece, is opened exactly when no bar has room; otherwise only the earliest bar with room changes, and it receives the piece |
| FirstFitDecreasing.PlaceAccounting | app.py:97-108 | placing a piece keeps every bar non-empty with `remaining == raw_len - sum(items)`, adds exactly that piece, and keeps `remaining >= 0` when the piece fits |
| FirstFitDecreasing.PlaceIntoBarAccounted | app.py:98-100 | a piece put into an existing bar keeps that bar's free length accounted |
| FirstFitDecreasing.PlaceNewBar | app.py:104-108 | a new bar holds the one piece and is accounted |
| FirstFitDecreasing.FlattenUpdate | app.py:100 | replacing one bar's pieces changes the pieces of all bars by exactly that difference |
| FirstFitDecreasing.Pack | app.py:93-108 | after packing, every bar is non-empty with `remaining == raw_len - sum(items)`, every piece is placed exactly once, and there are no more bars than pieces |
| FirstFitDecreasing.PackFits | app.py:98-107 | no bar is overfilled when every piece fits a raw bar |
| FirstFitDecreasing.PackKeepsBarsDescending | app.py:91-110 | pieces packed longest first leave every bar's pieces in descending order |
| FirstFitDecreasing.FfdBins | app.py:86-108 | the greedy solver never opens more bars than there are pieces |
| FirstFitDecreasing.BarContentsSorted | app.py:110 | `BarContents`: one tuple per bar, holding that bar's pieces sorted longest first |
| FirstFitDecreasing.FfdDetails | app.py:110-124 | every reported line is cut at least once and splits the bar into used length and waste |
| FirstFitDecreasing.BarDetail | app.py:115-124 | a result line has the group's count, `used_len == sum(content)` and `used_len + waste == raw_len` |
| FirstFitDecreasing.BarDetailDescribes | app.py:115-121 | reading a line's description back gives exactly the bar's pieces and its used length |
| FirstFitDecreasing.DetailsOfCount | app.py:111-124 | the lines account for as many bars as the groups hold |
| FirstFitDecreasing.DetailsOfWaste | app.py:111-124 | the lines' waste is `raw_len` times the bars, less the bars' pieces |
| FirstFitDecreasing.DetailsOfPieces | app.py:111-124 | the lines describe the pieces of the grouped bars |
| FirstFitDecreasing.FfdContents | app.py:110 | the sorted bar contents are the bars' pieces as placed |
| FirstFitDecreasing.ReportTotals | app.py:110-126 | the lines' count is the number of bars, their pieces are all the pieces, and their waste is the bars' length less the pieces |
| FirstFitDecreasing.FfdReport | app.py:86-126 | the report counts every bar once and every demanded piece once; its waste is `len(bins) * raw_len - sum(pieces)` |
| FirstFitDecreasing.ReportWasteNonNegative | app.py:110-124 | no line has negative waste when no bar is overfilled |
| FirstFitDecreasing.PermutationFits | app.py:91 | sorting does not make a piece longer than the bar |
| FirstFitDecreasing.FfdWasteNonNegative | app.py:86-126 | no line has negative waste when every piece fits a raw bar |
| FirstFitDecreasing.ExpandDemand | app.py:87-89 | the loop builds every row's `[length] * quantity`, in row order |
| FirstFitDecreasing.PlacePiece | app.py:95-108 | the loop with `break` places the piece first-fit |
| FirstFitDecreasing.PackPieces | app.py:93-108 | the loop places the pieces in order, starting with no bars |
| FirstFitDecreasing.DescribeBars | app.py:110-124 | one line per distinct bar content, in first-seen order |
| FirstFitDecreasing.SolveFirstFitDecreasing | app.py:86-126 | returns `len(bins)` and the lines; the lines' counts add up to it; they describe every demanded piece exactly once; each has `count >= 1` and `used + waste == raw_len`; the total waste is `total * raw_len - sum(pieces)`; no waste is negative when every piece fits |
| ColumnGeneration.Unit | app.py:19-23 | a unit pattern has one piece of its row and nothing else |
| ColumnGeneration.NewPattern | app.py:52 | the proposed pattern has one entry per row |
| ColumnGeneration.GeneratePatterns | app.py:19-54 | the first n patterns are the unit patterns; every pattern has n entries; the patterns are distinct; there are at most n + 300; each later pattern is the pricing answer for the master LP over the patterns before it, appended only when that LP was optimal, the reduced cost negative and the answer new; with fewer than n + 300 patterns, the loop stopped because the LP was not optimal, no reduced cost was negative or the answer was already kept |
| ColumnGeneration.GeneratedIsUnique | app.py:19-54 | the solver's answers determine the pattern list: two lists that both meet the description above are equal |
| ColumnGeneration.PositiveIndices | app.py:72-73 | the indices of the positive entries, strictly increasing, and every positive entry among them |
| ColumnGeneration.PatternTermsArePositiveEntries | app.py:72-74 | `PatternTerms`: a pattern's terms are its positive entries with their lengths, in index order |
| ColumnGeneration.DescribePattern | app.py:70-75 | the loop builds the terms' descriptions and their used length |
| ColumnGeneration.UsedLengthIsDot | app.py:75 | with no negative entry, the used length is `sum(p[i] * lengths[i])` |
| ColumnGeneration.UnitDot | app.py:19-23 | a unit pattern takes up exactly its one piece |
| ColumnGeneration.GeneratedPatternFits | app.py:19-54 | when the pricing answers respect their constraints and every piece fits a bar, every pattern kept fits a raw bar |
| ColumnGeneration.PatternDetail | app.py:77-82 | a line has the solved count and `used_len + waste == L`; its description reads back as the pattern's terms |
| ColumnGeneration.PatternDetailWaste | app.py:75-81 | a pattern that fits a bar gives a line with the pattern's length as used length and no negative waste |
| ColumnGeneration.ResultLinesArePositiveValues | app.py:66-82 | `ResultLines`: the lines are those of the patterns whose value is positive, in pattern order |
| ColumnGeneration.DescribeSolution | app.py:66-82 | the loop builds the lines of the patterns with a positive value |
| ColumnGeneration.SolveCuttingStockInteger | app.py:14-84 | the patterns are exactly those column generation leaves, as above; the total is the integer program's objective; the lines are those of the positive values; with a consistent integer solution the counts add up to the total |
| ColumnGeneration.ResultLinesCount | app.py:58-69 | with no negative value, the lines' counts add up to the sum of the values |
| ColumnGeneration.ResultLinesWaste | app.py:66-82 | every line is cut at least once and splits the bar into used and waste; no waste is negative when every pattern fits |
| ColumnGeneration.PatternTermsPieces | app.py:72-74 | `PiecesOfLength`: the pieces of one length a pattern's description lists are exactly the pieces of that length the pattern cuts |
| ColumnGeneration.PiecesOfLengthAtLeast | app.py:73-74 | a pattern cuts at least its entry's number of pieces of that row's length |
| ColumnGeneration.LineCovers | app.py:77-79 | a line cut v times lists at least v times the pattern's entry for a row |
| ColumnGeneration.ResultLinesCover | app.py:56-82 | the lines describe at least as many pieces of a row's length as the values cut |
| ColumnGeneration.SolutionCoversDemand | app.py:56-82 | for a feasible integer solution, the lines describe at least every row's demand |
| RunHandler.KeptMembership | app.py:417-422 | `Kept`: a demand row is read exactly when some editor row holds it with a nonzero length and quantity |
| RunHandler.KeptNonZero | app.py:418 | every row read has a nonzero length and quantity |
| RunHandler.NormaliseDemand | app.py:416-428 | an error exactly when no row is read; otherwise the rows read, sorted by length |
| RunHandler.NormalisedDemand | app.py:424 | the demand list is sorted by length, longest first, a permutation of the rows read, and stable for equal lengths |
| RunHandler.RunExact | app.py:433-443 | the patterns are those column generation leaves; the total is the integer program's objective; the lines are those of its positive values; the waste is `total * eff_len - needed`; with a consistent integer solution the counts add up to the total |
| RunHandler.RunFirstFit | app.py:437-447 | the greedy result, and waste `total * eff_len - needed`, equal to the lines' waste when every quantity is positive |
| RunHandler.RunSolvers | app.py:430-447 | the report holds the effective length and the needed length `sum(l * q)`; the exact result as in the previous row; the greedy bar count and lines, and the waste `total * eff_len - needed`, equal to the lines' waste when every quantity is positive |
| RunHandler.RunCalculation | app.py:413-447 | an error with the empty-list message exactly when no row is read; otherwise the rows read, sorted by length, and on `raw_length - waste_limit` the needed length and both solvers' totals, lines and wastes as in the previous row |
| Scenarios.TwoFullBars | app.py:86-108 | 2000 mm x 3 and 1500 mm x 4 on 6000 mm bars fill exactly two bars |
| Scenarios.ScenarioReport | app.py:86-126 | that example reports two bars and no waste |

## Left out

- The Streamlit page: the data editor, its dialogs, the session state, the CSV and Excel import and export, and the inputs' `min_value` bounds. They are user interface and I/O. The run handler takes the editor rows, the raw length and the allowance as parameters.
- The drawing in `create_visual_pdf`. Only its reading of pattern descriptions is modelled. Its bare `except` is modelled by skipping a term that does not parse.
- The PuLP/CBC solves. An oracle answers with the master LP's status and shadow prices, the pricing problem's objective and variable values, and the integer program's objective and values. No property depends on the answers being optimal.
- Floating point:
  - The reduced-cost test is modelled on reals.
  - `int(varValue)` and `int(pulp.value(objective))` are integers supplied by the oracle, so a fractional value or a `None` objective is not represented.
- Timings and waste percentages. They are wall-clock values and floats.
- `int()` on cells: editor cells are modelled as optional integers, so floats and NaN are not represented. Leading or trailing whitespace and underscores that Python's `int()` accepts are not modelled in the description reader; the descriptions never contain them.
- `list.sort` is a stable insertion sort over values. The sorting happens in place on lists local to one call, so nobody can observe the difference. The bars, which are dicts in the source, are values in a sequence that the loops replace.
- ColumnGeneration.GeneratePatterns: a pattern is pinned to the pricing answer, but the contract does not say that answer is the best column. Its optimality is up to the solver.
- ColumnGeneration.SolveCuttingStockInteger: the lines' counts add up to the reported total only when the integer solution reports the sum of its values as its objective and has no negative value. The status of the final integer program is never checked, so nothing else ties them.
- RunHandler.RunFirstFit: the reported waste equals the lines' waste only when every quantity is positive. The run handler keeps rows with a negative quantity; such a row contributes no pieces but lowers the needed length.
- FirstFitDecreasing.FfdWasteNonNegative: the waste is non-negative only when every piece fits a raw bar. The code does not check that, and a longer piece gets a bar of its own with negative waste.
- The run handler does not check that `raw_length - waste_limit` is positive. Every property holds for any effective length, and the non-negativity properties are stated as implications.

## Behaviour of app.py that the model keeps

- `app.py` makes one unit pattern per demand row (app.py:20-23). Two rows of the same length give two unit patterns.
- Apart from an empty cutting list, which it stops with an error (app.py:426-428), `app.py` rejects no input. It does not check that the effective length is positive or that each piece fits a bar (app.py:430-437).
- `app.py` ends column generation without an error when the master LP is not optimal (app.py:38). It never checks the status of the final integer program (app.py:62-64).
- `app.py` keeps rows whose length and quantity are nonzero (app.py:418), so negative values are kept too.
