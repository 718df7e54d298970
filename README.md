# VRPTW genetic-algorithm experiments: input reading, run grid and result selection

The repository solves the vehicle routing problem with time windows (VRPTW)
with a genetic algorithm. It runs it on the Solomon benchmark instances
`c101`, `r101` and `rc101`, then plots the results. This project models the
parts around the solver, in Dafny:

- **Reading a Solomon instance** (`main.py`, `load_data`). The vehicle
  capacity is taken from the line after the first `CAPACITY` line. The
  customers are the rows after a `CUST NO.` header line. The model works on
  the file's lines (`seq<string>`). It keeps Python's exceptions as the
  `Err` side of a `Result`: `IndexError` when `CAPACITY` is on the last
  line, and `ValueError` when `int()` rejects a token.
- **The experiment grid** (`runner.py`, `main`). Every experiment of
  `EXPERIMENTS_GA` (`test_kits.py`) is paired with every dataset, and each
  job is copied five times with replicate ids 0 to 4. That gives 13
  experiments, 39 jobs and 195 runs.
- **Launching one run** (`runner.py`, `launch`). This is the result-file
  name `output/results_<ds>_pop<P>_gen<G>_tour<T>_mut<M>_id<i>.json` and
  the command vector passed to `main.py`.
- **The plotting helpers** (`plot.py`):
  - `load_solomon_file`, the same customer scan as above, keeping the
    coordinates;
  - the baseline result-file filter;
  - the dataset name taken back from a result-file name;
  - the depot-closed route `[0] + route + [0]`.

Python's string operations are modelled in `pystr.dfy`:

- `str.isspace`, `strip` and `split()`;
- `split(sep)` and `'sep'.join`;
- `in` on strings;
- `int()` on a token and `str()` on an integer;
- `os.path.basename` and the root of `os.path.splitext`.

Each of these comes with the lemmas the model needs: `split` undoes
`join`, `int` undoes `str`, and `str` is injective.

Modules: `Wrappers` (Option and Result), `PyStr`, `Solomon` (`main.py`),
`Runner` (`runner.py` and `test_kits.py`) and `Plot` (`plot.py`).

The round-trip lemmas for the customer table use a writer that the
repository does not have: `ColumnTokens` and `FormatRecord` render a
customer as one row of seven integer columns separated by single spaces.
They exist only to state that `load_data` reads such a table back.

The loops of `load_data`, `runner.main` and `load_solomon_file` are
methods. Their `ensures` tie the result to a specification function:
`ScanPrefix` and `CapacityOf` for the reader, and `BaseJobs` and
`Replicas` for the grid. The lemmas state what those functions mean line
by line and index by index.

## Model

| member | source | states |
|---|---|---|
| Solomon.CapacityAfter | main.py:13-19 | What happens on finding `CAPACITY` on line h. With no line h+1, `IndexError`. Otherwise the next line is stripped and split: fewer than two tokens leave the capacity at 0, and otherwise the second token is read with `int()` (`ValueError` when it is rejected). |
| Solomon.CapacityOf | main.py:12-19 | The capacity `load_data` reports: 0 when no line holds `CAPACITY`, otherwise `CapacityAfter` of the first such line. |
| Solomon.ParseRecord | main.py:35-43 | A customer from the first seven tokens of a row, `int()` on each, in the field order id, x, y, demand, ready time, due date, service time. The first token rejected is the `ValueError`. |
| Solomon.Step | main.py:24-44 | One iteration of the customer loop. A blank line changes nothing. A `CUST NO.` line turns parsing on. After the header, a line of at least seven tokens appends its customer or raises. Any other line changes nothing. |
| Solomon.ScanPrefix | main.py:22-44 | The customer loop after the first n lines, starting with parsing off and no customers. The first exception ends it. |
| Solomon.LoadDataSpec | main.py:4-47 | What `load_data` returns: the capacity scan runs first, then the customer scan, and the first exception of either is raised. |
| Solomon.ReadCapacity | main.py:12-19 | The capacity loop returns `CapacityOf(lines)`. That is 0 when no line contains `CAPACITY` or when the next line has fewer than two tokens. Otherwise it is the second token of the next line read by `int()`, or an error when there is no next line or the token is not an integer. |
| Solomon.FirstContaining | main.py:12-13 | Returns the first line at or after `from` containing the marker, with no earlier line containing it, or none when no line does. |
| Solomon.CapacityFromFirstMarker | main.py:12-19 | The capacity is decided by the first `CAPACITY` line only (the loop breaks there). |
| Solomon.CapacityIgnoresLaterLines | main.py:19 | Once a `CAPACITY` line with a following line exists, appending any lines leaves the capacity result unchanged. |
| Solomon.ReadClients | main.py:22-44 | The customer loop returns the customers of `ScanPrefix` over all the lines, or its error. |
| Solomon.LoadData | main.py:4-47 | `load_data` equals `LoadDataSpec`: the capacity scan first, then the customer scan, with the first error raised. |
| Solomon.ParseInts | main.py:36-42 | On success there is one value per token. |
| Solomon.ParseIntsFacts | main.py:36-42 | On success each value is `int()` of its token. On failure the error names the first token `int()` rejects, and all tokens before it parse. |
| Solomon.ParseRecordFields | main.py:34-43 | A row of at least seven tokens gives a customer exactly when its first seven tokens all parse. The fields are id, x, y, demand, ready time, due date and service time, in that order. Tokens after the seventh are ignored. |
| Solomon.ParseIntsAllValid | main.py:36-42 | When every token parses, the record is those values. |
| Solomon.ParseFormattedRecord | main.py:33-43 | A customer written as a row of seven integer columns splits into seven tokens and parses back to the same customer. |
| Solomon.ScanErrorPersists | main.py:36-42 | A raised `ValueError` ends the scan: later lines do not change the result. |
| Solomon.DataLines | main.py:24-34 | Lists exactly the lines that yield a customer, in increasing order: after a `CUST NO.` line, not blank, not a header, at least seven tokens. |
| Solomon.RecordsAt | main.py:35-44 | Reads one record per listed line. |
| Solomon.RecordsAtFacts | main.py:35-44 | Each record read is its line's parsed row. When every listed line's row parses, the reading succeeds. |
| Solomon.HeaderLineNotBlank | main.py:24-28 | A `CUST NO.` line is never blank, so the blank check never hides a header. |
| Solomon.HeaderBeforeStep | main.py:27-28 | The parsing flag after line n-1 is the flag before it, or whether that line is a header. |
| Solomon.DataLinesStep | main.py:32-44 | One more line adds its index exactly when it is a data line. |
| Solomon.RecordsAtSnoc | main.py:44 | One more data line appends its record, or yields the first error. |
| Solomon.StepReadsDataLine | main.py:23-44 | One iteration of the loop keeps the scanner equal to the records of the data lines seen so far, with the flag saying whether a header has been seen. |
| Solomon.ScanReadsDataLines | main.py:22-44 | After any number of lines, the scanner's customers are the records of the data lines among them, in file order. Its flag says whether a `CUST NO.` line has appeared. |
| Solomon.LoadedClientsAreDataLines | main.py:22-47 | On success `load_data` returns one customer per data line, in file order, each the parsed row of its line. |
| Solomon.BadDataLineFails | main.py:34-43 | A data line with a non-integer among its first seven tokens makes `load_data` raise rather than skip the line. |
| Solomon.SkippedLines | main.py:24-34 | Blank lines, header lines and every line up to the first header never yield a customer. |
| Solomon.FormattedRecordIsDataRow | main.py:24-43 | A formatted customer row is not blank, is not a header, has seven tokens and parses back to the customer. |
| Solomon.FormattedRecordReadsAs | main.py:32-44 | A formatted customer row is read as that customer. |
| Solomon.FormattedRowsReadAs | main.py:23-44 | Every row of a formatted table is read as its customer. |
| Solomon.ScanThroughHeader | main.py:23-29 | Lines before the first `CUST NO.` line add no customer, and the header turns parsing on. |
| Solomon.ScanPreamble | main.py:23-32 | Before any header, the scan holds no customer and parsing is off. |
| Solomon.ScanRows | main.py:23-44 | After the header, rows that each read as a customer are appended in order. |
| Solomon.ReadTable | main.py:22-44 | When no earlier line contains `CUST NO.`, the first `CUST NO.` line, followed directly by rows that read as the customers `cs` up to the end of the file, yields exactly `cs`. |
| Solomon.ReadWellFormedTable | main.py:22-44 | When no earlier line contains `CUST NO.`, the first `CUST NO.` line, followed directly by the formatted rows of the customers `cs` up to the end of the file, reads back as exactly `cs`. The earlier lines may hold anything else. |
| Solomon.ReadsAsAppends | main.py:32-44 | After the header, a row that reads as a customer appends it. |
| Runner.JobOf | runner.py:35-41 | The job dictionary for one experiment and one dataset file: the file, the experiment's four parameters, and no `id` yet. |
| Runner.JobsFor | runner.py:34-42 | The inner loop over the datasets for one experiment: one job per dataset, in dataset order. |
| Runner.BaseJobs | runner.py:33-42 | The `jobs` list: the jobs of each experiment in turn, experiment-major and dataset-minor. |
| Runner.CopiesOf | runner.py:46-49 | The inner loop over `range(n)` for one job: copies of the job with `id` 0 to n-1, in that order. |
| Runner.Replicas | runner.py:44-49 | The `all_jobs` list: each job's five copies in turn, in job order. |
| Runner.ExpandJobs | runner.py:28-49 | The two loops of `main` build `BaseJobs(exps, datasets)`, then `Replicas` of them. |
| Runner.JobsForAt | runner.py:34-42 | One experiment gives one job per dataset, in dataset order, each carrying the experiment's parameters. |
| Runner.BaseJobsCount | runner.py:33-42 | There are as many jobs as experiments times datasets. |
| Runner.BaseJobAt | runner.py:33-42 | With n datasets, job `i*n+j` is experiment `i` on dataset `j`. |
| Runner.BaseJobsPrefixOf | runner.py:33-42 | The jobs of the first m experiments are a prefix of all jobs. |
| Runner.CopiesOfAt | runner.py:45-49 | Replicating a job gives n copies, copy r having id r and otherwise unchanged. |
| Runner.ReplicasAt | runner.py:44-49 | There are five runs per job. Run `5*k+r` is job k with id r. |
| Runner.GridSize | test_kits.py:7-28 | The grid has 13 experiments, 39 jobs and 195 runs. |
| Runner.ResultFields | runner.py:9 | The seven `_`-separated fields of the result-file name: `results`, the dataset name, then `pop`, `gen`, `tour` and `mut` followed by the rendered parameter, then `id` followed by the replicate number and `.json`. |
| Runner.OutputFileFString | runner.py:9 | `OutputFile` is exactly the string the f-string builds: `output/results_`, the dataset name, `_pop` and the population size, `_gen` and the generations, `_tour` and the tournament size, `_mut` and the mutation rate, `_id` and the replicate number, then `.json`. |
| Runner.DatasetNameOf | runner.py:8 | The dataset name of `dir/stem.ext` is `stem`. |
| Runner.DatasetNames | runner.py:31 | The three datasets are named `c101`, `r101` and `rc101`. |
| Runner.DatasetNameTxt | runner.py:8 | The dataset name of `data/<stem>.txt` is the stem. |
| Runner.DatasetName | runner.py:8 | `os.path.splitext(os.path.basename(file))[0]`, also used at plot.py:50 and plot.py:108. |
| Runner.OutputFile | runner.py:9 | The result file of run `id` of a job: `output/` followed by the seven result fields joined by `_`. `OutputFileFString` proves it equal to the f-string. |
| Runner.Command | runner.py:11-19 | The command vector: `python`, `main.py`, the dataset file, the result file, and `str()` of population, generations, tournament size and mutation rate. |
| Runner.PlanLaunch | runner.py:7-19 | A run without `id` raises `KeyError` (`None`), and every run with one is launched. The command has eight arguments: `python main.py`, the job's dataset file, the result file, then population, generations and tournament size, each reading back through `int()` as the job's value, then the mutation rate. The result file lies under `output/`. When the rate holds no `/`, it is `output/` followed by its own base name, so it lands directly in the `output` directory that `plot.py` lists. When neither the dataset name nor the mutation rate holds `_`, and the rate holds no `/`, the result file's base name splits on `_` back into the seven fields naming the run: `results`, dataset, `pop`, `gen`, `tour`, `mut` and `id` tags. |
| Runner.CommandArguments | runner.py:11-19 | The command is `python main.py <file> <output>` followed by the population, generations and tournament size, each reading back as the job's integer, and then the mutation rate. |
| Plot.LoadSolomonFile | plot.py:10-37 | `load_solomon_file` returns the (x, y) points of the customers of the same scan as `load_data`, or its error. |
| Plot.LoadSolomonAgreesWithLoadData | plot.py:15-37 | Whenever `load_data` succeeds, `load_solomon_file` succeeds on the same lines with the coordinates of the same customers. |
| Plot.Points | plot.py:36 | `[(c.x, c.y) for c in clients]`. |
| Plot.IsBaselineFile | plot.py:52-59 | The comprehension's condition as written: the dataset name and the four tags `pop<P>`, `gen<G>`, `tour<T>` and `mut<M>` each occur somewhere in the path. |
| Plot.BaselineFiles | plot.py:111-118 | `baseline_files`: the listed files passing that condition, in listing order. |
| Plot.IsBaselineRun | plot.py:111-118 | Corrected condition: the base name splits on `_` into exactly seven fields. The first is `results`, the second is the dataset name, and the next four are exactly the requested tags. |
| Plot.PointsAt | plot.py:36 | There is one point per customer: point i is customer i's (x, y). |
| Plot.Select | plot.py:52-59 | The comprehension `[f for f in files if keep(f)]`: a file is kept exactly when it is listed and passes the condition. |
| Plot.SelectAppend | plot.py:52-59 | Filtering distributes over concatenation, so the order of the listing is kept. |
| Plot.BaselineFilesMembers | plot.py:52-62 | A file is a baseline file exactly when it is listed and contains the dataset name and the four parameter tags. The list is empty (the "No baseline files" branch) exactly when no listed file passes. |
| Plot.OutputFileContainsField | runner.py:9 | Every field of the result name occurs in the result-file path. |
| Plot.OutputFileIsBaselineFile | plot.py:52-59 | Every run's own result file passes the filter for its own dataset and parameters. |
| Plot.ResultDataset | plot.py:147 | The second `_`-field of the base name contains no `_`. It is `None` where Python raises `IndexError`. |
| Runner.OutputFileFields | runner.py:9 | When the dataset name and the mutation rate contain no `_` and no `/`, the base name of a result file splits on `_` back into its seven fields. |
| Runner.JoinedFieldsSplit | runner.py:9 | Joined result fields without `_` or `/` are their own base name and split back into the fields. |
| Plot.ResultDatasetOfOutputFile | plot.py:147 | `basename(f).split("_")[1]` on a run's result file gives back the run's dataset name, whenever that name holds no `_` and the mutation rate holds no `/`. A `_` in the rate does not matter, because the rate comes after field 1. |
| Runner.OutputFileBasename | runner.py:9 | When the mutation rate holds no `/`, the base name of a result file is its seven fields joined by `_`. |
| Runner.JoinedFieldsBasename | runner.py:9 | Fields without `/`, joined under `output/`, have the join as their base name. |
| Runner.JoinedFieldsDataset | runner.py:9 | The second `_`-field of the joined result fields is the dataset name, when that name holds no `_`, whatever the later fields hold. |
| Runner.DatasetNameNoSlash | runner.py:8 | A dataset name never contains `/`. |
| Runner.ResultFieldsNoUnderscore | runner.py:9 | No result field contains `_` when neither the dataset name nor the mutation rate does. |
| Runner.ResultFieldsNoSlash | runner.py:9 | No result field contains `/` when neither the dataset name nor the mutation rate does. |
| Plot.BaselineRuns | plot.py:111-118 | Corrected filter: the listed files, in order, that are runs of that dataset with those parameters, compared field by field. A file is kept exactly when it is listed and passes that test. |
| Plot.FieldsMatchRun | plot.py:111-118 | Corrected filter: a file whose fields are a run's is selected exactly when the dataset and all four parameters are equal. |
| Plot.BaselineRunOfOutputFile | plot.py:111-118 | Corrected filter: a run's result file is selected for dataset d and parameters p exactly when the run is on d with parameters p. |
| Plot.ExactFilterSeparatesDatasets | plot.py:111-118 | Corrected filter: an `rc101` run is not selected for `c101`, and it is selected for `rc101`. |
| Runner.GridHasNoSeparators | runner.py:31 | The name of every dataset in `Datasets` and the mutation rate of every experiment in `EXPERIMENTS_GA` hold neither `_` nor `/`. |
| Runner.DatasetHasNoSeparators | runner.py:31 | The name of each of the three dataset files holds neither `_` nor `/`. |
| Runner.GridRates | test_kits.py:9-27 | Every experiment's mutation rate is the base rate 0.05, or 0.0, 0.1 or 0.2. |
| Runner.ReplicaOf | runner.py:44-49 | Run k of the replicated jobs is job `k / 5` with id `k % 5`. |
| Runner.GridJobAt | runner.py:33-42 | Job q of the grid is experiment `q / 3` on dataset `q % 3`. |
| Runner.GridRunFields | runner.py:28-49 | Every run of the grid carries an `id`, and its dataset name and mutation rate hold neither `_` nor `/`. |
| Plot.GridRunsRoundTrip | plot.py:111-118 | For every run `runner.py` launches, reading the dataset back out of the result file (plot.py:147) gives the run's dataset. The corrected filter selects that file for dataset d and parameters p exactly when the run is on d with parameters p. |
| Plot.SubstringFilterSelectsContaining | plot.py:52-59 | As written: a run is selected for any dataset name that occurs inside its own dataset's name. |
| Plot.C101InsideRc101 | plot.py:54 | `"c101" in "rc101"` holds. |
| Plot.Rc101BaselineRunIsInGrid | runner.py:28-49 | The `rc101` run with population 50, 10000 generations, tournament 5, mutation 0.05 and id r is run `5*38+r` of the grid. |
| Plot.SubstringFilterSelectsRc101 | plot.py:107-118 | As written: the result files of that `rc101` run are selected as `c101` baseline files. |
| Plot.RouteWithDepot | plot.py:89 | The closed route is two longer than the route. It starts and ends at the depot 0, and its middle is the route. |
| PyStr.IsSpace | main.py:24 | The characters `str.isspace()` accepts, as used by `strip()` and `split()`. |
| PyStr.Strip | main.py:14 | `str.strip()`: both ends' whitespace removed. |
| PyStr.Split | main.py:33 | `str.split()`: the maximal runs of non-whitespace, in order. |
| PyStr.Contains | main.py:13 | `t in s` on strings: some position of `s` starts a copy of `t`. |
| PyStr.ParseInt | main.py:36-42 | `int(token)` on a token without whitespace: an optional sign, then decimal digits with single underscores between them, or `ValueError` (`None`). |
| PyStr.IntToString | runner.py:9 | `str(n)` for an integer: at least one character, `-` before a negative value's digits. |
| PyStr.IsBlank | main.py:24 | `not line.strip()`, also at plot.py:17: the line is empty once stripped. `StripFacts` shows that this holds exactly for lines of whitespace only. |
| PyStr.StripFacts | main.py:24 | `strip()` of a line is empty exactly when the line is all whitespace. A line without whitespace is unchanged. |
| PyStr.StripLeftFacts | main.py:14 | Leading strip removes exactly a whitespace prefix, never more, leaving a non-space first character. |
| PyStr.StripRightFacts | main.py:14 | Trailing strip removes exactly a whitespace suffix, never more, leaving a non-space last character. |
| PyStr.SplitTokens | main.py:33 | `split()` yields non-empty tokens without whitespace. |
| PyStr.SplitAllSpace | main.py:24-33 | An all-whitespace line splits into nothing. |
| PyStr.BlankSplitsToNothing | main.py:24-33 | A blank line splits into nothing. |
| PyStr.SplitSpacePrefix | main.py:33 | Leading whitespace does not change `split()`. |
| PyStr.SplitToken | main.py:33 | A token followed by whitespace or nothing is the first element of `split()`. |
| PyStr.SplitJoinSpaced | main.py:33 | `split()` undoes joining whitespace-free tokens with single spaces. |
| PyStr.ContainsMiddle | plot.py:54-58 | A string occurs inside any string it is the middle of. |
| PyStr.ContainsTransitive | plot.py:54 | Occurrence is transitive. |
| PyStr.ContainsInfix | plot.py:54-58 | Occurrence survives adding text on either side. |
| PyStr.IntToStringChars | runner.py:15-17 | `str()` of an integer is digits with an optional leading `-` and no whitespace. |
| PyStr.IntToStringExcludes | runner.py:9 | `str()` of an integer contains no character other than digits and `-`. |
| PyStr.NatToStringValue | runner.py:15-17 | The decimal digits of n denote n. |
| PyStr.ParseIntToString | runner.py:15-17 | `int(str(n)) == n`. |
| PyStr.IntToStringInjective | runner.py:9 | Different integers render differently. |
| PyStr.SplitOn | plot.py:147 | `split("_")` yields at least one field, none containing `_`. |
| PyStr.SplitOnField | plot.py:147 | A field followed by the separator is the first element of the split. |
| PyStr.SplitOnNoSep | plot.py:147 | A string without the separator splits into itself. |
| PyStr.SplitOnJoinOn | plot.py:147 | Splitting undoes joining fields that do not contain the separator. |
| PyStr.JoinOnExcludes | runner.py:9 | Joining fields that avoid a character (other than the separator) gives a string avoiding it. |
| PyStr.JoinOnContainsField | runner.py:9 | Every field occurs in the joined string. |
| PyStr.LastIndexOf | runner.py:8 | Finds the last occurrence of a character, or reports that there is none. |
| PyStr.Basename | runner.py:8 | `basename` is a suffix of the path without `/`. |
| PyStr.BasenameOf | runner.py:8 | `basename(dir + "/" + name)` is `name` when `name` has no `/`. |
| PyStr.BasenameNoSlash | plot.py:147 | A name without `/` is its own base name. |
| PyStr.SplitExtRoot | runner.py:8 | The root from `splitext` is a prefix of the name. |
| PyStr.SplitExtRootOf | runner.py:8 | The root of `stem.ext` is `stem` (for an extension without `.` and a stem not made only of dots). |

## Left out

- File reading (`open`/`readlines`), every `print`, and the plotting and data-frame libraries (matplotlib, seaborn, pandas). The reader takes the file's lines as its input.
- `client.py` and the genetic-algorithm solver are not part of this model. `Client` is the seven-field record that `load_data` builds.
- `subprocess.run` and `ProcessPoolExecutor` (runner.py:21-25 and 53-54). `Runner.PlanLaunch` produces the output name and the command vector. Running it, its exit status and the parallel schedule are not modelled.
- The job dictionary is a record with an optional `id`. A missing key other than `id` cannot arise in the model. `job.copy()` is a value copy.
- The mutation rate, a Python float, is kept as the string `str()` renders (`"0.05"`, `"0.0"`, `"0.1"`, `"0.2"`). Float formatting is not modelled.
- PyStr.ParseInt: accepts an optional sign, then ASCII digits with single underscores between them, as Python's `int()` does. Non-ASCII decimal digits are not modelled. Python 3.11 and later raise `ValueError` for a literal of more than 4300 digits; `ParseInt` accepts any length.
- `load_json` and the best-run selection, `min(all_runs, key=...)` (plot.py:39-41, 64-68 and 123-132), are not modelled: they need the JSON content and floats.
- `plot_cost_history` and `draw_multiple_routes` are modelled only in the parts above: the baseline filter and `route_with_depot`. The lookup `points[i]` and the drawing are left out.
- `prepare_boxplot_df` is modelled only in the dataset-name extraction at line 147. The regular-expression parameter extraction and `float()` (lines 149-154) and `plot_boxplots` are left out: they need regular expressions and floats.

## Findings

| source | as written | input that shows it | evidently intended | confidence | as-written member | corrected member |
|---|---|---|---|---|---|---|
| plot.py:52-59 and plot.py:111-118 | A result file is a baseline file for dataset `ds_name` when `ds_name in f` and each parameter tag is a substring of the path. | `output/results_rc101_pop50_gen10000_tour5_mut0.05_id0.json`, produced by the grid's run `5*38+0`, passes the filter for `c101` because `"c101" in "rc101"`. The `rc101` runs are then mixed into the `c101` baseline and its best route. | A file is selected when its dataset field and its four parameter fields equal the requested ones. | not executed | Plot.SubstringFilterSelectsRc101 | Plot.BaselineRunOfOutputFile |
