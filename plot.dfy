/** The helpers of `plot.py` that carry logic: the Solomon loader that
    yields customer coordinates, the selection of baseline result files,
    the depot wrapping of a route, and the dataset name read back out of a
    result-file name. Plotting itself is not modelled. */
module Plot {
  import opened Wrappers
  import opened PyStr
  import opened Solomon
  import opened Runner

  // ---------------------------------------------------------------------
  // load_solomon_file

  /** `[(c.x, c.y) for c in clients]`. */
  function Points(clients: seq<Client>): seq<(int, int)> {
    seq(|clients|, i requires 0 <= i < |clients| => (clients[i].x, clients[i].y))
  }

  /** One point per client, in the clients' order. */
  lemma {:induction false} PointsAt(clients: seq<Client>)
    ensures |Points(clients)| == |clients|
    ensures forall i :: 0 <= i < |clients| ==>
              Points(clients)[i] == (clients[i].x, clients[i].y)
  {
  }

  /** `load_solomon_file` on the lines of an already-read file: the same
      blank-line, header and seven-token rules as `load_data`'s scan, then
      the coordinates of every customer read. */
  method LoadSolomonFile(lines: seq<string>) returns (r: Result<seq<(int, int)>, LoadError>)
    ensures ScanPrefix(lines, |lines|).Err? ==> r == Err(ScanPrefix(lines, |lines|).error)
    ensures ScanPrefix(lines, |lines|).Ok? ==>
              r == Ok(Points(ScanPrefix(lines, |lines|).value.clients))
  {
    var clients: seq<Client> := [];
    var startParsing := false;
    for k := 0 to |lines|
      invariant ScanPrefix(lines, k) == Ok(Scan(startParsing, clients))
    {
      var line := lines[k];
      ghost var st := Scan(startParsing, clients);
      assert ScanPrefix(lines, k + 1) == Step(st, line, k);
      if IsBlank(line) {
        continue;
      }
      if Contains(line, HeaderMarker) {
        startParsing := true;
        continue;
      }
      if startParsing {
        var parts := Split(line);
        if |parts| >= 7 {
          var c := ParseRecord(parts, k);
          if c.Err? {
            ScanErrorPersists(lines, k + 1, |lines|);
            return Err(c.error);
          }
          clients := clients + [c.value];
        }
      }
    }
    return Ok(Points(clients));
  }

  /** Whenever `load_data` succeeds on a file, `load_solomon_file` reads
      the coordinates of exactly the customers `load_data` returns. */
  lemma {:induction false} LoadSolomonAgreesWithLoadData(lines: seq<string>)
    requires LoadDataSpec(lines).Ok?
    ensures ScanPrefix(lines, |lines|).Ok?
    ensures Points(ScanPrefix(lines, |lines|).value.clients) == Points(LoadDataSpec(lines).value.1)
  {
  }

  // ---------------------------------------------------------------------
  // Baseline selection

  /** The `baseline_params` dictionary. */
  datatype BaselineParams = BaselineParams(populationSize: int, generations: int,
                                           tournamentSize: int, mutationRate: string)

  /** The parameters of a job, as a baseline description. */
  function ParamsOf(job: Job): BaselineParams {
    BaselineParams(job.populationSize, job.generations, job.tournamentSize, job.mutationRate)
  }

  /** The baseline `plot.py` plots: population 50, 10000 generations,
      tournament size 5, mutation rate 0.05. */
  const PlotBaseline := BaselineParams(50, 10000, 5, "0.05")

  /** The comprehension's condition, as written: the dataset name and the
      four `key{value}` tags each occur somewhere in the path. */
  predicate IsBaselineFile(f: string, dsName: string, p: BaselineParams) {
    Contains(f, dsName) &&
    Contains(f, "pop" + IntToString(p.populationSize)) &&
    Contains(f, "gen" + IntToString(p.generations)) &&
    Contains(f, "tour" + IntToString(p.tournamentSize)) &&
    Contains(f, "mut" + p.mutationRate)
  }

  /** `[f for f in files if keep(f)]`. */
  function Select(files: seq<string>, keep: string -> bool): (r: seq<string>)
    ensures forall f :: f in r <==> f in files && keep(f)
  {
    if files == [] then []
    else
      var front := files[..|files| - 1];
      assert files == front + [files[|files| - 1]];
      Select(front, keep) +
      (if keep(files[|files| - 1]) then [files[|files| - 1]] else [])
  }

  /** Selection keeps the listing order: selecting from two listings one
      after the other selects from each, in turn. */
  lemma {:induction false} SelectAppend(a: seq<string>, b: seq<string>, keep: string -> bool)
    ensures Select(a + b, keep) == Select(a, keep) + Select(b, keep)
    decreases |b|
  {
    if b == [] {
      assert a + b == a;
    } else {
      var front := b[..|b| - 1];
      assert (a + b)[..|a + b| - 1] == a + front;
      SelectAppend(a, front, keep);
    }
  }

  /** `baseline_files` of `plot_cost_history` and
      `generate_all_baseline_plots`. */
  function BaselineFiles(files: seq<string>, dsName: string, p: BaselineParams): seq<string> {
    Select(files, f => IsBaselineFile(f, dsName, p))
  }

  /** A file is a baseline file iff it is listed and passes the substring
      tests; so the list is empty iff no listed file passes them. */
  lemma {:induction false} BaselineFilesMembers(files: seq<string>, dsName: string, p: BaselineParams)
    ensures forall f :: f in BaselineFiles(files, dsName, p) <==>
              f in files && IsBaselineFile(f, dsName, p)
    ensures BaselineFiles(files, dsName, p) == [] <==>
              forall f :: f in files ==> !IsBaselineFile(f, dsName, p)
  {
    if BaselineFiles(files, dsName, p) != [] {
      assert BaselineFiles(files, dsName, p)[0] in BaselineFiles(files, dsName, p);
    }
  }

  /** Each field of a result-file name occurs in it. */
  lemma {:induction false} OutputFileContainsField(job: Job, id: int, k: nat)
    requires k < 7
    ensures Contains(OutputFile(job, id), ResultFields(DatasetName(job.file), job, id)[k])
  {
    var fields := ResultFields(DatasetName(job.file), job, id);
    JoinOnContainsField(fields, '_', k);
    ContainsInfix("output/", JoinOn(fields, '_'), fields[k]);
  }

  /** Every run's result file passes the substring tests for its own job's
      dataset and parameters. */
  lemma {:induction false} OutputFileIsBaselineFile(job: Job, id: int)
    ensures IsBaselineFile(OutputFile(job, id), DatasetName(job.file), ParamsOf(job))
  {
    OutputFileContainsField(job, id, 1);
    OutputFileContainsField(job, id, 2);
    OutputFileContainsField(job, id, 3);
    OutputFileContainsField(job, id, 4);
    OutputFileContainsField(job, id, 5);
  }

  // ---------------------------------------------------------------------
  // Result-file names

  /** `os.path.basename(f).split("_")[1]`; a name with no `_` raises
      `IndexError`, here `None`. */
  function ResultDataset(f: string): (r: Option<string>)
    ensures r.Some? ==> '_' !in r.value
  {
    var fields := SplitOn(Basename(f), '_');
    if |fields| >= 2 then Some(fields[1]) else None
  }

  /** `x + y == x + z` only when `y == z`. */
  lemma {:induction false} PrefixCancel(x: string, y: string, z: string)
    requires x + y == x + z
    ensures y == z
  {
    assert y == (x + y)[|x|..];
    assert z == (x + z)[|x|..];
  }

  /** The round trip between the two scripts: for a dataset name without
      `_` and a mutation rate without `/`, the name `plot.py` reads out of a
      result file is the dataset name `runner.py` put in. Field 1 comes
      before the mutation rate, so a `_` in the rate does not move it. */
  lemma {:induction false} ResultDatasetOfOutputFile(job: Job, id: int)
    requires '_' !in DatasetName(job.file)
    requires '/' !in job.mutationRate
    ensures ResultDataset(OutputFile(job, id)) == Some(DatasetName(job.file))
  {
    OutputFileBasename(job, id);
    JoinedFieldsDataset(DatasetName(job.file), job, id);
  }

  /** Exact selection: the base name has the seven `_`-separated fields of
      a result file, and the dataset and the four parameter fields are
      exactly the ones asked for. */
  predicate IsBaselineRun(f: string, dsName: string, p: BaselineParams) {
    var fields := SplitOn(Basename(f), '_');
    |fields| == 7 && fields[0] == "results" && fields[1] == dsName &&
    fields[2] == "pop" + IntToString(p.populationSize) &&
    fields[3] == "gen" + IntToString(p.generations) &&
    fields[4] == "tour" + IntToString(p.tournamentSize) &&
    fields[5] == "mut" + p.mutationRate
  }

  /** The baseline files under exact selection: the listed files that pass
      the exact test. */
  function BaselineRuns(files: seq<string>, dsName: string, p: BaselineParams): (r: seq<string>)
    ensures forall f :: f in r <==> f in files && IsBaselineRun(f, dsName, p)
  {
    Select(files, f => IsBaselineRun(f, dsName, p))
  }

  /** A file whose base name splits into the fields of run `id` of `job`
      on `dsName` passes the exact test for `other` and `p` iff those are
      that dataset name and the job's parameters. */
  lemma {:induction false} FieldsMatchRun(f: string, dsName: string, job: Job, id: int,
                       other: string, p: BaselineParams)
    requires SplitOn(Basename(f), '_') == ResultFields(dsName, job, id)
    ensures IsBaselineRun(f, other, p) <==> dsName == other && ParamsOf(job) == p
  {
    if IsBaselineRun(f, other, p) {
      PrefixCancel("pop", IntToString(job.populationSize), IntToString(p.populationSize));
      IntToStringInjective(job.populationSize, p.populationSize);
      PrefixCancel("gen", IntToString(job.generations), IntToString(p.generations));
      IntToStringInjective(job.generations, p.generations);
      PrefixCancel("tour", IntToString(job.tournamentSize), IntToString(p.tournamentSize));
      IntToStringInjective(job.tournamentSize, p.tournamentSize);
      PrefixCancel("mut", job.mutationRate, p.mutationRate);
    }
  }

  /** Exact selection picks a run's result file iff the run is on that
      dataset with exactly those parameters. */
  lemma {:induction false} BaselineRunOfOutputFile(job: Job, id: int, dsName: string, p: BaselineParams)
    requires '_' !in DatasetName(job.file)
    requires '_' !in job.mutationRate && '/' !in job.mutationRate
    ensures IsBaselineRun(OutputFile(job, id), dsName, p) <==>
            DatasetName(job.file) == dsName && ParamsOf(job) == p
  {
    OutputFileFields(job, id);
    FieldsMatchRun(OutputFile(job, id), DatasetName(job.file), job, id, dsName, p);
  }

  /** For every run of the grid that `runner.py` launches, `plot.py` reads
      the run's own dataset name back out of its result file, and the exact
      filter selects that file for the run's dataset and parameters and for
      no other. */
  lemma {:induction false} GridRunsRoundTrip(k: nat, dsName: string, p: BaselineParams)
    requires k < |Replicas(BaseJobs(ExperimentsGa, Datasets))|
    ensures var run := Replicas(BaseJobs(ExperimentsGa, Datasets))[k];
      PlanLaunch(run).Some? &&
      ResultDataset(PlanLaunch(run).value.outputFile) == Some(DatasetName(run.file)) &&
      (IsBaselineRun(PlanLaunch(run).value.outputFile, dsName, p) <==>
       DatasetName(run.file) == dsName && ParamsOf(run) == p)
  {
    var run := Replicas(BaseJobs(ExperimentsGa, Datasets))[k];
    GridRunFields(k);
    ResultDatasetOfOutputFile(run, run.id.value);
    BaselineRunOfOutputFile(run, run.id.value, dsName, p);
  }

  // ---------------------------------------------------------------------
  // The substring filter selects runs of another dataset

  /** As written, the filter for a dataset selects the result file of a run
      on any dataset whose name contains that dataset's name. */
  lemma {:induction false} SubstringFilterSelectsContaining(job: Job, id: int, dsName: string)
    requires Contains(DatasetName(job.file), dsName)
    ensures IsBaselineFile(OutputFile(job, id), dsName, ParamsOf(job))
  {
    OutputFileIsBaselineFile(job, id);
    ContainsTransitive(OutputFile(job, id), DatasetName(job.file), dsName);
  }

  /** "c101" occurs inside "rc101". */
  lemma {:induction false} C101InsideRc101()
    ensures Contains("rc101", "c101")
  {
    ContainsMiddle("r", "c101", "");
    assert "r" + "c101" + "" == "rc101";
  }

  /** Run `id` of the rc101 job with the plotted baseline parameters. */
  function Rc101BaselineRun(id: int): Job {
    Job(Datasets[2], 50, 10000, 5, "0.05", Some(id))
  }

  /** That run is one of the 195 runs `runner.py` starts: the last
      experiment on the third dataset. */
  lemma {:induction false} Rc101BaselineRunIsInGrid(id: nat)
    requires id < Replicates
    ensures Replicates * (12 * 3 + 2) + id < |Replicas(BaseJobs(ExperimentsGa, Datasets))|
    ensures Replicas(BaseJobs(ExperimentsGa, Datasets))[Replicates * (12 * 3 + 2) + id] ==
            Rc101BaselineRun(id)
  {
    BaseJobAt(ExperimentsGa, Datasets, 12, 2);
    BaseJobsCount(ExperimentsGa, Datasets);
    ReplicasAt(BaseJobs(ExperimentsGa, Datasets));
  }

  /** As written, the c101 baseline selection picks up the result file of
      that rc101 run. */
  lemma {:induction false} SubstringFilterSelectsRc101(job: Job, id: int)
    requires job == Rc101BaselineRun(id)
    ensures DatasetName(job.file) == "rc101"
    ensures IsBaselineFile(OutputFile(job, id), DatasetName(Datasets[0]), PlotBaseline)
  {
    DatasetNames();
    C101InsideRc101();
    SubstringFilterSelectsContaining(job, id, "c101");
  }

  /** The exact filter, given the parameters of an rc101 run, selects its
      result file for rc101 and not for c101. */
  lemma {:induction false} ExactFilterSeparatesDatasets(job: Job, id: int)
    requires DatasetName(job.file) == "rc101" && job.mutationRate == "0.05"
    ensures !IsBaselineRun(OutputFile(job, id), "c101", ParamsOf(job))
    ensures IsBaselineRun(OutputFile(job, id), "rc101", ParamsOf(job))
  {
    NamesHaveNoSeparators(DatasetName(job.file));
    NamesHaveNoSeparators(job.mutationRate);
    BaselineRunOfOutputFile(job, id, "c101", ParamsOf(job));
    BaselineRunOfOutputFile(job, id, "rc101", ParamsOf(job));
  }

  // ---------------------------------------------------------------------
  // draw_multiple_routes

  /** `[0] + route + [0]`: the route closed at the depot, index 0. */
  function RouteWithDepot(route: seq<int>): (r: seq<int>)
    ensures |r| == |route| + 2
    ensures r[0] == 0 && r[|r| - 1] == 0
    ensures r[1..|r| - 1] == route
  {
    [0] + route + [0]
  }
}
