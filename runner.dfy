/** The batch runner of `runner.py`: the grid of GA experiments crossed with
    the benchmark datasets and five replicate runs each, and, per run, the
    result-file name and the command line that `launch` starts. The
    experiment table itself comes from `test_kits.py`. */
module Runner {
  import opened Wrappers
  import opened PyStr

  /** One entry of `EXPERIMENTS_GA`. The mutation rate is a Python float; it
      is kept as the text `str()` renders for it. */
  datatype Experiment = Experiment(populationSize: int, generations: int,
                                   tournamentSize: int, mutationRate: string)

  /** A job dictionary: the dataset file, the four GA parameters and, once it
      is a replicate, its `id` key. */
  datatype Job = Job(file: string, populationSize: int, generations: int,
                     tournamentSize: int, mutationRate: string, id: Option<int>)

  /** The `datasets` list of `main`. */
  const Datasets: seq<string> := ["data/c101.txt", "data/r101.txt", "data/rc101.txt"]

  /** `range(5)`: replicate runs per job. */
  const Replicates: nat := 5

  const BasePop := 50
  const BaseGen := 1000
  const BaseTourn := 5
  const BaseMut := "0.05"

  /** `EXPERIMENTS_GA` of `test_kits.py`: population size, then mutation
      rate, then tournament size, then generation count varied around the
      base values. */
  const ExperimentsGa: seq<Experiment> := [
    Experiment(20, BaseGen, BaseTourn, BaseMut),
    Experiment(BasePop, BaseGen, BaseTourn, BaseMut),
    Experiment(100, BaseGen, BaseTourn, BaseMut),
    Experiment(200, BaseGen, BaseTourn, BaseMut),
    Experiment(BasePop, BaseGen, BaseTourn, "0.0"),
    Experiment(BasePop, BaseGen, BaseTourn, "0.1"),
    Experiment(BasePop, BaseGen, BaseTourn, "0.2"),
    Experiment(BasePop, BaseGen, 2, BaseMut),
    Experiment(BasePop, BaseGen, 5, BaseMut),
    Experiment(BasePop, BaseGen, 10, BaseMut),
    Experiment(BasePop, 100, BaseTourn, BaseMut),
    Experiment(BasePop, 500, BaseTourn, BaseMut),
    Experiment(BasePop, 10000, BaseTourn, BaseMut)
  ]

  // ---------------------------------------------------------------------
  // Job expansion

  /** The job dictionary built for one experiment and one dataset. */
  function JobOf(e: Experiment, ds: string): Job {
    Job(ds, e.populationSize, e.generations, e.tournamentSize, e.mutationRate, None)
  }

  /** The jobs of one experiment, one per dataset, in dataset order. */
  function JobsFor(e: Experiment, datasets: seq<string>): seq<Job> {
    if datasets == [] then []
    else JobsFor(e, datasets[..|datasets| - 1]) + [JobOf(e, datasets[|datasets| - 1])]
  }

  /** The base jobs: experiment-major, dataset-minor. */
  function BaseJobs(exps: seq<Experiment>, datasets: seq<string>): seq<Job> {
    if exps == [] then []
    else BaseJobs(exps[..|exps| - 1], datasets) + JobsFor(exps[|exps| - 1], datasets)
  }

  /** The first `n` replicates of a job: copies with `id` 0, 1, ..., n - 1. */
  function CopiesOf(job: Job, n: nat): seq<Job> {
    if n == 0 then [] else CopiesOf(job, n - 1) + [job.(id := Some(n - 1))]
  }

  /** All runs: each base job's five replicates, job by job. */
  function Replicas(jobs: seq<Job>): seq<Job> {
    if jobs == [] then []
    else Replicas(jobs[..|jobs| - 1]) + CopiesOf(jobs[|jobs| - 1], Replicates)
  }

  /** The two job-building loop nests of `main`; `jobs` is returned as well,
      to show that copying never alters the base jobs. */
  method ExpandJobs(exps: seq<Experiment>, datasets: seq<string>)
    returns (jobs: seq<Job>, allJobs: seq<Job>)
    ensures jobs == BaseJobs(exps, datasets)
    ensures allJobs == Replicas(jobs)
  {
    jobs := [];
    for i := 0 to |exps|
      invariant jobs == BaseJobs(exps[..i], datasets)
    {
      var exp := exps[i];
      for j := 0 to |datasets|
        invariant jobs == BaseJobs(exps[..i], datasets) + JobsFor(exp, datasets[..j])
      {
        var job := Job(datasets[j], exp.populationSize, exp.generations,
                       exp.tournamentSize, exp.mutationRate, None);
        JobsForPrefix(exp, datasets, j);
        jobs := jobs + [job];
      }
      BaseJobsPrefix(exps, datasets, i);
    }
    TakeAll(exps);

    allJobs := [];
    for k := 0 to |jobs|
      invariant allJobs == Replicas(jobs[..k])
    {
      var job := jobs[k];
      for r := 0 to Replicates
        invariant allJobs == Replicas(jobs[..k]) + CopiesOf(job, r)
      {
        var newJob := job.(id := Some(r));
        allJobs := allJobs + [newJob];
      }
      ReplicasPrefix(jobs, k);
    }
    TakeAll(jobs);
  }

  lemma {:induction false} JobsForPrefix(e: Experiment, datasets: seq<string>, j: nat)
    requires j < |datasets|
    ensures JobsFor(e, datasets[..j + 1]) == JobsFor(e, datasets[..j]) + [JobOf(e, datasets[j])]
  {
    assert datasets[..j + 1][..j] == datasets[..j];
  }

  lemma {:induction false} BaseJobsPrefix(exps: seq<Experiment>, datasets: seq<string>, i: nat)
    requires i < |exps|
    ensures BaseJobs(exps[..i + 1], datasets) ==
            BaseJobs(exps[..i], datasets) + JobsFor(exps[i], datasets[..|datasets|])
  {
    assert exps[..i + 1][..i] == exps[..i];
    assert datasets[..|datasets|] == datasets;
  }

  lemma {:induction false} ReplicasPrefix(jobs: seq<Job>, k: nat)
    requires k < |jobs|
    ensures Replicas(jobs[..k + 1]) == Replicas(jobs[..k]) + CopiesOf(jobs[k], Replicates)
  {
    assert jobs[..k + 1][..k] == jobs[..k];
  }

  lemma {:induction false} JobsForAt(e: Experiment, datasets: seq<string>)
    ensures |JobsFor(e, datasets)| == |datasets|
    ensures forall j :: 0 <= j < |datasets| ==> JobsFor(e, datasets)[j] == JobOf(e, datasets[j])
    decreases |datasets|
  {
    if datasets != [] {
      JobsForAt(e, datasets[..|datasets| - 1]);
    }
  }

  /** There are |experiments| x |datasets| base jobs. */
  lemma {:induction false} BaseJobsCount(exps: seq<Experiment>, datasets: seq<string>)
    ensures |BaseJobs(exps, datasets)| == |exps| * |datasets|
    decreases |exps|
  {
    if exps != [] {
      BaseJobsCount(exps[..|exps| - 1], datasets);
      JobsForAt(exps[|exps| - 1], datasets);
      assert |exps| * |datasets| == (|exps| - 1) * |datasets| + |datasets|;
    }
  }

  /** The jobs of the first `m` experiments come first. */
  lemma {:induction false} BaseJobsPrefixOf(exps: seq<Experiment>, datasets: seq<string>, m: nat)
    requires m <= |exps|
    ensures BaseJobs(exps[..m], datasets) <= BaseJobs(exps, datasets)
    decreases |exps|
  {
    if m < |exps| {
      var front := exps[..|exps| - 1];
      assert front[..m] == exps[..m];
      BaseJobsPrefixOf(front, datasets, m);
    } else {
      assert exps[..m] == exps;
    }
  }

  /** The base job at position `i * |datasets| + j` is experiment `i` on
      dataset `j`, with the four GA parameters copied from the experiment
      and no `id`. */
  lemma {:induction false} BaseJobAt(exps: seq<Experiment>, datasets: seq<string>, i: nat, j: nat)
    requires i < |exps| && j < |datasets|
    ensures i * |datasets| + j < |BaseJobs(exps, datasets)|
    ensures BaseJobs(exps, datasets)[i * |datasets| + j] == JobOf(exps[i], datasets[j])
  {
    var all := BaseJobs(exps, datasets);
    var before := BaseJobs(exps[..i], datasets);
    var block := JobsFor(exps[i], datasets);
    var k := i * |datasets| + j;
    assert |before| == i * |datasets| by {
      BaseJobsCount(exps[..i], datasets);
      assert |exps[..i]| == i;
    }
    assert before + block <= all by {
      BaseJobsPrefix(exps, datasets, i);
      assert datasets[..|datasets|] == datasets;
      BaseJobsPrefixOf(exps, datasets, i + 1);
    }
    JobsForAt(exps[i], datasets);
    assert k == |before| + j;
    assert all[k] == (before + block)[k] == block[j];
  }

  lemma {:induction false} CopiesOfAt(job: Job, n: nat)
    ensures |CopiesOf(job, n)| == n
    ensures forall r :: 0 <= r < n ==> CopiesOf(job, n)[r] == job.(id := Some(r))
    decreases n
  {
    if n > 0 {
      CopiesOfAt(job, n - 1);
    }
  }

  /** Five runs per base job; run `5 * k + r` is base job `k` with `id` r
      added and every other key unchanged. */
  lemma {:induction false} ReplicasAt(jobs: seq<Job>)
    ensures |Replicas(jobs)| == Replicates * |jobs|
    ensures forall k, r :: 0 <= k < |jobs| && 0 <= r < Replicates ==>
              Replicas(jobs)[Replicates * k + r] == jobs[k].(id := Some(r))
    decreases |jobs|
  {
    if jobs != [] {
      var front := jobs[..|jobs| - 1];
      ReplicasAt(front);
      CopiesOfAt(jobs[|jobs| - 1], Replicates);
      forall k, r | 0 <= k < |jobs| && 0 <= r < Replicates
        ensures Replicas(jobs)[Replicates * k + r] == jobs[k].(id := Some(r))
      {
        if k < |jobs| - 1 {
          assert jobs[k] == front[k];
        }
      }
    }
  }

  /** The grid run by `runner.py`: 13 experiments on 3 datasets give 39 base
      jobs and 195 runs. */
  lemma {:induction false} GridSize()
    ensures |ExperimentsGa| == 13
    ensures |BaseJobs(ExperimentsGa, Datasets)| == 39
    ensures |Replicas(BaseJobs(ExperimentsGa, Datasets))| == 195
  {
    BaseJobsCount(ExperimentsGa, Datasets);
    ReplicasAt(BaseJobs(ExperimentsGa, Datasets));
  }

  /** None of the names and rates the grid is built from holds `_` or `/`. */
  lemma {:induction false} NamesHaveNoSeparators(s: string)
    requires s in {"c101", "r101", "rc101", "0.0", "0.05", "0.1", "0.2"}
    ensures '_' !in s && '/' !in s
  {
  }

  /** The grid's mutation rates are the base rate and the three varied
      ones. */
  lemma {:induction false} GridRates(i: nat)
    requires i < |ExperimentsGa|
    ensures ExperimentsGa[i].mutationRate in {BaseMut, "0.0", "0.1", "0.2"}
  {
    if 4 <= i < 7 {
      assert ExperimentsGa[i].mutationRate in {"0.0", "0.1", "0.2"};
    } else {
      assert ExperimentsGa[i].mutationRate == BaseMut;
    }
  }

  /** The grid's dataset names and mutation rates hold neither `_` nor `/`,
      the separators of a result-file path. */
  lemma {:induction false} GridHasNoSeparators()
    ensures forall j :: 0 <= j < |Datasets| ==>
              '_' !in DatasetName(Datasets[j]) && '/' !in DatasetName(Datasets[j])
    ensures forall i :: 0 <= i < |ExperimentsGa| ==>
              '_' !in ExperimentsGa[i].mutationRate && '/' !in ExperimentsGa[i].mutationRate
  {
    forall j | 0 <= j < |Datasets|
      ensures '_' !in DatasetName(Datasets[j]) && '/' !in DatasetName(Datasets[j])
    {
      DatasetHasNoSeparators(j);
    }
    forall i | 0 <= i < |ExperimentsGa|
      ensures '_' !in ExperimentsGa[i].mutationRate && '/' !in ExperimentsGa[i].mutationRate
    {
      GridRates(i);
      NamesHaveNoSeparators(ExperimentsGa[i].mutationRate);
    }
  }

  lemma {:induction false} DatasetHasNoSeparators(j: nat)
    requires j < |Datasets|
    ensures '_' !in DatasetName(Datasets[j]) && '/' !in DatasetName(Datasets[j])
  {
    DatasetNames();
    if j == 0 {
      NamesHaveNoSeparators("c101");
    } else if j == 1 {
      NamesHaveNoSeparators("r101");
    } else {
      NamesHaveNoSeparators("rc101");
    }
  }

  /** Run `k` of the replicated jobs is job `k / 5` with id `k % 5`. */
  lemma {:induction false} ReplicaOf(jobs: seq<Job>, k: nat)
    requires k < |Replicas(jobs)|
    ensures k / Replicates < |jobs|
    ensures Replicas(jobs)[k] == jobs[k / Replicates].(id := Some(k % Replicates))
  {
    ReplicasAt(jobs);
    var q := k / Replicates;
    var r := k % Replicates;
    assert Replicates * q + r == k;
  }

  /** Job `q` of the grid is experiment `q / 3` on dataset `q % 3`. */
  lemma {:induction false} GridJobAt(q: nat)
    requires q < |BaseJobs(ExperimentsGa, Datasets)|
    ensures q / 3 < |ExperimentsGa| && q % 3 < |Datasets|
    ensures BaseJobs(ExperimentsGa, Datasets)[q] == JobOf(ExperimentsGa[q / 3], Datasets[q % 3])
  {
    GridSize();
    var i := q / 3;
    var j := q % 3;
    assert i * |Datasets| + j == q;
    BaseJobAt(ExperimentsGa, Datasets, i, j);
  }

  /** Every run of the grid carries an `id`, and its dataset name and
      mutation rate hold neither `_` nor `/`. */
  lemma {:induction false} GridRunFields(k: nat)
    requires k < |Replicas(BaseJobs(ExperimentsGa, Datasets))|
    ensures var run := Replicas(BaseJobs(ExperimentsGa, Datasets))[k];
      run.id.Some? &&
      '_' !in DatasetName(run.file) && '/' !in DatasetName(run.file) &&
      '_' !in run.mutationRate && '/' !in run.mutationRate
  {
    var jobs := BaseJobs(ExperimentsGa, Datasets);
    ReplicaOf(jobs, k);
    var q := k / Replicates;
    GridJobAt(q);
    GridHasNoSeparators();
  }

  // ---------------------------------------------------------------------
  // launch

  /** `os.path.splitext(os.path.basename(file))[0]`: the dataset name. */
  function DatasetName(file: string): string {
    SplitExtRoot(Basename(file))
  }

  /** The dataset name of `dir/stem.ext` is `stem`. */
  lemma {:induction false} DatasetNameOf(dir: string, stem: string, ext: string)
    requires '/' !in stem && '/' !in ext && '.' !in ext
    requires exists k :: 0 <= k < |stem| && stem[k] != '.'
    ensures DatasetName(dir + "/" + stem + "." + ext) == stem
  {
    assert dir + "/" + stem + "." + ext == dir + "/" + (stem + "." + ext);
    BasenameOf(dir, stem + "." + ext);
    SplitExtRootOf(stem, ext);
  }

  /** The three benchmark files are named c101, r101 and rc101. */
  lemma {:induction false} DatasetNames()
    ensures DatasetName(Datasets[0]) == "c101"
    ensures DatasetName(Datasets[1]) == "r101"
    ensures DatasetName(Datasets[2]) == "rc101"
  {
    DatasetsSpelled();
    DatasetNameTxt("c101");
    DatasetNameTxt("r101");
    DatasetNameTxt("rc101");
  }

  lemma {:induction false} DatasetsSpelled()
    ensures Datasets[0] == "data/" + "c101" + ".txt"
    ensures Datasets[1] == "data/" + "r101" + ".txt"
    ensures Datasets[2] == "data/" + "rc101" + ".txt"
  {
  }

  lemma {:induction false} DatasetNameTxt(stem: string)
    requires '/' !in stem && stem != [] && stem[0] != '.'
    ensures DatasetName("data/" + stem + ".txt") == stem
  {
    assert "data/" + stem + ".txt" == "data" + "/" + stem + "." + "txt";
    DatasetNameOf("data", stem, "txt");
  }

  /** The `_`-separated fields of the result-file name of run `id` of a job
      on the dataset named `dsName`. */
  function ResultFields(dsName: string, job: Job, id: int): seq<string> {
    ["results", dsName,
     "pop" + IntToString(job.populationSize),
     "gen" + IntToString(job.generations),
     "tour" + IntToString(job.tournamentSize),
     "mut" + job.mutationRate,
     "id" + IntToString(id) + ".json"]
  }

  /** The result file of run `id` of a job,
      `output/results_{ds}_pop{P}_gen{G}_tour{T}_mut{M}_id{id}.json`:
      the directory `output/` followed by the seven fields above joined by
      `_`. */
  function OutputFile(job: Job, id: int): string {
    "output/" + JoinOn(ResultFields(DatasetName(job.file), job, id), '_')
  }

  /** `OutputFile` is the string the f-string of `launch` builds: the
      literal pieces and the rendered values, one after the other. */
  lemma {:induction false} OutputFileFString(job: Job, id: int)
    ensures OutputFile(job, id) ==
      "output/" + ("results" + ("_" + (DatasetName(job.file) +
      ("_" + (("pop" + IntToString(job.populationSize)) +
      ("_" + (("gen" + IntToString(job.generations)) +
      ("_" + (("tour" + IntToString(job.tournamentSize)) +
      ("_" + (("mut" + job.mutationRate) +
      ("_" + ("id" + IntToString(id) + ".json")))))))))))))
  {
    JoinOnSeven(ResultFields(DatasetName(job.file), job, id), '_');
  }

  /** What `launch` runs: the result file and the command vector. */
  datatype Launch = Launch(outputFile: string, command: seq<string>)

  /** The command vector that runs the GA on a job, writing `output`. */
  function Command(job: Job, output: string): seq<string> {
    ["python", "main.py", job.file, output,
     IntToString(job.populationSize), IntToString(job.generations),
     IntToString(job.tournamentSize), job.mutationRate]
  }

  /** The dataset name of a file has no `/`. */
  lemma {:induction false} DatasetNameNoSlash(file: string)
    ensures '/' !in DatasetName(file)
  {
    var b := Basename(file);
    assert DatasetName(file) == b[..|DatasetName(file)|];
  }

  /** No field of a result-file name holds a `/`, given that the dataset
      name and the mutation rate hold none. */
  lemma {:induction false} ResultFieldsNoSlash(dsName: string, job: Job, id: int)
    requires '/' !in dsName && '/' !in job.mutationRate
    ensures forall k :: 0 <= k < |ResultFields(dsName, job, id)| ==>
              '/' !in ResultFields(dsName, job, id)[k]
  {
    IntToStringExcludes(job.populationSize, '/');
    IntToStringExcludes(job.generations, '/');
    IntToStringExcludes(job.tournamentSize, '/');
    IntToStringExcludes(id, '/');
  }

  /** No field of a result-file name holds a `_`, given that the dataset
      name and the mutation rate hold none. */
  lemma {:induction false} ResultFieldsNoUnderscore(dsName: string, job: Job, id: int)
    requires '_' !in dsName && '_' !in job.mutationRate
    ensures forall k :: 0 <= k < |ResultFields(dsName, job, id)| ==>
              '_' !in ResultFields(dsName, job, id)[k]
  {
    IntToStringExcludes(job.populationSize, '_');
    IntToStringExcludes(job.generations, '_');
    IntToStringExcludes(job.tournamentSize, '_');
    IntToStringExcludes(id, '_');
  }

  /** A joined field list under `output/` has that join as its base name. */
  lemma {:induction false} JoinedFieldsBasename(dsName: string, job: Job, id: int)
    requires '/' !in dsName && '/' !in job.mutationRate
    ensures Basename("output/" + JoinOn(ResultFields(dsName, job, id), '_')) ==
            JoinOn(ResultFields(dsName, job, id), '_')
  {
    var fields := ResultFields(dsName, job, id);
    ResultFieldsNoSlash(dsName, job, id);
    var joined := JoinOn(fields, '_');
    JoinOnExcludes(fields, '_', '/');
    assert "output/" + joined == "output" + "/" + joined;
    BasenameOf("output", joined);
  }

  /** A joined field list under `output/` has that join as its base name,
      and the join splits back into the fields. */
  lemma {:induction false} JoinedFieldsSplit(dsName: string, job: Job, id: int)
    requires '_' !in dsName && '/' !in dsName
    requires '_' !in job.mutationRate && '/' !in job.mutationRate
    ensures Basename("output/" + JoinOn(ResultFields(dsName, job, id), '_')) ==
            JoinOn(ResultFields(dsName, job, id), '_')
    ensures SplitOn(JoinOn(ResultFields(dsName, job, id), '_'), '_') ==
            ResultFields(dsName, job, id)
  {
    JoinedFieldsBasename(dsName, job, id);
    ResultFieldsNoUnderscore(dsName, job, id);
    SplitOnJoinOn(ResultFields(dsName, job, id), '_');
  }

  /** Under the conditions below, the base name of a result file splits on
      `_` into exactly the seven fields it was built from. */
  lemma {:induction false} OutputFileFields(job: Job, id: int)
    requires '_' !in DatasetName(job.file)
    requires '_' !in job.mutationRate && '/' !in job.mutationRate
    ensures SplitOn(Basename(OutputFile(job, id)), '_') == ResultFields(DatasetName(job.file), job, id)
  {
    DatasetNameNoSlash(job.file);
    JoinedFieldsSplit(DatasetName(job.file), job, id);
  }

  /** The base name of a result file is the joined fields, given a
      mutation rate without `/`. */
  lemma {:induction false} OutputFileBasename(job: Job, id: int)
    requires '/' !in job.mutationRate
    ensures Basename(OutputFile(job, id)) == JoinOn(ResultFields(DatasetName(job.file), job, id), '_')
  {
    DatasetNameNoSlash(job.file);
    JoinedFieldsBasename(DatasetName(job.file), job, id);
  }

  /** The second `_`-field of the joined fields is the dataset name, when
      that has no `_`, whatever the later fields hold. */
  lemma {:induction false} JoinedFieldsDataset(dsName: string, job: Job, id: int)
    requires '_' !in dsName
    ensures |SplitOn(JoinOn(ResultFields(dsName, job, id), '_'), '_')| >= 2
    ensures SplitOn(JoinOn(ResultFields(dsName, job, id), '_'), '_')[1] == dsName
  {
    var fields := ResultFields(dsName, job, id);
    var tail := JoinOn(fields[2..], '_');
    assert JoinOn(fields, '_') == "results" + ['_'] + (dsName + ['_'] + tail) by {
      assert fields[1..][1..] == fields[2..];
    }
    SplitOnField("results", '_', dsName + ['_'] + tail);
    SplitOnField(dsName, '_', tail);
  }

  /** `launch(params)` up to starting the process. A job without an `id`
      key makes `params['id']` raise `KeyError`, here `None`. Otherwise the
      command runs `main.py` on the job's file, writing the result file,
      with the job's parameters as arguments; and the result file's base
      name splits on `_` back into the fields that name the run. */
  function PlanLaunch(job: Job): (r: Option<Launch>)
    ensures r.Some? <==> job.id.Some?
    ensures r.Some? ==>
      var cmd := r.value.command;
      |cmd| == 8 && cmd[..2] == ["python", "main.py"] &&
      cmd[2] == job.file && cmd[3] == r.value.outputFile &&
      ParseInt(cmd[4]) == Some(job.populationSize) &&
      ParseInt(cmd[5]) == Some(job.generations) &&
      ParseInt(cmd[6]) == Some(job.tournamentSize) &&
      cmd[7] == job.mutationRate
    ensures r.Some? ==> |r.value.outputFile| > 7 && r.value.outputFile[..7] == "output/"
    ensures r.Some? && '/' !in job.mutationRate ==>
      r.value.outputFile == "output/" + Basename(r.value.outputFile)
    ensures r.Some? && '_' !in DatasetName(job.file) &&
            '_' !in job.mutationRate && '/' !in job.mutationRate ==>
      SplitOn(Basename(r.value.outputFile), '_') ==
      ResultFields(DatasetName(job.file), job, job.id.value)
  {
    match job.id
    case None => None
    case Some(id) =>
      var output := OutputFile(job, id);
      CommandArguments(job, output);
      assert '/' !in job.mutationRate ==> output == "output/" + Basename(output) by {
        if '/' !in job.mutationRate {
          OutputFileBasename(job, id);
        }
      }
      assert '_' !in DatasetName(job.file) && '_' !in job.mutationRate &&
             '/' !in job.mutationRate ==>
             SplitOn(Basename(output), '_') == ResultFields(DatasetName(job.file), job, id) by {
        if '_' !in DatasetName(job.file) && '_' !in job.mutationRate && '/' !in job.mutationRate {
          OutputFileFields(job, id);
        }
      }
      Some(Launch(output, Command(job, output)))
  }

  /** The command starts `main.py` on the job's dataset file and the given
      result file; the integer arguments read back, with `int()`, as the
      job's population size, generation count and tournament size, and the
      mutation rate is passed as rendered. */
  lemma {:induction false} CommandArguments(job: Job, output: string)
    ensures |Command(job, output)| == 8
    ensures Command(job, output)[..2] == ["python", "main.py"]
    ensures Command(job, output)[2] == job.file
    ensures Command(job, output)[3] == output
    ensures ParseInt(Command(job, output)[4]) == Some(job.populationSize)
    ensures ParseInt(Command(job, output)[5]) == Some(job.generations)
    ensures ParseInt(Command(job, output)[6]) == Some(job.tournamentSize)
    ensures Command(job, output)[7] == job.mutationRate
  {
    ParseIntToString(job.populationSize);
    ParseIntToString(job.generations);
    ParseIntToString(job.tournamentSize);
  }
}
