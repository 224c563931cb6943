/**
 * Run configuration, main.py lines 50 and 56-81: the data directory, the
 * task dispatch, the dataset sizes that stand in for a step budget, and the
 * loaders' shuffle flags.
 */
module Config {
  import opened Wrappers

  /** The tasks main.py knows how to set up. */
  datatype Task = ShakespeareChar | Uspto50

  datatype ConfigError =
    | NotImplemented         // an unknown task (line 70)
    | UndefinedTestDataset   // line 80 reads `test_dataset`, which only the uspto50 branch defines

  /** The options this part of main.py reads. */
  datatype Options = Options(dataDir: string, task: string, blockSize: int, batchSize: int,
                             validateEvery: int, validateFor: int, generateFor: int)

  /** One dataset object: its task, directory, split, block size (Shakespeare only) and declared length. */
  datatype Dataset = Dataset(task: Task, dir: string, split: string, blockSize: Option<int>, size: int)

  /** The datasets a task builds; only uspto50 builds a test dataset. */
  datatype Datasets = Datasets(train: Dataset, val: Dataset, test: Option<Dataset>)

  /** One DataLoader: its dataset, batch size and shuffle flag. */
  datatype Loader = Loader(dataset: Dataset, batchSize: int, shuffle: bool)

  datatype Loaders = Loaders(train: Loader, val: Loader, test: Loader)

  /** Line 50: the data directory is the given one with the task name appended. */
  function DataDir(o: Options): (d: string)
    ensures |d| == |o.dataDir| + |o.task|
    ensures d[..|o.dataDir|] == o.dataDir && d[|o.dataDir|..] == o.task
  {
    o.dataDir + o.task
  }

  /** The task name main.py compares against. */
  function TaskName(t: Task): string
  {
    match t
    case ShakespeareChar => "shakespeare_char"
    case Uspto50 => "uspto50"
  }

  /** The dispatch of lines 56, 61 and 69-70. */
  function ResolveTask(name: string): (r: Result<Task, ConfigError>)
    ensures r.Err? ==> r.error == NotImplemented
  {
    if name == "shakespeare_char" then Ok(ShakespeareChar)
    else if name == "uspto50" then Ok(Uspto50)
    else Err(NotImplemented)
  }

  /** Exactly the two task names resolve, each to its own task. */
  lemma ResolveTaskInverse(name: string, t: Task)
    ensures ResolveTask(name) == Ok(t) <==> name == TaskName(t)
    ensures ResolveTask(TaskName(t)) == Ok(t)
  {
  }

  /** Lines 56-70: the datasets of the task, each sized `batch_size` times its iteration count. */
  function BuildDatasets(o: Options): (r: Result<Datasets, ConfigError>)
    ensures r.Ok? <==> ResolveTask(o.task).Ok?
    ensures r.Err? ==> r.error == NotImplemented
    ensures r.Ok? ==>
              r.value.train.size == o.batchSize * o.validateEvery &&
              r.value.val.size == o.batchSize * o.validateFor &&
              r.value.train.dir == DataDir(o) && r.value.val.dir == DataDir(o) &&
              r.value.train.split == "train" && r.value.val.split == "val"
    ensures r.Ok? ==> (r.value.test.Some? <==> o.task == "uspto50")
    ensures r.Ok? && r.value.test.Some? ==>
              r.value.test.value.size == o.batchSize * o.generateFor &&
              r.value.test.value.dir == DataDir(o) && r.value.test.value.split == "val"
  {
    var dir := DataDir(o);
    match ResolveTask(o.task)
    case Err(e) => Err(e)
    case Ok(ShakespeareChar) =>
      Ok(Datasets(Dataset(ShakespeareChar, dir, "train", Some(o.blockSize), o.batchSize * o.validateEvery),
                  Dataset(ShakespeareChar, dir, "val", Some(o.blockSize), o.batchSize * o.validateFor),
                  None))
    case Ok(Uspto50) =>
      Ok(Datasets(Dataset(Uspto50, dir, "train", None, o.batchSize * o.validateEvery),
                  Dataset(Uspto50, dir, "val", None, o.batchSize * o.validateFor),
                  Some(Dataset(Uspto50, dir, "val", None, o.batchSize * o.generateFor))))
  }

  /** Lines 73-81 over the given datasets: only the training loader may shuffle. */
  function LoadersOf(o: Options, train: Dataset, val: Dataset, test: Dataset): (l: Loaders)
    ensures l.train.shuffle <==> o.validateEvery < 0
    ensures !l.val.shuffle && !l.test.shuffle
    ensures l.train.dataset == train && l.val.dataset == val && l.test.dataset == test
    ensures l.train.batchSize == o.batchSize && l.val.batchSize == o.batchSize && l.test.batchSize == o.batchSize
  {
    Loaders(Loader(train, o.batchSize, o.validateEvery < 0),
            Loader(val, o.batchSize, false),
            Loader(test, o.batchSize, false))
  }

  /**
   * Lines 56-81 as written: the shakespeare_char branch builds no
   * `test_dataset`, so building the test loader fails for it.
   */
  function BuildLoaders(o: Options): (r: Result<Loaders, ConfigError>)
    ensures r.Ok? <==> o.task == "uspto50"
  {
    match BuildDatasets(o)
    case Err(e) => Err(e)
    case Ok(ds) =>
      match ds.test
      case None => Err(UndefinedTestDataset)
      case Some(test) => Ok(LoadersOf(o, ds.train, ds.val, test))
  }

  /** The shakespeare_char task never gets past line 80. */
  lemma ShakespeareHasNoTestLoader(o: Options)
    requires o.task == "shakespeare_char"
    ensures BuildLoaders(o) == Err(UndefinedTestDataset)
  {
  }

  /**
   * The datasets with a shakespeare_char test split, built as the uspto50
   * branch builds its own: the validation split sized by `generate_for`.
   */
  function BuildDatasetsFixed(o: Options): (r: Result<Datasets, ConfigError>)
    ensures r.Ok? <==> ResolveTask(o.task).Ok?
    ensures r.Ok? ==> r.value.test.Some? && r.value.test.value.size == o.batchSize * o.generateFor &&
                      r.value.test.value.split == "val" && r.value.test.value.dir == DataDir(o)
  {
    match BuildDatasets(o)
    case Err(e) => Err(e)
    case Ok(ds) =>
      if ds.test.Some? then Ok(ds)
      else Ok(ds.(test := Some(Dataset(ShakespeareChar, DataDir(o), "val", Some(o.blockSize), o.batchSize * o.generateFor))))
  }

  /** Every known task gets its three loaders; only an unknown task fails. */
  function BuildLoadersFixed(o: Options): (r: Result<Loaders, ConfigError>)
    ensures r.Ok? <==> ResolveTask(o.task).Ok?
    ensures r.Err? ==> r.error == NotImplemented
    ensures r.Ok? ==> r.value.train.dataset.size == o.batchSize * o.validateEvery &&
                      r.value.val.dataset.size == o.batchSize * o.validateFor &&
                      r.value.test.dataset.size == o.batchSize * o.generateFor
    ensures r.Ok? ==> (r.value.train.shuffle <==> o.validateEvery < 0) && !r.value.val.shuffle && !r.value.test.shuffle
  {
    match BuildDatasetsFixed(o)
    case Err(e) => Err(e)
    case Ok(ds) => Ok(LoadersOf(o, ds.train, ds.val, ds.test.value))
  }

  /** The fix changes nothing where the code as written succeeds. */
  lemma FixAgreesOnUspto50(o: Options)
    requires BuildLoaders(o).Ok?
    ensures BuildLoadersFixed(o) == BuildLoaders(o)
  {
  }
}
