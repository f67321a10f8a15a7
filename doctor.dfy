/**
 * `yuy doctor`: the platform and the recommended quantization, the base and
 * models directories, how many models are stored and how many bytes they hold,
 * which runtimes and tools are installed, and the health summary.
 */
module Doctor {
  import opened Wrappers
  import opened Paths
  import opened Errors
  import opened Store
  import opened Machine
  import opened Config
  import opened Utils
  import opened Run
  import opened Listing

  datatype DoctorReport = DoctorReport(
    platform: Platform,
    ramGb: nat,
    recommended: string,
    yuukiDir: Path,
    modelsDir: Path,
    storage: Option<(nat, nat)>,          // model count and total size, when the models directory exists
    llama: bool,
    ollama: bool,
    dependencies: seq<(string, bool)>,   // each tool with whether it was found
    issues: seq<string>)

  /** llama.cpp counts as installed when any of its three binary names is found. */
  predicate LlamaInstalled(installed: set<string>) {
    "llama-cli" in installed || "llama" in installed || "main" in installed
  }

  /** The doctor and `run` agree on when llama.cpp is there. */
  lemma LlamaInstalledIsProbe(installed: set<string>)
    ensures LlamaInstalled(installed) <==> ProbeLlama(installed).Some?
    ensures LlamaInstalled(installed) <==> LlamaCppCommand(installed, "", None).Some?
  {
    ProbeLlamaOrder(installed);
  }

  /** The tools the doctor looks for, in the order it reports them. */
  const DEPENDENCIES: seq<string> := ["curl", "wget", "git"]

  /** Each tool with whether `command_exists` finds it. */
  function DependencyChecks(installed: set<string>): (r: seq<(string, bool)>)
    ensures |r| == |DEPENDENCIES|
    ensures forall i :: 0 <= i < |r| ==> r[i].0 == DEPENDENCIES[i] && (r[i].1 <==> DEPENDENCIES[i] in installed)
  {
    seq(|DEPENDENCIES|, i requires 0 <= i < |DEPENDENCIES| => (DEPENDENCIES[i], DEPENDENCIES[i] in installed))
  }

  /** The health summary: one issue, and only one, when no runtime is installed. */
  method HealthIssues(llama: bool, ollama: bool) returns (issues: seq<string>)
    ensures issues == [] <==> llama || ollama
    ensures issues != [] ==> issues == ["No runtime installed"]
  {
    issues := [];
    if !llama && !ollama {
      issues := issues + ["No runtime installed"];
    }
  }

  /**
   * A healthy report means `run` finds a runtime to start for some selector;
   * an unhealthy one means every selector ends in "runtime missing".
   */
  lemma HealthyIffSomeRuntime(installed: set<string>, model: string, quant: string,
                              modelPath: string, preset: Option<string>)
    ensures LlamaInstalled(installed) || "ollama" in installed
            <==> RuntimeCommand(installed, "llama-cpp", model, quant, modelPath, preset).Some?
                 || RuntimeCommand(installed, "ollama", model, quant, modelPath, preset).Some?
    ensures RuntimeCommand(installed, "llama-hf", model, quant, modelPath, preset).Some?
            ==> LlamaInstalled(installed)
  {
    ProbeLlamaOrder(installed);
  }

  /** Healthy is not enough for the default selector: with only ollama, `run` reports llama.cpp missing. */
  lemma HealthyButDefaultMissing(model: string, quant: string, modelPath: string, preset: Option<string>)
    ensures !LlamaInstalled({"ollama"}) && "ollama" in {"ollama"}
    ensures RuntimeCommand({"ollama"}, DefaultConfig().defaultRuntime.value, model, quant, modelPath, preset).None?
  {
    ProbeLlamaOrder({"ollama"});
  }

  /** What each top-level entry adds to the total: a model directory its direct contents, anything else nothing. */
  ghost function ScanWeights(t: Tree, models: Path): (w: map<string, nat>)
    ensures w.Keys == Children(t, models)
  {
    map n | n in Children(t, models) :: if t[models + [n]].Dir? then DirSize(t, models + [n]) else 0
  }

  /** The total the doctor reports: the direct contents of every model directory, nothing at the top level. */
  ghost function StoredBytes(t: Tree, models: Path): nat {
    Sum(ScanWeights(t, models), Children(t, models))
  }

  /** One for each top-level entry that is a model directory, zero for the rest. */
  function DirFlags(t: Tree, models: Path): (w: map<string, nat>)
    ensures w.Keys == Children(t, models)
  {
    map n | n in Children(t, models) :: if t[models + [n]].Dir? then 1 else 0
  }

  /** Adding up zero-or-one flags counts the names flagged. */
  lemma {:induction false} SumOfFlags(w: map<string, nat>, names: set<string>, chosen: set<string>)
    requires names <= w.Keys
    requires forall n :: n in names ==> w[n] == if n in chosen then 1 else 0
    ensures Sum(w, names) == |names * chosen|
    decreases names
  {
    if names != {} {
      var n :| n in names;
      SumPick(w, names, n);
      SumOfFlags(w, names - {n}, chosen);
      if n in chosen {
        assert names * chosen == (names - {n}) * chosen + {n};
      } else {
        assert names * chosen == (names - {n}) * chosen;
      }
    }
  }

  /** The flags add up to the number of model directories. */
  lemma FlagsCountModelDirs(t: Tree, models: Path)
    ensures Sum(DirFlags(t, models), Children(t, models)) == |ModelDirs(t, models)|
  {
    SumOfFlags(DirFlags(t, models), Children(t, models), ModelDirs(t, models));
    assert Children(t, models) * ModelDirs(t, models) == ModelDirs(t, models);
  }

  /**
   * The nested loops of `doctor`: count the model directories and add up the
   * lengths of their direct entries. Error items and failing metadata are
   * skipped; other top-level entries are not looked into.
   */
  method CountModels(t: Tree, models: Path) returns (count: nat, total: nat)
    ensures count == |ModelDirs(t, models)| && total == StoredBytes(t, models)
  {
    ghost var flags := DirFlags(t, models);
    ghost var w := ScanWeights(t, models);
    var pending := Children(t, models);
    ghost var done: set<string> := {};
    count, total := 0, 0;
    while pending != {}
      invariant pending !! done && pending + done == Children(t, models)
      invariant count == Sum(flags, done)
      invariant total == Sum(w, done)
      decreases pending
    {
      var n :| n in pending;
      SumAdd(w, done, n);
      SumAdd(flags, done, n);
      if t[models + [n]].Dir? {
        var size := TotalSize(t, models + [n]);
        count, total := count + 1, total + size;
      }
      pending := pending - {n};
      done := done + {n};
    }
    FlagsCountModelDirs(t, models);
  }

  /** The scan runs only when the models directory exists, and fails when it cannot be listed. */
  method ScanModels(t: Tree, models: Path) returns (r: Result<Option<(nat, nat)>, Error>)
    ensures !Exists(t, models) ==> r == Ok(None)
    ensures Exists(t, models) && !IsDir(t, models) ==> r == Err(CannotRead(models))
    ensures IsDir(t, models) ==> r == Ok(Some((|ModelDirs(t, models)|, StoredBytes(t, models))))
  {
    if !Exists(t, models) {
      return Ok(None);
    }
    if !IsDir(t, models) {
      return Err(CannotRead(models));
    }
    var count, total := CountModels(t, models);
    r := Ok(Some((count, total)));
  }

  /** A file at the top of the models directory is neither counted nor added up. */
  lemma TopLevelFileIgnored(t: Tree, models: Path, n: string, data: seq<Byte>)
    requires models + [n] !in t
    ensures ModelDirs(t[models + [n] := File(data)], models) == ModelDirs(t, models)
    ensures StoredBytes(t[models + [n] := File(data)], models) == StoredBytes(t, models)
  {
    var t' := t[models + [n] := File(data)];
    var w, w' := ScanWeights(t, models), ScanWeights(t', models);
    FileAddsChild(t, models, n, data);
    WeightsUnchanged(t, models, n, data);
    SumAgree(w, w', Children(t, models));
    SumAdd(w', Children(t, models), n);
  }

  /** Adding a top-level file adds a name to the listing and no model directory. */
  lemma FileAddsChild(t: Tree, models: Path, n: string, data: seq<Byte>)
    requires models + [n] !in t
    ensures ModelDirs(t[models + [n] := File(data)], models) == ModelDirs(t, models)
    ensures Children(t[models + [n] := File(data)], models) == Children(t, models) + {n}
  {
    var t' := t[models + [n] := File(data)];
    assert Children(t', models) == Children(t, models) + {n};
  }

  /** Adding a top-level file changes no model directory's weight. */
  lemma WeightsUnchanged(t: Tree, models: Path, n: string, data: seq<Byte>)
    requires models + [n] !in t
    ensures var w, w' := ScanWeights(t, models), ScanWeights(t[models + [n] := File(data)], models);
            Children(t, models) <= w'.Keys && w'[n] == 0
            && forall d :: d in Children(t, models) ==> w[d] == w'[d]
  {
    var t' := t[models + [n] := File(data)];
    var w, w' := ScanWeights(t, models), ScanWeights(t', models);
    forall d | d in Children(t, models) ensures w[d] == w'[d] {
      var q := models + [n];
      var dir := models + [d];
      assert |q| == |dir|;
      DirSizeOneLevel(t, dir, q, File(data));
    }
  }

  /** `doctor::execute`, given the machine's facts. */
  method Execute(h: Host) returns (r: Result<DoctorReport, Error>)
    requires h.Valid()
    modifies h`tree
    ensures h.Valid()
    ensures var (y, t1) := YuukiDirIn(old(h.tree), h.home);
            y.Err? ==> r == Err(y.error) && h.tree == t1
    ensures var (y, t1) := YuukiDirIn(old(h.tree), h.home);
            var (m, t2) := ModelsDirIn(t1, h.home);
            y.Ok? ==> h.tree == t2 && (m.Err? ==> r == Err(m.error))
    ensures var (y, t1) := YuukiDirIn(old(h.tree), h.home);
            var (m, t2) := ModelsDirIn(t1, h.home);
            y.Ok? && m.Ok? ==>
              (r.Err? <==> !IsDir(t2, m.value))
              && (r.Err? ==> r.error == CannotRead(m.value))
              && (r.Ok? ==> r.value.yuukiDir == y.value && r.value.modelsDir == m.value)
              && (r.Ok? ==> r.value.storage == Some((|ModelDirs(t2, m.value)|, StoredBytes(t2, m.value))))
    ensures r.Ok? ==> r.value.platform == DetectPlatform(h.os, h.prefixVar)
                      && r.value.recommended == RecommendQuantization(r.value.platform, AvailableRamGb())
                      && r.value.ramGb == AvailableRamGb()
                      && (r.value.llama <==> LlamaInstalled(h.installed))
                      && (r.value.ollama <==> "ollama" in h.installed)
                      && r.value.dependencies == DependencyChecks(h.installed)
                      && (r.value.issues == [] <==> r.value.llama || r.value.ollama)
                      && (r.value.issues != [] ==> r.value.issues == ["No runtime installed"])
  {
    var platform := DetectPlatform(h.os, h.prefixVar);
    var ram := AvailableRamGb();
    var recommended := RecommendQuantization(platform, ram);
    var yuukiDir := GetYuukiDir(h);
    if yuukiDir.Err? {
      return Err(yuukiDir.error);
    }
    var models := GetModelsDir(h);
    if models.Err? {
      return Err(models.error);
    }
    var storage := ScanModels(h.tree, models.value);
    if storage.Err? {
      return Err(storage.error);
    }
    var llama := h.CommandExists("llama-cli") || h.CommandExists("llama") || h.CommandExists("main");
    var ollama := h.CommandExists("ollama");
    var issues := HealthIssues(llama, ollama);
    r := Ok(DoctorReport(platform, ram, recommended, yuukiDir.value, models.value, storage.value,
                         llama, ollama, DependencyChecks(h.installed), issues));
  }
}
