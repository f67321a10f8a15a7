/**
 * `yuy run`: check the model name, that the model directory and the artifact
 * are on disk, then start the selected runtime as a child process with the
 * sampling parameters of the chosen preset.
 */
module Run {
  import opened Wrappers
  import opened Text
  import opened Paths
  import opened Errors
  import opened Store
  import opened Machine
  import opened Config

  /** The llama.cpp binaries `run` looks for, in the order it tries them. */
  const LLAMA_CANDIDATES: seq<string> := ["llama-cli", "llama", "main"]

  /** The position of the first of `cands` that is installed, if any is. */
  function FirstInstalled(cands: seq<string>, installed: set<string>): (r: Option<nat>)
    ensures r.None? <==> forall j :: 0 <= j < |cands| ==> cands[j] !in installed
    ensures r.Some? ==> r.value < |cands| && cands[r.value] in installed
                        && forall j :: 0 <= j < r.value ==> cands[j] !in installed
  {
    if cands == [] then None
    else if cands[0] in installed then Some(0)
    else match FirstInstalled(cands[1..], installed)
      case None => None
      case Some(i) => Some(i + 1)
  }

  /** The llama.cpp binary `run` starts: the first candidate `command_exists` finds. */
  function ProbeLlama(installed: set<string>): Option<string> {
    match FirstInstalled(LLAMA_CANDIDATES, installed)
    case None => None
    case Some(i) => Some(LLAMA_CANDIDATES[i])
  }

  /** Probing finds a binary iff one of the three is installed, and prefers them in order. */
  lemma ProbeLlamaOrder(installed: set<string>)
    ensures ProbeLlama(installed).Some?
            <==> "llama-cli" in installed || "llama" in installed || "main" in installed
    ensures ProbeLlama(installed).Some? ==> ProbeLlama(installed).value in installed
    ensures "llama-cli" in installed ==> ProbeLlama(installed) == Some("llama-cli")
    ensures "llama-cli" !in installed && "llama" in installed ==> ProbeLlama(installed) == Some("llama")
    ensures "llama-cli" !in installed && "llama" !in installed && "main" in installed
            ==> ProbeLlama(installed) == Some("main")
  {
    var r := FirstInstalled(LLAMA_CANDIDATES, installed);
    assert LLAMA_CANDIDATES[0] == "llama-cli" && LLAMA_CANDIDATES[1] == "llama" && LLAMA_CANDIDATES[2] == "main";
    if r.Some? {
      assert r.value == 0 || r.value == 1 || r.value == 2;
    } else {
      assert LLAMA_CANDIDATES[0] !in installed && LLAMA_CANDIDATES[1] !in installed
             && LLAMA_CANDIDATES[2] !in installed;
    }
  }

  // ---- Presets ----

  /** Temperature and top-p, both in tenths. */
  datatype Sampling = Sampling(temp: nat, topP: nat)

  /** The preset table: creative, precise, and balanced for everything else. */
  function PresetSampling(preset: Option<string>): (s: Sampling)
    ensures 0 < s.temp < s.topP < 10
  {
    if preset == Some("creative") then Sampling(8, 9)
    else if preset == Some("precise") then Sampling(3, 5)
    else Sampling(6, 7)
  }

  lemma PresetTable(preset: Option<string>)
    ensures preset == Some("creative") ==> PresetSampling(preset) == Sampling(8, 9)
    ensures preset == Some("precise") ==> PresetSampling(preset) == Sampling(3, 5)
    ensures preset !in {Some("creative"), Some("precise")} ==> PresetSampling(preset) == Sampling(6, 7)
    ensures PresetSampling(None) == PresetSampling(Some("balanced"))
  {
  }

  /** How `f64::to_string` writes a value of a whole number of tenths below one: "0.d". */
  function TenthText(n: nat): (r: string)
    requires 0 < n < 10
  {
    "0." + [DigitChar(n)]
  }

  /** The tenths a "0.d" text denotes. */
  function TenthValue(s: string): nat
    requires |s| == 3 && '0' <= s[2] <= '9'
  {
    s[2] as int - '0' as int
  }

  lemma TenthRoundTrip(n: nat)
    requires 0 < n < 10
    ensures |TenthText(n)| == 3 && TenthText(n)[..2] == "0." && '0' <= TenthText(n)[2] <= '9'
    ensures TenthValue(TenthText(n)) == n
  {
  }

  // ---- Argument vectors ----

  /** llama.cpp's interactive command line for a local artifact. */
  function LlamaCppArgs(modelPath: string, preset: Option<string>): seq<string> {
    var s := PresetSampling(preset);
    ["-m", modelPath, "--interactive", "--temp", TenthText(s.temp), "--top-p", TenthText(s.topP), "-c", "4096"]
  }

  /** llama-cli's command line streaming a model from the hub. */
  function HfArgs(reference: string, preset: Option<string>): seq<string> {
    var s := PresetSampling(preset);
    ["-hf", reference, "--temp", TenthText(s.temp), "--top-p", TenthText(s.topP), "-c", "4096"]
  }

  /** The word following the first occurrence of `flag`, as the child reads its options. */
  function FlagValue(args: seq<string>, flag: string): Option<string>
    decreases |args|
  {
    if |args| < 2 then None
    else if args[0] == flag then Some(args[1])
    else FlagValue(args[1..], flag)
  }

  /** The value of a flag is the word after its first occurrence. */
  lemma {:induction false} FlagAt(args: seq<string>, flag: string, k: nat)
    requires k + 1 < |args| && args[k] == flag
    requires forall j :: 0 <= j < k ==> args[j] != flag
    ensures FlagValue(args, flag) == Some(args[k + 1])
    decreases k
  {
    if k > 0 {
      FlagAt(args[1..], flag, k - 1);
    }
  }

  /** llama.cpp reads back the artifact path, the preset's parameters and a 4096-token context. */
  lemma LlamaCppArgsDecode(modelPath: string, preset: Option<string>)
    requires modelPath !in {"-m", "--temp", "--top-p", "-c"}
    ensures var args := LlamaCppArgs(modelPath, preset);
            FlagValue(args, "-m") == Some(modelPath)
            && FlagValue(args, "--temp") == Some(TenthText(PresetSampling(preset).temp))
            && FlagValue(args, "--top-p") == Some(TenthText(PresetSampling(preset).topP))
            && FlagValue(args, "-c") == Some("4096")
            && "--interactive" in args && |args| == 9
  {
    var args := LlamaCppArgs(modelPath, preset);
    var s := PresetSampling(preset);
    var t, p := TenthText(s.temp), TenthText(s.topP);
    assert args == ["-m", modelPath, "--interactive", "--temp", t, "--top-p", p, "-c", "4096"];
    assert t[0] == '0' && p[0] == '0';
    assert t != "--top-p" && t != "-c" && p != "-c";
    FlagAt(args, "-m", 0);
    FlagAt(args, "--temp", 3);
    FlagAt(args, "--top-p", 5);
    FlagAt(args, "-c", 7);
  }

  /** llama-cli reads back the hub reference and the preset's parameters. */
  lemma HfArgsDecode(reference: string, preset: Option<string>)
    requires reference !in {"-hf", "--temp", "--top-p", "-c", "--interactive"}
    ensures var args := HfArgs(reference, preset);
            FlagValue(args, "-hf") == Some(reference)
            && FlagValue(args, "--temp") == Some(TenthText(PresetSampling(preset).temp))
            && FlagValue(args, "--top-p") == Some(TenthText(PresetSampling(preset).topP))
            && FlagValue(args, "-c") == Some("4096")
            && "--interactive" !in args && |args| == 8
  {
    var args := HfArgs(reference, preset);
    var s := PresetSampling(preset);
    var t, p := TenthText(s.temp), TenthText(s.topP);
    assert args == ["-hf", reference, "--temp", t, "--top-p", p, "-c", "4096"];
    assert t[0] == '0' && p[0] == '0';
    assert t != "--top-p" && t != "-c" && p != "-c";
    assert t != "--interactive" && p != "--interactive";
    FlagAt(args, "-hf", 0);
    FlagAt(args, "--temp", 2);
    FlagAt(args, "--top-p", 4);
    FlagAt(args, "-c", 6);
  }

  // ---- The child each runtime starts ----

  /** `run_with_llama_cpp`: nothing when no binary is found. */
  function LlamaCppCommand(installed: set<string>, modelPath: string, preset: Option<string>): Option<Invocation> {
    match ProbeLlama(installed)
    case None => None
    case Some(program) => Some(Invocation(program, LlamaCppArgs(modelPath, preset)))
  }

  /** `run_with_ollama`: `ollama run <reference>`, nothing when ollama is missing. */
  function OllamaCommand(installed: set<string>, model: string, quant: string): Option<Invocation> {
    if "ollama" in installed then Some(Invocation("ollama", ["run", OllamaRef(model, quant)])) else None
  }

  /** `run_with_llama_hf`: only `llama-cli` itself will do; the other llama.cpp names are not tried. */
  function LlamaHfCommand(installed: set<string>, model: string, quant: string, preset: Option<string>): Option<Invocation> {
    if "llama-cli" in installed then Some(Invocation("llama-cli", HfArgs(HfRef(model, quant), preset))) else None
  }

  /**
   * What a started child means for the command: a child that cannot be started
   * is an error; an unsuccessful exit is an error only where `failIsError`.
   */
  function ChildOutcome(child: Invocation, exit: ChildExit, failIsError: bool): (r: Result<RunOutcome, Error>)
    ensures r.Err? <==> exit.NotStarted? || (failIsError && exit == Exited(false))
    ensures r.Ok? ==> r.value == Ran(child)
  {
    match exit
    case NotStarted => Err(SpawnFailed(child.program))
    case Exited(ok) => if ok || !failIsError then Ok(Ran(child)) else Err(ChildFailed(child.program))
  }

  datatype RunOutcome =
    | NotDownloaded               // the model directory is missing: a hint is printed
    | RuntimeMissing(runtime: string)  // the runtime's binary is not installed: a hint is printed
    | Ran(child: Invocation)      // the child was started and its exit accepted

  predicate IsRuntime(name: string) {
    name == "llama-cpp" || name == "llama-hf" || name == "ollama"
  }

  /** The child the selected runtime starts for an artifact that is on disk. */
  function RuntimeCommand(installed: set<string>, rt: string, model: string, quant: string,
                          modelPath: string, preset: Option<string>): Option<Invocation>
    requires IsRuntime(rt)
  {
    if rt == "llama-cpp" then LlamaCppCommand(installed, modelPath, preset)
    else if rt == "llama-hf" then LlamaHfCommand(installed, model, quant, preset)
    else OllamaCommand(installed, model, quant)
  }

  /**
   * `run::execute` on a given tree: the result, the tree afterwards and the
   * children started (at most one).
   */
  function RunIn(t: Tree, home: Option<Path>, installed: set<string>, model: string, runtime: Option<string>,
                 quant: Option<string>, preset: Option<string>, exit: ChildExit)
    : (out: (Result<RunOutcome, Error>, Tree, seq<Invocation>))
    requires WellFormed(t)
    ensures WellFormed(out.1)
    ensures |out.2| <= 1
    ensures out.2 != [] ==> IsKnownModel(model)
    ensures !IsKnownModel(model) ==> out.1 == t
  {
    if !IsKnownModel(model) then (Err(ModelNotFound(model)), t, [])
    else
      var (models, t1) := ModelsDirIn(t, home);
      if models.Err? then (Err(models.error), t1, [])
      else
        var modelDir := Join(models.value, model);
        if !Exists(t1, modelDir) then (Ok(NotDownloaded), t1, [])
        else
          var q := if quant.Some? then quant.value else "q5_k_m";
          var file := ArtifactName(model, q);
          if !ExistsAt(t1, modelDir, file) then (Err(ModelFileNotFound(file)), t1, [])
          else
            var rt := if runtime.Some? then runtime.value else "llama-cpp";
            if !IsRuntime(rt) then (Err(UnknownRuntime(rt)), t1, [])
            else
              match RuntimeCommand(installed, rt, model, q, JoinText(PathText(modelDir), file), preset)
              case None => (Ok(RuntimeMissing(rt)), t1, [])
              case Some(child) => (ChildOutcome(child, exit, rt != "ollama"), t1, [child])
  }

  /** An unknown name fails before the models directory is touched or anything is started. */
  lemma RunUnknownModel(t: Tree, home: Option<Path>, installed: set<string>, model: string, runtime: Option<string>,
                        quant: Option<string>, preset: Option<string>, exit: ChildExit)
    requires WellFormed(t) && !IsKnownModel(model)
    ensures RunIn(t, home, installed, model, runtime, quant, preset, exit) == (Err(ModelNotFound(model)), t, [])
  {
  }

  /**
   * The checks come in the order `run` makes them, after `get_models_dir` has made the
   * base and models directories if they were missing: a missing model
   * directory is not an error; a missing artifact is one, whatever runtime is
   * selected; an unknown runtime is one; and nothing is started unless all of
   * them passed. The command itself writes nothing.
   */
  lemma RunCheckOrder(t: Tree, home: Option<Path>, installed: set<string>, model: string, runtime: Option<string>,
                      quant: Option<string>, preset: Option<string>, exit: ChildExit)
    requires WellFormed(t) && IsKnownModel(model)
    ensures var (r, t', kids) := RunIn(t, home, installed, model, runtime, quant, preset, exit);
            var (models, t1) := ModelsDirIn(t, home);
            var q := if quant.Some? then quant.value else "q5_k_m";
            var file := ArtifactName(model, q);
            var rt := if runtime.Some? then runtime.value else "llama-cpp";
            t' == t1
            && (models.Err? ==> r == Err(models.error) && kids == [])
            && (models.Ok? ==>
                  var modelDir := models.value + [model];
                  (!Exists(t1, modelDir) ==> r == Ok(NotDownloaded) && kids == [])
                  && (Exists(t1, modelDir) && !ExistsAt(t1, modelDir, file) ==> r == Err(ModelFileNotFound(file)) && kids == [])
                  && (Exists(t1, modelDir) && ExistsAt(t1, modelDir, file) && !IsRuntime(rt) ==> r == Err(UnknownRuntime(rt)) && kids == [])
                  && (kids != [] ==> ExistsAt(t1, modelDir, file) && IsRuntime(rt)))
  {
    KnownModelIsPlain(model);
    var (models, t1) := ModelsDirIn(t, home);
    if models.Ok? {
      JoinPlain(models.value, model);
    }
  }

  /** On a first run, with no models directory yet, `run` is not an error and starts nothing. */
  lemma RunFirstTime(t: Tree, home: Option<Path>, installed: set<string>, model: string, runtime: Option<string>,
                     quant: Option<string>, preset: Option<string>, exit: ChildExit)
    requires WellFormed(t) && IsKnownModel(model) && home.Some?
    requires !Exists(t, ModelsDir(home.value) + [model])
    ensures var (r, t', kids) := RunIn(t, home, installed, model, runtime, quant, preset, exit);
            var (models, t1) := ModelsDirIn(t, home);
            t' == t1 && kids == [] && (models.Ok? ==> r == Ok(NotDownloaded))
  {
    RunCheckOrder(t, home, installed, model, runtime, quant, preset, exit);
    var (models, t1) := ModelsDirIn(t, home);
    if models.Ok? {
      var modelDir := models.value + [model];
      ModelsDirKeeps(t, home);
      assert !Within(models.value, modelDir);
      assert !Exists(t1, modelDir);
    }
  }

  /** The state `RunIn` reaches when every check passes: known model, directory and artifact present. */
  lemma RunReachesChild(t: Tree, home: Option<Path>, installed: set<string>, model: string, runtime: Option<string>,
                        quant: Option<string>, preset: Option<string>, exit: ChildExit)
    requires WellFormed(t)
    requires RunIn(t, home, installed, model, runtime, quant, preset, exit).2 != []
    ensures IsKnownModel(model) && home.Some?
    ensures var (models, t1) := ModelsDirIn(t, home);
            var modelDir := ModelsDir(home.value) + [model];
            var q := if quant.Some? then quant.value else "q5_k_m";
            var rt := if runtime.Some? then runtime.value else "llama-cpp";
            models == Ok(ModelsDir(home.value)) && IsRuntime(rt)
            && ExistsAt(t1, modelDir, ArtifactName(model, q))
            && var child := RuntimeCommand(installed, rt, model, q, JoinText(PathText(modelDir), ArtifactName(model, q)), preset);
               child.Some?
               && RunIn(t, home, installed, model, runtime, quant, preset, exit)
                  == (ChildOutcome(child.value, exit, rt != "ollama"), t1, [child.value])
  {
    var out := RunIn(t, home, installed, model, runtime, quant, preset, exit);
    assert IsKnownModel(model);
    var (models, t1) := ModelsDirIn(t, home);
    assert models.Ok?;
    var modelDir := Join(models.value, model);
    assert modelDir == ModelsDir(home.value) + [model] by {
      KnownModelIsPlain(model);
      JoinPlain(models.value, model);
    }
    assert Exists(t1, modelDir);
    var q := if quant.Some? then quant.value else "q5_k_m";
    var file := ArtifactName(model, q);
    assert ExistsAt(t1, modelDir, file);
    var rt := if runtime.Some? then runtime.value else "llama-cpp";
    assert IsRuntime(rt);
    var child := RuntimeCommand(installed, rt, model, q, JoinText(PathText(modelDir), file), preset);
    assert child.Some?;
    assert out == (ChildOutcome(child.value, exit, rt != "ollama"), t1, [child.value]);
  }

  /**
   * With llama.cpp the child is the first binary found, its `-m` argument,
   * looked up from the root as the child does, finds the artifact that was
   * found on disk, and its failure is an error.
   */
  lemma RunLlamaCppChild(t: Tree, home: Option<Path>, installed: set<string>, model: string, runtime: Option<string>,
                         quant: Option<string>, preset: Option<string>, exit: ChildExit)
    requires WellFormed(t) && runtime in {None, Some("llama-cpp")}
    requires home.Some? ==> forall k :: 0 <= k < |home.value| ==> IsPlainName(home.value[k])
    requires RunIn(t, home, installed, model, runtime, quant, preset, exit).2 != []
    ensures home.Some?
    ensures var (r, t', kids) := RunIn(t, home, installed, model, runtime, quant, preset, exit);
            var q := if quant.Some? then quant.value else "q5_k_m";
            var modelDir := ModelsDir(home.value) + [model];
            var artifact := Resolve(t', modelDir, ArtifactName(model, q));
            |kids| == 1 && Some(kids[0].program) == ProbeLlama(installed)
            && |kids[0].args| == 9 && kids[0].args[0] == "-m"
            && artifact.Some? && Exists(t', artifact.value)
            && Resolve(t', [], kids[0].args[1]) == artifact
            && (exit == Exited(false) ==> r == Err(ChildFailed(kids[0].program)))
  {
    RunReachesChild(t, home, installed, model, runtime, quant, preset, exit);
    var q := if quant.Some? then quant.value else "q5_k_m";
    LlamaCppChildFinds(ModelsDirIn(t, home).1, installed, home.value, model, q, preset);
  }

  /** The `-m` text of the llama.cpp child finds the artifact `run` found below the model's directory. */
  lemma LlamaCppChildFinds(t1: Tree, installed: set<string>, home: Path, model: string, quant: string, preset: Option<string>)
    requires WellFormed(t1) && IsKnownModel(model)
    requires forall k :: 0 <= k < |home| ==> IsPlainName(home[k])
    requires ExistsAt(t1, ModelsDir(home) + [model], ArtifactName(model, quant))
    ensures var modelDir := ModelsDir(home) + [model];
            var name := ArtifactName(model, quant);
            var child := LlamaCppCommand(installed, JoinText(PathText(modelDir), name), preset);
            child.Some? ==> Resolve(t1, [], child.value.args[1]) == Resolve(t1, modelDir, name)
  {
    var modelDir := ModelsDir(home) + [model];
    var name := ArtifactName(model, quant);
    LlamaCppChildShape(installed, home, model, quant, preset);
    assert name[0] != '/' by {
      KnownModelIsPlain(model);
      assert name[0] == Lower(model)[0];
    }
    ResolveNeedsDir(t1, modelDir, Split(name));
    ModelDirIsPlain(home, model);
    ResolveText(t1, modelDir, name);
  }

  /** The llama.cpp child for a model's artifact: the probed binary, and `-m` naming that artifact. */
  lemma LlamaCppChildShape(installed: set<string>, home: Path, model: string, quant: string, preset: Option<string>)
    requires forall k :: 0 <= k < |home| ==> IsPlainName(home[k])
    requires IsKnownModel(model)
    ensures var modelDir := ModelsDir(home) + [model];
            var child := LlamaCppCommand(installed, JoinText(PathText(modelDir), ArtifactName(model, quant)), preset);
            child.Some? ==> Some(child.value.program) == ProbeLlama(installed)
                            && |child.value.args| == 9 && child.value.args[0] == "-m"
                            && Join([], child.value.args[1]) == Join(modelDir, ArtifactName(model, quant))
  {
    var modelDir := ModelsDir(home) + [model];
    var text := JoinText(PathText(modelDir), ArtifactName(model, quant));
    ModelDirIsPlain(home, model);
    JoinTextResolves(modelDir, ArtifactName(model, quant));
    assert Join([], text) == Join(modelDir, ArtifactName(model, quant));
  }

  /** With ollama the child is `ollama run <reference>`, and an unsuccessful exit is accepted. */
  lemma RunOllamaChild(t: Tree, home: Option<Path>, installed: set<string>, model: string,
                       quant: Option<string>, preset: Option<string>, exit: ChildExit)
    requires WellFormed(t)
    requires RunIn(t, home, installed, model, Some("ollama"), quant, preset, exit).2 != []
    ensures var (r, _, kids) := RunIn(t, home, installed, model, Some("ollama"), quant, preset, exit);
            var q := if quant.Some? then quant.value else "q5_k_m";
            kids == [Invocation("ollama", ["run", OllamaRef(model, q)])]
            && (exit.Exited? ==> r == Ok(Ran(kids[0])))
  {
    RunReachesChild(t, home, installed, model, Some("ollama"), quant, preset, exit);
  }

  /** With llama-hf the child is `llama-cli -hf <reference> …`, and its failure is an error. */
  lemma RunLlamaHfChild(t: Tree, home: Option<Path>, installed: set<string>, model: string,
                        quant: Option<string>, preset: Option<string>, exit: ChildExit)
    requires WellFormed(t)
    requires RunIn(t, home, installed, model, Some("llama-hf"), quant, preset, exit).2 != []
    ensures var (r, _, kids) := RunIn(t, home, installed, model, Some("llama-hf"), quant, preset, exit);
            var q := if quant.Some? then quant.value else "q5_k_m";
            kids == [Invocation("llama-cli", HfArgs(HfRef(model, q), preset))]
            && (exit == Exited(false) ==> r == Err(ChildFailed("llama-cli")))
  {
    RunReachesChild(t, home, installed, model, Some("llama-hf"), quant, preset, exit);
  }

  // ---- The command on a host ----

  method RunChildOn(h: Host, child: Invocation, exit: ChildExit, failIsError: bool) returns (r: Result<RunOutcome, Error>)
    modifies h`spawned
    ensures h.spawned == old(h.spawned) + [child]
    ensures r == ChildOutcome(child, exit, failIsError)
  {
    h.spawned := h.spawned + [child];
    match exit {
      case NotStarted =>
        return Err(SpawnFailed(child.program));
      case Exited(ok) =>
        if !ok && failIsError {
          return Err(ChildFailed(child.program));
        }
    }
    r := Ok(Ran(child));
  }

  method RunWithLlamaCpp(h: Host, modelPath: string, preset: Option<string>, exit: ChildExit)
    returns (r: Result<RunOutcome, Error>)
    modifies h`spawned
    ensures match LlamaCppCommand(h.installed, modelPath, preset)
            case None => r == Ok(RuntimeMissing("llama-cpp")) && h.spawned == old(h.spawned)
            case Some(child) => r == ChildOutcome(child, exit, true) && h.spawned == old(h.spawned) + [child]
  {
    var program: string;
    if h.CommandExists("llama-cli") {
      program := "llama-cli";
    } else if h.CommandExists("llama") {
      program := "llama";
    } else if h.CommandExists("main") {
      program := "main";
    } else {
      ProbeLlamaOrder(h.installed);
      return Ok(RuntimeMissing("llama-cpp"));
    }
    ProbeLlamaOrder(h.installed);
    r := RunChildOn(h, Invocation(program, LlamaCppArgs(modelPath, preset)), exit, true);
  }

  method RunWithOllama(h: Host, model: string, quant: string, exit: ChildExit) returns (r: Result<RunOutcome, Error>)
    modifies h`spawned
    ensures match OllamaCommand(h.installed, model, quant)
            case None => r == Ok(RuntimeMissing("ollama")) && h.spawned == old(h.spawned)
            case Some(child) => r == ChildOutcome(child, exit, false) && h.spawned == old(h.spawned) + [child]
  {
    if !h.CommandExists("ollama") {
      return Ok(RuntimeMissing("ollama"));
    }
    var reference := OllamaRef(model, quant);
    r := RunChildOn(h, Invocation("ollama", ["run", reference]), exit, false);
  }

  method RunWithLlamaHf(h: Host, model: string, quant: string, preset: Option<string>, exit: ChildExit)
    returns (r: Result<RunOutcome, Error>)
    modifies h`spawned
    ensures match LlamaHfCommand(h.installed, model, quant, preset)
            case None => r == Ok(RuntimeMissing("llama-hf")) && h.spawned == old(h.spawned)
            case Some(child) => r == ChildOutcome(child, exit, true) && h.spawned == old(h.spawned) + [child]
  {
    if !h.CommandExists("llama-cli") {
      return Ok(RuntimeMissing("llama-hf"));
    }
    var reference := HfRef(model, quant);
    r := RunChildOn(h, Invocation("llama-cli", HfArgs(reference, preset)), exit, true);
  }

  /** `run::execute`. */
  method Execute(h: Host, model: string, runtime: Option<string>, quant: Option<string>,
                 preset: Option<string>, exit: ChildExit) returns (r: Result<RunOutcome, Error>)
    requires h.Valid()
    modifies h`tree, h`spawned
    ensures h.Valid()
    ensures var (res, t, kids) := RunIn(old(h.tree), h.home, h.installed, model, runtime, quant, preset, exit);
            r == res && h.tree == t && h.spawned == old(h.spawned) + kids
  {
    if !IsKnownModel(model) {
      return Err(ModelNotFound(model));
    }
    var models := GetModelsDir(h);
    if models.Err? {
      return Err(models.error);
    }
    var modelDir := Join(models.value, model);
    if !Exists(h.tree, modelDir) {
      return Ok(NotDownloaded);
    }
    var q := if quant.Some? then quant.value else "q5_k_m";
    var file := ArtifactName(model, q);
    if !ExistsAt(h.tree, modelDir, file) {
      return Err(ModelFileNotFound(file));
    }
    var rt := if runtime.Some? then runtime.value else "llama-cpp";
    r := StartRuntime(h, rt, model, q, JoinText(PathText(modelDir), file), preset, exit);
  }

  /** The `match` on the runtime name at the end of `run::execute`. */
  method StartRuntime(h: Host, rt: string, model: string, quant: string, modelPath: string,
                      preset: Option<string>, exit: ChildExit) returns (r: Result<RunOutcome, Error>)
    modifies h`spawned
    ensures !IsRuntime(rt) ==> r == Err(UnknownRuntime(rt)) && h.spawned == old(h.spawned)
    ensures IsRuntime(rt) ==>
              match RuntimeCommand(h.installed, rt, model, quant, modelPath, preset)
              case None => r == Ok(RuntimeMissing(rt)) && h.spawned == old(h.spawned)
              case Some(child) => r == ChildOutcome(child, exit, rt != "ollama") && h.spawned == old(h.spawned) + [child]
  {
    if rt == "llama-cpp" {
      r := RunWithLlamaCpp(h, modelPath, preset, exit);
    } else if rt == "llama-hf" {
      r := RunWithLlamaHf(h, model, quant, preset, exit);
    } else if rt == "ollama" {
      r := RunWithOllama(h, model, quant, exit);
    } else {
      r := Err(UnknownRuntime(rt));
    }
  }
}
