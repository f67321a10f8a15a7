/**
 * The registry of known models and quantization tags, the names and URLs built
 * from them, the per-user directory layout (created on first use) and the
 * persisted preferences.
 */
module Config {
  import opened Wrappers
  import opened Text
  import opened Paths
  import opened Errors
  import opened Store
  import opened Machine

  const YUUKI_MODELS: seq<string> := ["Yuuki-best", "Yuuki-3.7", "Yuuki-v0.1"]
  const HF_ORG: string := "OpceanAI"
  const AVAILABLE_QUANTS: seq<string> := ["q4_0", "q4_k_m", "q5_k_m", "q8_0", "f32"]
  const OLLAMA_ORG: string := "aguitachan3"
  const HUB: string := "https://huggingface.co"

  /** `YUUKI_MODELS.contains(&model)`: exact, case-sensitive membership. */
  predicate IsKnownModel(name: string) {
    name in YUUKI_MODELS
  }

  lemma KnownModels(name: string)
    ensures IsKnownModel(name) <==> name == "Yuuki-best" || name == "Yuuki-3.7" || name == "Yuuki-v0.1"
    ensures !IsKnownModel(Lower(name))
  {
    assert forall m :: m in YUUKI_MODELS ==> |m| > 0 && m[0] == 'Y';
    if |name| > 0 {
      assert Lower(name)[0] == LowerChar(name[0]) != 'Y';
    }
  }

  /** Every registry tag is a plain name, so an artifact named after one stays in its directory. */
  lemma QuantIsPlain(q: string)
    requires q in AVAILABLE_QUANTS
    ensures '/' !in q && IsPlainName(q)
  {
    assert q == "q4_0" || q == "q4_k_m" || q == "q5_k_m" || q == "q8_0" || q == "f32";
  }

  /** A known model's directory is exactly one component below the models directory. */
  lemma KnownModelIsPlain(name: string)
    requires IsKnownModel(name)
    ensures IsPlainName(name) && IsPlainName(Lower(name))
  {
    var l := Lower(name);
    assert l == "yuuki-best" || l == "yuuki-3.7" || l == "yuuki-v0.1";
  }

  // ---- Names and URLs ----

  /** The artifact file for a model and quantization: `<model-lowercased>-<quant>.gguf`. */
  function ArtifactName(model: string, quant: string): string {
    Lower(model) + "-" + quant + ".gguf"
  }

  /** The quantization an artifact name was built from, for a given model. */
  function QuantOf(model: string, file: string): string
    requires |Lower(model)| + 6 <= |file|
  {
    file[|Lower(model)| + 1..|file| - 5]
  }

  /** An artifact name always carries the `.gguf` suffix and gives its quantization back. */
  lemma ArtifactNameRoundTrip(model: string, quant: string)
    ensures EndsWith(ArtifactName(model, quant), ".gguf")
    ensures StartsWith(ArtifactName(model, quant), Lower(model) + "-")
    ensures |Lower(model)| + 6 <= |ArtifactName(model, quant)|
    ensures QuantOf(model, ArtifactName(model, quant)) == quant
  {
    var a := ArtifactName(model, quant);
    assert a[|a| - 5..] == ".gguf";
    assert a[..|Lower(model)| + 1] == Lower(model) + "-";
    assert a[|Lower(model)| + 1..|a| - 5] == quant;
  }

  /** Different quantizations of one model never share a file. */
  lemma ArtifactNameInjective(model: string, q1: string, q2: string)
    requires ArtifactName(model, q1) == ArtifactName(model, q2)
    ensures q1 == q2
  {
    ArtifactNameRoundTrip(model, q1);
    ArtifactNameRoundTrip(model, q2);
  }

  /** An artifact name is one plain path component unless the quantization holds a '/'. */
  lemma ArtifactNameIsPlain(model: string, quant: string)
    requires IsKnownModel(model) && '/' !in quant
    ensures IsPlainName(ArtifactName(model, quant))
  {
    KnownModelIsPlain(model);
    var a := ArtifactName(model, quant);
    assert |a| >= 6;
    forall i | 0 <= i < |a| ensures a[i] != '/' {
      if i < |Lower(model)| {
        assert a[i] == Lower(model)[i];
      } else if i == |Lower(model)| {
      } else if i < |Lower(model)| + 1 + |quant| {
        assert a[i] == quant[i - |Lower(model)| - 1];
      } else {
        assert a[i] == ".gguf"[i - |Lower(model)| - 1 - |quant|];
      }
    }
  }

  /** The model's page on the hub. */
  function RepoUrl(model: string): string {
    HUB + "/" + HF_ORG + "/" + model
  }

  /** Where the hub serves an artifact: `<hub>/<org>/<model>/resolve/main/<artifact>`. */
  function ArtifactUrl(model: string, quant: string): string {
    RepoUrl(model) + "/resolve/main/" + ArtifactName(model, quant)
  }

  /** The URL splits back into the hub, the organisation, the model and the artifact name. */
  lemma ArtifactUrlSegments(model: string, quant: string)
    requires IsKnownModel(model) && '/' !in quant
    ensures Split(ArtifactUrl(model, quant))
         == Split(HUB) + [HF_ORG, model, "resolve", "main", ArtifactName(model, quant)]
  {
    var a := ArtifactName(model, quant);
    assert '/' !in model && '/' !in a by {
      KnownModelIsPlain(model);
      ArtifactNameIsPlain(model, quant);
    }
    var tail := HF_ORG + "/" + (model + "/" + ("resolve" + "/" + ("main" + "/" + a)));
    UrlRegroup(HUB, HF_ORG, model, a);
    assert ArtifactUrl(model, quant) == HUB + "/" + tail;
    assert Split(tail) == [HF_ORG, model, "resolve", "main", a] by { RepoSegments(model, a); }
    SplitConcat(HUB, tail);
  }

  lemma UrlRegroup(h: string, o: string, m: string, a: string)
    ensures h + "/" + o + "/" + m + "/resolve/main/" + a
         == h + "/" + (o + "/" + (m + "/" + ("resolve" + "/" + ("main" + "/" + a))))
  {
    assert "/resolve/main/" == "/" + "resolve" + "/" + "main" + "/";
    var inner := "resolve" + "/" + ("main" + "/" + a);
    assert "/resolve/main/" + a == "/" + inner;
    assert m + "/resolve/main/" + a == m + "/" + inner;
    assert o + "/" + m + "/resolve/main/" + a == o + "/" + (m + "/" + inner);
  }

  lemma RepoSegments(model: string, a: string)
    requires '/' !in model && '/' !in a
    ensures Split(HF_ORG + "/" + (model + "/" + ("resolve" + "/" + ("main" + "/" + a))))
         == [HF_ORG, model, "resolve", "main", a]
  {
    SplitNoSeparator(a);
    SplitAtSeparator("main", a);
    SplitAtSeparator("resolve", "main" + "/" + a);
    SplitAtSeparator(model, "resolve" + "/" + ("main" + "/" + a));
    SplitAtSeparator(HF_ORG, model + "/" + ("resolve" + "/" + ("main" + "/" + a)));
  }

  /** The Ollama model reference: `<ollama-org>/<model-lowercased>:<quant>`. */
  function OllamaRef(model: string, quant: string): string {
    OLLAMA_ORG + "/" + Lower(model) + ":" + quant
  }

  /** The hub reference llama.cpp streams from: `<org>/<model>:<QUANT>`. */
  function HfRef(model: string, quant: string): string {
    HF_ORG + "/" + model + ":" + Upper(quant)
  }

  lemma OllamaRefExample()
    ensures OllamaRef("Yuuki-best", "f32") == "aguitachan3/yuuki-best:f32"
  {
    assert Lower("Yuuki-best") == "yuuki-best";
  }

  lemma HfRefExample()
    ensures HfRef("Yuuki-best", "f32") == "OpceanAI/Yuuki-best:F32"
  {
    assert Upper("f32") == "F32";
  }

  lemma RepoUrlExample()
    ensures RepoUrl("Yuuki-best") == "https://huggingface.co/OpceanAI/Yuuki-best"
  {
    assert HUB + "/" + HF_ORG == "https://huggingface.co/OpceanAI";
  }

  lemma ArtifactUrlExample()
    ensures ArtifactUrl("Yuuki-best", "q4_0")
         == "https://huggingface.co/OpceanAI/Yuuki-best/resolve/main/yuuki-best-q4_0.gguf"
  {
    assert Lower("Yuuki-best") == "yuuki-best";
    RepoUrlExample();
    assert ArtifactName("Yuuki-best", "q4_0") == "yuuki-best-q4_0.gguf";
    assert RepoUrl("Yuuki-best") + "/resolve/main/" == "https://huggingface.co/OpceanAI/Yuuki-best/resolve/main/";
    assert "https://huggingface.co/OpceanAI/Yuuki-best/resolve/main/" + "yuuki-best-q4_0.gguf"
        == "https://huggingface.co/OpceanAI/Yuuki-best/resolve/main/yuuki-best-q4_0.gguf";
  }

  // ---- Preferences ----

  datatype Config = Config(hfToken: Option<string>, defaultRuntime: Option<string>, defaultQuant: Option<string>)

  /** `Config::default()`. */
  function DefaultConfig(): Config {
    Config(None, Some("llama-cpp"), Some("q5_k_m"))
  }

  /** The defaults name no token, a runtime `run` accepts and a tag of the registry. */
  lemma DefaultConfigIsUsable()
    ensures DefaultConfig().hfToken.None?
    ensures DefaultConfig().defaultRuntime.Some? && DefaultConfig().defaultRuntime.value in {"llama-cpp", "llama-hf", "ollama"}
    ensures DefaultConfig().defaultQuant.Some? && DefaultConfig().defaultQuant.value in AVAILABLE_QUANTS
  {
  }

  // The file holds a self-delimiting byte encoding of the three fields: each
  // character as three bytes (its code point, high byte first, at most 0x10),
  // a string closed by 0xFF, a field opened by 0 (absent) or 1 (present).

  function EncodeChar(c: char): seq<Byte> {
    var v := c as int;
    [v / 65536, (v % 65536) / 256, v % 256]
  }

  function EncodeText(s: string): seq<Byte> {
    if s == [] then [255] else EncodeChar(s[0]) + EncodeText(s[1..])
  }

  function EncodeField(f: Option<string>): seq<Byte> {
    match f
    case None => [0]
    case Some(s) => [1] + EncodeText(s)
  }

  function Encode(c: Config): seq<Byte> {
    EncodeField(c.hfToken) + EncodeField(c.defaultRuntime) + EncodeField(c.defaultQuant)
  }

  function DecodeText(b: seq<Byte>): Option<(string, seq<Byte>)>
    decreases |b|
  {
    if b == [] then None
    else if b[0] == 255 then Some(("", b[1..]))
    else if |b| < 3 || b[0] > 16 then None
    else
      var v := b[0] as int * 65536 + b[1] as int * 256 + b[2] as int;
      if 0xD800 <= v < 0xE000 then None
      else
        match DecodeText(b[3..])
        case None => None
        case Some((s, rest)) => Some(([v as char] + s, rest))
  }

  function DecodeField(b: seq<Byte>): Option<(Option<string>, seq<Byte>)> {
    if b == [] then None
    else if b[0] == 0 then Some((None, b[1..]))
    else if b[0] == 1 then
      match DecodeText(b[1..])
      case None => None
      case Some((s, rest)) => Some((Some(s), rest))
    else None
  }

  function Decode(b: seq<Byte>): Option<Config> {
    match DecodeField(b)
    case None => None
    case Some((token, b1)) =>
      match DecodeField(b1)
      case None => None
      case Some((runtime, b2)) =>
        match DecodeField(b2)
        case None => None
        case Some((quant, b3)) => if b3 == [] then Some(Config(token, runtime, quant)) else None
  }

  lemma EncodeCharBytes(c: char)
    ensures var b := EncodeChar(c); b[0] <= 16 && b[0] as int * 65536 + b[1] as int * 256 + b[2] as int == c as int
  {
    var v := c as int;
    assert v == (v / 65536) * 65536 + v % 65536;
    assert v % 65536 == ((v % 65536) / 256) * 256 + (v % 65536) % 256;
    assert (v % 65536) % 256 == v % 256;
  }

  lemma {:induction false} DecodeEncodeText(s: string, rest: seq<Byte>)
    ensures DecodeText(EncodeText(s) + rest) == Some((s, rest))
  {
    if s == [] {
      assert (EncodeText(s) + rest)[1..] == rest;
    } else {
      var b := EncodeText(s) + rest;
      EncodeCharBytes(s[0]);
      assert b[3..] == EncodeText(s[1..]) + rest;
      DecodeEncodeText(s[1..], rest);
      assert [s[0]] + s[1..] == s;
    }
  }

  lemma DecodeEncodeField(f: Option<string>, rest: seq<Byte>)
    ensures DecodeField(EncodeField(f) + rest) == Some((f, rest))
  {
    var b := EncodeField(f) + rest;
    match f
    case None =>
      assert b[1..] == rest;
    case Some(s) =>
      assert b[1..] == EncodeText(s) + rest;
      DecodeEncodeText(s, rest);
  }

  /** What is written is what is read back. */
  lemma DecodeEncode(c: Config)
    ensures Decode(Encode(c)) == Some(c)
  {
    var e2 := EncodeField(c.defaultQuant);
    var e1 := EncodeField(c.defaultRuntime) + e2;
    assert Encode(c) == EncodeField(c.hfToken) + e1;
    DecodeEncodeField(c.hfToken, e1);
    DecodeEncodeField(c.defaultRuntime, e2);
    assert e2 == e2 + [];
    DecodeEncodeField(c.defaultQuant, []);
  }

  // ---- The per-user directory layout ----

  function YuukiDir(home: Path): Path {
    home + [".yuuki"]
  }

  function ModelsDir(home: Path): Path {
    YuukiDir(home) + ["models"]
  }

  function ConfigPath(home: Path): Path {
    YuukiDir(home) + ["config.toml"]
  }

  /** The models directory and the configuration file are separate entries of the base directory. */
  lemma LayoutIsDisjoint(home: Path)
    ensures Parent(ModelsDir(home)) == YuukiDir(home) && Parent(ConfigPath(home)) == YuukiDir(home)
    ensures !Within(ConfigPath(home), ModelsDir(home)) && !Within(ModelsDir(home), ConfigPath(home))
  {
    assert ConfigPath(home)[|home| + 1] != ModelsDir(home)[|home| + 1];
  }

  /** Below a home of plain components, a model's directory is made of plain components only. */
  lemma ModelDirIsPlain(home: Path, model: string)
    requires forall k :: 0 <= k < |home| ==> IsPlainName(home[k])
    requires IsKnownModel(model)
    ensures var d := ModelsDir(home) + [model];
            |d| == |home| + 3 && forall k :: 0 <= k < |d| ==> IsPlainName(d[k])
  {
    var d := ModelsDir(home) + [model];
    KnownModelIsPlain(model);
    assert IsPlainName(".yuuki") && IsPlainName("models");
    forall k | 0 <= k < |d| ensures IsPlainName(d[k]) {
      if k < |home| {
        assert d[k] == home[k];
      } else if k == |home| {
        assert d[k] == ".yuuki";
      } else if k == |home| + 1 {
        assert d[k] == "models";
      } else {
        assert d[k] == model;
      }
    }
  }

  /** `get_yuuki_dir` on a given tree: the path it returns and the tree it leaves. */
  function YuukiDirIn(t: Tree, home: Option<Path>): (out: (Result<Path, Error>, Tree))
    requires WellFormed(t)
    ensures WellFormed(out.1)
    ensures home.None? ==> out == (Err(NoHomeDirectory), t)
    ensures out.0.Ok? ==> home.Some? && out.0.value == YuukiDir(home.value) && Exists(out.1, out.0.value)
    ensures out.0.Err? ==> out.1 == t
    ensures home.Some? && Exists(t, YuukiDir(home.value)) ==> out == (Ok(YuukiDir(home.value)), t)
  {
    match home
    case None => (Err(NoHomeDirectory), t)
    case Some(hm) =>
      match EnsureDir(t, YuukiDir(hm))
      case Err(e) => (Err(e), t)
      case Ok(t') => (Ok(YuukiDir(hm)), t')
  }

  /** `get_models_dir` on a given tree: it first ensures the base directory. */
  function ModelsDirIn(t: Tree, home: Option<Path>): (out: (Result<Path, Error>, Tree))
    requires WellFormed(t)
    ensures WellFormed(out.1)
    ensures home.None? ==> out == (Err(NoHomeDirectory), t)
    ensures out.0.Ok? ==> home.Some? && out.0.value == ModelsDir(home.value)
                          && Exists(out.1, YuukiDir(home.value)) && Exists(out.1, out.0.value)
    ensures home.Some? && Exists(t, YuukiDir(home.value)) && Exists(t, ModelsDir(home.value))
            ==> out == (Ok(ModelsDir(home.value)), t)
  {
    var (base, t1) := YuukiDirIn(t, home);
    match base
    case Err(e) => (Err(e), t1)
    case Ok(b) =>
      match EnsureDir(t1, b + ["models"])
      case Err(e) => (Err(e), t1)
      case Ok(t2) =>
        assert Exists(t2, b) by {
          assert Within(b + ["models"], b);
        }
        (Ok(b + ["models"]), t2)
  }

  /**
   * `get_models_dir` only adds directories on the way to the models
   * directory: every entry already there is kept as it was.
   */
  lemma ModelsDirKeeps(t: Tree, home: Option<Path>)
    requires WellFormed(t)
    ensures var t1 := ModelsDirIn(t, home).1;
            (forall q :: q in t ==> q in t1 && t1[q] == t[q])
            && (forall q :: q in t1 && q !in t ==> home.Some? && Within(ModelsDir(home.value), q) && t1[q] == Dir)
  {
    var (base, t1) := YuukiDirIn(t, home);
    if base.Ok? {
      var b := base.value;
      assert forall q :: Within(b, q) ==> Within(b + ["models"], q) by {
        forall q | Within(b, q) ensures Within(b + ["models"], q) {
          assert (b + ["models"])[..|q|] == b[..|q|];
        }
      }
    }
  }

  /** Asking for the directories a second time returns the same path and creates nothing. */
  lemma ModelsDirIdempotent(t: Tree, home: Option<Path>)
    requires WellFormed(t)
    ensures var (r, t1) := ModelsDirIn(t, home); r.Ok? ==> ModelsDirIn(t1, home) == (r, t1)
  {
  }

  /** The configuration as `load_config` reads it from an existing path. */
  function ReadConfig(t: Tree, p: Path): (r: Result<Config, Error>) {
    if p in t && t[p].File? then
      match Decode(t[p].data)
      case Some(c) => Ok(c)
      case None => Err(MalformedConfig(p))
    else Err(CannotRead(p))
  }

  /** A configuration written to a path is the one read back from it. */
  lemma SaveThenRead(t: Tree, p: Path, c: Config)
    requires WriteFile(t, p, Encode(c)).Ok?
    ensures ReadConfig(WriteFile(t, p, Encode(c)).value, p) == Ok(c)
  {
    DecodeEncode(c);
  }

  /** `save_config` on a given tree: the whole file is replaced by the encoding of `c`. */
  function SaveConfigIn(t: Tree, home: Option<Path>, c: Config): (out: (Result<(), Error>, Tree))
    requires WellFormed(t)
    ensures WellFormed(out.1)
    ensures out.0.Ok? ==> home.Some? && ReadConfig(out.1, ConfigPath(home.value)) == Ok(c)
  {
    var (base, t1) := YuukiDirIn(t, home);
    if base.Err? then (Err(base.error), t1)
    else
      match WriteFile(t1, ConfigPath(home.value), Encode(c))
      case Err(e) => (Err(e), t1)
      case Ok(t2) =>
        SaveThenRead(t1, ConfigPath(home.value), c);
        (Ok(()), t2)
  }

  /**
   * `load_config` on a given tree: a missing file is first saved with the
   * defaults, which are returned; an existing one is read and decoded.
   */
  function LoadConfigIn(t: Tree, home: Option<Path>): (out: (Result<Config, Error>, Tree))
    requires WellFormed(t)
    ensures WellFormed(out.1)
    ensures out.0.Ok? ==> home.Some? && ReadConfig(out.1, ConfigPath(home.value)) == out.0
  {
    var (base, t1) := YuukiDirIn(t, home);
    if base.Err? then (Err(base.error), t1)
    else if Exists(t1, ConfigPath(home.value)) then (ReadConfig(t1, ConfigPath(home.value)), t1)
    else
      match SaveConfigIn(t1, home, DefaultConfig())
      case (Err(e), t2) => (Err(e), t2)
      case (Ok(_), t2) => (Ok(DefaultConfig()), t2)
  }

  /** Loading with no file returns the defaults and leaves them on disk for the next load. */
  lemma LoadPersistsDefault(t: Tree, home: Option<Path>)
    requires WellFormed(t)
    requires home.Some? && !Exists(t, ConfigPath(home.value))
    ensures var (r, t') := LoadConfigIn(t, home);
            r.Ok? ==> r.value == DefaultConfig() && LoadConfigIn(t', home) == (Ok(DefaultConfig()), t')
  {
    var (base, t1) := YuukiDirIn(t, home);
    var p := ConfigPath(home.value);
    if base.Ok? {
      BaseDirKeepsConfig(t, home.value);
      var w := WriteFile(t1, p, Encode(DefaultConfig()));
      if w.Ok? {
        assert LoadConfigIn(t, home) == (Ok(DefaultConfig()), w.value) by {
          assert SaveConfigIn(t1, home, DefaultConfig()) == (Ok(()), w.value);
        }
        LoadWritten(t1, home.value, DefaultConfig());
      }
    }
  }

  /** Making the base directory never creates the configuration file. */
  lemma BaseDirKeepsConfig(t: Tree, home: Path)
    requires WellFormed(t)
    ensures var t1 := YuukiDirIn(t, Some(home)).1;
            Exists(t1, ConfigPath(home)) <==> Exists(t, ConfigPath(home))
  {
    var p := ConfigPath(home);
    assert !Within(YuukiDir(home), p);
  }

  /** A configuration file just written next to an existing base directory loads back. */
  lemma LoadWritten(t1: Tree, home: Path, c: Config)
    requires WellFormed(t1) && Exists(t1, YuukiDir(home))
    requires WriteFile(t1, ConfigPath(home), Encode(c)).Ok?
    ensures var t2 := WriteFile(t1, ConfigPath(home), Encode(c)).value;
            LoadConfigIn(t2, Some(home)) == (Ok(c), t2)
  {
    var t2 := WriteFile(t1, ConfigPath(home), Encode(c)).value;
    SaveThenRead(t1, ConfigPath(home), c);
    assert Exists(t2, YuukiDir(home));
    assert Exists(t2, ConfigPath(home));
  }

  /** Saving and then loading gives back the saved preferences and writes nothing more. */
  lemma SaveThenLoad(t: Tree, home: Option<Path>, c: Config)
    requires WellFormed(t)
    requires SaveConfigIn(t, home, c).0.Ok?
    ensures var t' := SaveConfigIn(t, home, c).1; LoadConfigIn(t', home) == (Ok(c), t')
  {
    var (base, t1) := YuukiDirIn(t, home);
    SaveThenRead(t1, ConfigPath(home.value), c);
    var t' := SaveConfigIn(t, home, c).1;
    assert Exists(t', YuukiDir(home.value));
    assert Exists(t', ConfigPath(home.value));
  }

  method GetYuukiDir(h: Host) returns (r: Result<Path, Error>)
    requires h.Valid()
    modifies h`tree
    ensures h.Valid()
    ensures (r, h.tree) == YuukiDirIn(old(h.tree), h.home)
  {
    var out := YuukiDirIn(h.tree, h.home);
    h.tree := out.1;
    r := out.0;
  }

  method GetModelsDir(h: Host) returns (r: Result<Path, Error>)
    requires h.Valid()
    modifies h`tree
    ensures h.Valid()
    ensures (r, h.tree) == ModelsDirIn(old(h.tree), h.home)
  {
    var base := GetYuukiDir(h);
    if base.Err? {
      return Err(base.error);
    }
    var models := base.value + ["models"];
    if !Exists(h.tree, models) {
      var made := MakeDirs(h.tree, models);
      if made.Err? {
        return Err(made.error);
      }
      MakeDirsWellFormed(h.tree, models);
      h.tree := made.value;
    }
    r := Ok(models);
  }

  method GetConfigPath(h: Host) returns (r: Result<Path, Error>)
    requires h.Valid()
    modifies h`tree
    ensures h.Valid()
    ensures var (base, t) := YuukiDirIn(old(h.tree), h.home);
            h.tree == t && (base.Err? ==> r == Err(base.error))
            && (base.Ok? ==> r == Ok(ConfigPath(h.home.value)))
  {
    var base := GetYuukiDir(h);
    if base.Err? {
      return Err(base.error);
    }
    r := Ok(base.value + ["config.toml"]);
  }

  method SaveConfig(h: Host, c: Config) returns (r: Result<(), Error>)
    requires h.Valid()
    modifies h`tree
    ensures h.Valid()
    ensures (r, h.tree) == SaveConfigIn(old(h.tree), h.home, c)
  {
    var path := GetConfigPath(h);
    if path.Err? {
      return Err(path.error);
    }
    var w := WriteFile(h.tree, path.value, Encode(c));
    if w.Err? {
      return Err(w.error);
    }
    h.tree := w.value;
    r := Ok(());
  }

  method LoadConfig(h: Host) returns (r: Result<Config, Error>)
    requires h.Valid()
    modifies h`tree
    ensures h.Valid()
    ensures (r, h.tree) == LoadConfigIn(old(h.tree), h.home)
  {
    var path := GetConfigPath(h);
    if path.Err? {
      return Err(path.error);
    }
    assert YuukiDirIn(h.tree, h.home) == (Ok(YuukiDir(h.home.value)), h.tree);
    if !Exists(h.tree, path.value) {
      var config := DefaultConfig();
      var saved := SaveConfig(h, config);
      if saved.Err? {
        return Err(saved.error);
      }
      return Ok(config);
    }
    r := ReadConfig(h.tree, path.value);
  }
}
