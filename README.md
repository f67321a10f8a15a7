# yuy — a verified model of the command logic

`yuy` is a command-line manager for the Yuuki language models. It downloads
quantized `.gguf` artifacts from the Hugging Face hub into `~/.yuuki/models/<model>/`.
It lists, describes and removes them. It starts a local inference runtime
(llama.cpp, llama-cli streaming from the hub, or ollama) on one of them. It checks
the health of the installation, and it installs a runtime with the platform's
package manager.

This project models the decision logic of those commands in Dafny and proves
properties about it:

- **Filesystem.** The filesystem is a map from paths (sequences of components)
  to nodes. A node is a directory, a file with its bytes, an entry that
  `read_dir` yields as an error item, or an entry whose metadata cannot be read
  (`Store`). Where a user-supplied name is joined to a directory, the model
  looks the joined path up as Linux and macOS do (`Store.Resolve`). The lookup
  goes one component at a time. `..` climbs only out of a directory that
  exists, and a missing component means the path names nothing. `remove
  nope/..` therefore finds nothing when `nope` is not there. `Paths.Join` is
  the text-level reading, which agrees with the lookup wherever the lookup
  succeeds.
- **The machine.** The user's machine is the class `Machine.Host`. Its fields
  are the filesystem tree, the child processes started and the URLs requested.
  It also holds the home directory, the OS name, the `PREFIX` variable and the
  set of commands `which` finds.
- **Commands.** Each command is a method on the host. The method is proved equal
  to a pure function of the old state (`RunIn`, `DownloadIn`, `RemoveIn`, the
  configuration functions). Where the command's loops depend on the order in
  which `read_dir` yields entries (`list`, `info`, `doctor`), the method is
  proved against set-based definitions of what it shows, counts or adds up.
- **Outside inputs.** What the program receives from outside is a parameter:
  - the line typed at a prompt;
  - the hub's reply (status, declared length and the chunk stream, including a
    chunk error);
  - how a child process ended (started and succeeded, started and failed, or
    could not be started).
- **Configuration.** The configuration file is a byte encoding of the three
  preferences, with a proved round trip, in place of TOML.

Modules, in dependency order: `Wrappers`, `Text`, `Paths`, `Errors`, `Store`,
`Machine`, `Config`, `Utils`, `Run`, `Download`, `Remove`, `Listing`, `Info`,
`Doctor`, `Runtime`.

Behaviour of the code worth knowing:

- **Artifact names.** The artifact file name lower-cases the model name
  (`yuuki-best-q4_0.gguf`), and so does the hub URL's last segment.
- **Memory estimate.** `get_available_ram_gb` does not measure anything: it
  always answers 8. So the automatic quantization is `q4_0` on Termux and
  `q5_k_m` everywhere else (`Utils.AutoQuantizationIsFixed`).
- **`run` default.** When no quantization is given, `run` uses the fixed
  `q5_k_m`, not the recommendation.
- **Unknown model names.** `download` prints the known models and succeeds on
  an unknown name. `run` and `info` fail on one.

## Model

| member | source | states |
|---|---|---|
| Config.KnownModels | yuy/src/config.rs:71 | exactly Yuuki-best, Yuuki-3.7 and Yuuki-v0.1 are accepted, case-sensitively: no lower-cased name is known |
| Config.QuantIsPlain | yuy/src/config.rs:73 | every registry quantization tag is one path component without '/' |
| Config.KnownModelIsPlain | yuy/src/config.rs:71 | every known model name, and its lower-cased form, is one plain path component |
| Config.ArtifactNameRoundTrip | yuy/src/commands/download.rs:67 | the artifact name is `<model lower-cased>-<quant>.gguf`: it ends in ".gguf", starts with the lower-cased model and a dash, and gives the quantization back |
| Config.ArtifactNameInjective | yuy/src/commands/download.rs:67 | two quantizations of one model never name the same file |
| Config.ArtifactNameIsPlain | yuy/src/commands/download.rs:103 | for a known model and a tag without '/', the artifact is one component directly inside the model directory |
| Config.ArtifactUrlSegments | yuy/src/commands/download.rs:68-71 | the download URL splits into hub, organisation, model, "resolve", "main" and the artifact name |
| Config.ArtifactUrlExample | yuy/src/commands/download.rs:68-71 | for Yuuki-best and q4_0 the URL is `https://huggingface.co/OpceanAI/Yuuki-best/resolve/main/yuuki-best-q4_0.gguf` |
| Config.RepoUrlExample | yuy/src/commands/list.rs:84-89 | the hub page of Yuuki-best is `https://huggingface.co/OpceanAI/Yuuki-best`, with the name's capitals kept |
| Config.OllamaRefExample | yuy/src/commands/run.rs:132 | example: the ollama reference for Yuuki-best and f32 is `aguitachan3/yuuki-best:f32`, the name lower-cased |
| Config.HfRefExample | yuy/src/commands/run.rs:164 | example: the llama-cli hub reference for Yuuki-best and f32 is `OpceanAI/Yuuki-best:F32`, the tag upper-cased |
| Config.DefaultConfigIsUsable | yuy/src/config.rs:13-21 | the defaults name no token, the runtime llama-cpp that `run` accepts, and a registry tag |
| Config.DecodeEncode | yuy/src/config.rs:59-61 | the bytes written for a configuration decode back to the same configuration |
| Config.LayoutIsDisjoint | yuy/src/config.rs:34-48 | the models directory and the configuration file are two different entries of `~/.yuuki` |
| Config.ModelDirIsPlain | yuy/src/commands/run.rs:24-25 | a known model's directory is `~/.yuuki/models/<model>`, made of plain components |
| Config.YuukiDirIn | yuy/src/config.rs:23-32 | no home directory is an error; otherwise `~/.yuuki` exists afterwards and an existing one is left alone |
| Config.ModelsDirIn | yuy/src/config.rs:34-43 | the models directory, and the base directory first, exist afterwards; nothing changes when both were there |
| Config.ModelsDirIdempotent | yuy/src/config.rs:34-43 | asking again returns the same path and creates nothing |
| Config.ModelsDirKeeps | yuy/src/config.rs:23-43 | `get_models_dir` keeps every existing entry and adds only directories on the way to `~/.yuuki/models` |
| Config.SaveConfigIn | yuy/src/config.rs:64-69 | a successful save leaves a configuration file that reads back as the saved configuration |
| Config.LoadConfigIn | yuy/src/config.rs:50-62 | a successful load returns what the configuration file on disk reads as afterwards, the defaults on a first run included |
| Config.SaveThenRead | yuy/src/config.rs:64-69 | a configuration written to a path is read back from it |
| Config.LoadPersistsDefault | yuy/src/config.rs:50-62 | with no file, loading returns the defaults and saves them, so the next load reads the same defaults and writes nothing |
| Config.LoadWritten | yuy/src/config.rs:50-62 | a configuration file just written under an existing base directory loads back unchanged, writing nothing |
| Config.SaveThenLoad | yuy/src/config.rs:50-69 | loading after a successful save returns the saved configuration and leaves the tree as it is |
| Config.GetYuukiDir | yuy/src/config.rs:23-32 | the method's result and new tree are those of `YuukiDirIn` |
| Config.GetModelsDir | yuy/src/config.rs:34-43 | the method's result and new tree are those of `ModelsDirIn` |
| Config.GetConfigPath | yuy/src/config.rs:45-48 | the configuration path is `~/.yuuki/config.toml`, after ensuring the base directory |
| Config.SaveConfig | yuy/src/config.rs:64-69 | the method's result and new tree are those of `SaveConfigIn`: the file holds the encoding of the configuration |
| Config.LoadConfig | yuy/src/config.rs:50-62 | the method's result and new tree are those of `LoadConfigIn` |
| Utils.DetectPlatform | yuy/src/utils.rs:13-29 | Linux or Termux exactly on the OS name "linux"; Termux only with `PREFIX` set |
| Utils.DetectOnLinux | yuy/src/utils.rs:13-29 | on Linux the platform is Termux exactly when `PREFIX` contains "com.termux", otherwise Linux |
| Utils.DetectElsewhere | yuy/src/utils.rs:13-29 | every other OS name alone decides macOS, Windows or unknown, and `PREFIX` is not consulted |
| Utils.TermuxPrefix | yuy/src/utils.rs:19 | any `PREFIX` containing "com.termux" gives Termux on Linux |
| Utils.AvailableRamGb | yuy/src/utils.rs:31-35 | the estimate lies in the 8-to-16 GB band, the band q5_k_m is recommended for; it is a constant, not a measurement |
| Utils.FormatSize | yuy/src/utils.rs:45-59 | the exact rendering is used iff the count is below 1024; a scaled one is never in bytes |
| Utils.FormatSizeBands | yuy/src/utils.rs:45-59 | GB from 2^30 bytes, MB from 2^20, KB from 2^10, exact bytes below |
| Utils.FormatSmallSize | yuy/src/utils.rs:57 | below 1024 the text is the decimal digits of the count, which read back to it, then " B" |
| Utils.FormatSizeMonotonic | yuy/src/utils.rs:45-59 | a larger size is never shown in a smaller unit |
| Utils.RecommendQuantization | yuy/src/utils.rs:61-68 | the recommendation is always a registry tag |
| Utils.RecommendationTable | yuy/src/utils.rs:61-68 | Termux gives q4_0 whatever the memory; otherwise below 8 gives q4_k_m, 8 to 15 gives q5_k_m and 16 or more gives q8_0; never f32 |
| Utils.QuantRankIsIndex | yuy/src/config.rs:73 | the tag's rank is its position in the registry |
| Utils.RecommendationMonotonic | yuy/src/utils.rs:61-68 | more memory never gives a smaller tag |
| Utils.AutoQuantizationIsFixed | yuy/src/commands/download.rs:29-41 | with the fixed estimate the automatic tag is q4_0 on Termux and otherwise the default q5_k_m |
| Run.FirstInstalled | yuy/src/commands/run.rs:73-85 | the first candidate found, with none before it found; none only when no candidate is installed |
| Run.ProbeLlamaOrder | yuy/src/commands/run.rs:73-85 | llama-cli is preferred to llama, and llama to main; a binary is found iff one of the three is installed |
| Run.PresetSampling | yuy/src/commands/run.rs:94-99 | every preset has 0 < temperature < top-p < 1 |
| Run.PresetTable | yuy/src/commands/run.rs:94-99 | creative is (0.8, 0.9), precise is (0.3, 0.5), anything else, or none, is balanced (0.6, 0.7) |
| Run.TenthRoundTrip | yuy/src/commands/run.rs:106-109 | a preset value is written "0.d" and reads back to the same number of tenths |
| Run.FlagAt | yuy/src/commands/run.rs:102-113 | a flag's value is the word after the flag's first occurrence |
| Run.LlamaCppArgsDecode | yuy/src/commands/run.rs:102-113 | llama.cpp reads the artifact path from `-m`, the preset's temperature and top-p, and a 4096 context, in interactive mode |
| Run.HfArgsDecode | yuy/src/commands/run.rs:183-193 | llama-cli reads the hub reference from `-hf`, the preset's values and a 4096 context, without interactive mode |
| Run.ChildOutcome | yuy/src/commands/run.rs:115-117 | a child that cannot start is an error; a failed exit is an error only where the runtime treats it so |
| Run.RunIn | yuy/src/commands/run.rs:7-69 | at most one child is started, only for a known model; an unknown model leaves the tree as it was |
| Run.RunUnknownModel | yuy/src/commands/run.rs:19-21 | an unknown model fails before any directory is made or anything is started |
| Run.RunCheckOrder | yuy/src/commands/run.rs:27-68 | after `get_models_dir`, first run included: a missing model directory is not an error; then an artifact the lookup does not find, then an unknown runtime, is one; nothing is started unless every check passed, and nothing else is written |
| Run.RunFirstTime | yuy/src/commands/run.rs:24-39 | with no model directory, the base and models directories may be made, nothing is started, and the result is "not downloaded" |
| Run.RunReachesChild | yuy/src/commands/run.rs:42-68 | when a child is started, the artifact for the chosen tag (default q5_k_m) and runtime (default llama-cpp) exists and the child is the runtime's command |
| Run.LlamaCppChildShape | yuy/src/commands/run.rs:102-104 | the llama.cpp child is the probed binary with nine arguments, and the one after `-m` resolves to the artifact inside the model's directory |
| Run.RunLlamaCppChild | yuy/src/commands/run.rs:71-120 | with llama.cpp the first binary found is started; its `-m` text, looked up from the root, finds the artifact found on disk; its failure is an error |
| Run.LlamaCppChildFinds | yuy/src/commands/run.rs:43-46 | the artifact path text given to llama.cpp finds, from the root, what the lookup below the model directory found |
| Run.RunOllamaChild | yuy/src/commands/run.rs:122-153 | with ollama the child is `ollama run <reference>`, and an unsuccessful exit is still success |
| Run.RunLlamaHfChild | yuy/src/commands/run.rs:155-200 | with llama-hf the child is `llama-cli -hf <reference> …`; its failure is an error |
| Run.RunChildOn | yuy/src/commands/run.rs:141-150 | the child is recorded as started and the result is its outcome |
| Run.RunWithLlamaCpp | yuy/src/commands/run.rs:71-120 | no binary found: "runtime missing" and nothing started; otherwise the probed binary is started with the llama.cpp arguments |
| Run.RunWithOllama | yuy/src/commands/run.rs:122-153 | ollama missing: nothing started; otherwise `ollama run` with failure accepted |
| Run.RunWithLlamaHf | yuy/src/commands/run.rs:155-200 | llama-cli missing: nothing started, the other llama.cpp names are not tried; otherwise the hub command |
| Run.StartRuntime | yuy/src/commands/run.rs:63-68 | an unknown runtime name is an error and starts nothing; otherwise the runtime's command is started when its binary is found |
| Run.Execute | yuy/src/commands/run.rs:7-69 | the result, the new tree and the children started are those of `RunIn` |
| Download.DeliveredSnoc | yuy/src/commands/download.rs:108-113 | a further chunk of an intact stream lands after the bytes delivered so far |
| Download.DeliveredUntilBroken | yuy/src/commands/download.rs:109 | a stream error ends the body: what is written is what came before it |
| Download.ChosenQuant | yuy/src/commands/download.rs:29-41 | the given tag is used verbatim; otherwise the recommendation, a registry tag |
| Download.PrepareIn | yuy/src/commands/download.rs:62-64 | on success the model directory is `models/<model>` and exists as a directory |
| Download.FetchIn | yuy/src/commands/download.rs:78-113 | an unsent request, a non-2xx status and a missing length fail without touching the tree; otherwise the file the lookup finds holds exactly the delivered bytes, and success reports the declared and received lengths |
| Download.DownloadIn | yuy/src/commands/download.rs:10-113 | at most one URL is requested; an unknown model is not an error and changes nothing |
| Download.DownloadUnknownModel | yuy/src/commands/download.rs:15-26 | an unknown model is not an error: nothing is created and nothing is requested |
| Download.DownloadRequest | yuy/src/commands/download.rs:62-83 | at most one URL is requested, the artifact URL for the chosen tag, after the model directory was made |
| Download.DownloadChecksBeforeFile | yuy/src/commands/download.rs:78-94 | request, status and length failures come before the output file is created |
| Download.DownloadWritesDelivered | yuy/src/commands/download.rs:103-113 | the created file holds exactly the delivered bytes; an intact stream succeeds with the declared length, a broken one fails keeping the prefix; an artifact path the lookup cannot follow fails, creating nothing |
| Download.WriteStream | yuy/src/commands/download.rs:107-112 | the chunk loop appends every chunk in order, so the file ends up holding exactly the delivered bytes; it stops at a stream error, and the count is the number of bytes written |
| Download.DownloadOkWrites | yuy/src/commands/download.rs:62-113 | a successful download leaves the prepared tree with the artifact file holding the delivered bytes, at the path the join points to |
| Download.Fetch | yuy/src/commands/download.rs:78-113 | the chunk loop's result and tree are those of `FetchIn`, and the URL is recorded as requested |
| Download.Execute | yuy/src/commands/download.rs:10-113 | the result, the new tree and the URLs requested are those of `DownloadIn` |
| Remove.ConfirmRule | yuy/src/commands/remove.rs:49 | exactly "y" or "Y", with any white space around, confirms |
| Remove.ConfirmExamples | yuy/src/commands/remove.rs:46-52 | " y \n" and "Y\n" confirm; "yes\n" and an empty line do not |
| Remove.RemoveIn | yuy/src/commands/remove.rs:5-54 | every successful result but a removal leaves the tree as `get_models_dir` left it; a removal needs the answer to confirm |
| Remove.RemoveEffect | yuy/src/commands/remove.rs:12-54 | only a confirmed removal of a directory the lookup finds changes the tree: exactly its subtree goes, and the size freed is the size shown; when `rmdir` refuses the directory (the root, or a last component "." or ".."), its contents go and the command fails; an answer that does not confirm is `Ok(Cancelled)` with the size shown |
| Remove.RemoveNotFound | yuy/src/commands/remove.rs:9-19 | any name, plain or not, that the lookup does not find on disk is not an error, and nothing beyond `get_models_dir` changes |
| Remove.RemoveMissing | yuy/src/commands/remove.rs:12-19 | a model that is not on disk, first run included, is not an error and nothing is removed |
| Remove.RemoveThroughMissing | yuy/src/commands/remove.rs:10-19 | `<name>/..` with no `<name>` directory names nothing: not an error, nothing removed |
| Remove.RemoveSparesSiblings | yuy/src/commands/remove.rs:54 | removing one model leaves every other model's directory and contents as they were |
| Remove.RemoveParentTakesConfig | yuy/src/commands/remove.rs:9-54 | the name is not checked, so a confirmed `remove ..` empties `~/.yuuki`, deleting the configuration and every model, then fails as `rmdir` refuses ".." |
| Remove.Execute | yuy/src/commands/remove.rs:5-54 | the result and the new tree are those of `RemoveIn` |
| Store.TotalSize | yuy/src/commands/remove.rs:22-29 | the size loop adds up the lengths of the directory's direct entries (`DirSize`) |
| Store.DirSizeAddFile | yuy/src/commands/remove.rs:22-29 | a new file directly in the directory adds its length to the size |
| Store.DirSizeOneLevel | yuy/src/commands/doctor.rs:74-82 | entries deeper than one level, or elsewhere, do not change the size |
| Store.MakeDirs | yuy/src/commands/download.rs:64 | `create_dir_all`: every prefix is a directory afterwards, existing entries are kept and only directories on the path are added |
| Store.EnsureDir | yuy/src/config.rs:27-29 | an existing path is left alone, a missing one exists afterwards |
| Store.EnsureDirIdempotent | yuy/src/config.rs:27-29 | ensuring a directory twice changes nothing the second time |
| Store.ClearTree | yuy/src/commands/remove.rs:54 | what a refused `remove_dir_all` leaves: everything below the path goes, the path and the rest stay |
| Store.ResolveIsJoin | yuy/src/commands/remove.rs:10-12 | where the lookup of a joined name succeeds, it lands where the text-level join points |
| Store.ResolvePlain | yuy/src/commands/run.rs:44-45 | a plain name is looked up as one component below the directory |
| Store.ResolveThroughMissing | yuy/src/commands/remove.rs:10-12 | `<component>/..` names nothing when the component is not a directory |
| Store.ResolveNeedsDir | yuy/src/commands/run.rs:44-45 | anything found below a path means the path is a directory |
| Store.ResolveDown | yuy/src/commands/run.rs:44-45 | from above a directory, the lookup walks down its plain components first |
| Store.ResolveText | yuy/src/commands/run.rs:102-104 | the text of a name joined to a directory's text, looked up from the root, finds what the lookup below that directory finds |
| Store.RemoveTree | yuy/src/commands/remove.rs:54 | `remove_dir_all`: exactly the entries within the path go, the rest are unchanged |
| Store.WriteFile | yuy/src/commands/download.rs:104 | creating and writing a file succeeds iff its parent is a directory and it is not a directory; the new content replaces the old |
| Store.Children | yuy/src/commands/list.rs:32 | the names `read_dir` lists are exactly the entries one level below |
| Text.TrimStartSpec | yuy/src/commands/remove.rs:49 | trimming the start cuts off a prefix made only of white space, and what is left does not start with white space |
| Text.TrimEndSpec | yuy/src/commands/remove.rs:49 | trimming the end cuts off a suffix made only of white space, and what is left does not end with white space |
| Text.TrimIsSlice | yuy/src/commands/remove.rs:49 | `str::trim` keeps a contiguous middle of the input with only white space before and after it |
| Text.TrimIsTight | yuy/src/commands/remove.rs:49 | the trimmed text neither starts nor ends with white space |
| Text.TrimPadded | yuy/src/commands/runtime.rs:90 | white space around a tight word trims back to that word |
| Text.Lower | yuy/src/commands/download.rs:67 | each character is mapped to its lower-case form |
| Text.Upper | yuy/src/commands/run.rs:164 | each character is mapped to its upper-case form |
| Text.LowerIsY | yuy/src/commands/remove.rs:49 | a text lower-cases to "y" iff it is "y" or "Y" |
| Paths.JoinPlain | yuy/src/config.rs:25 | joining a plain name appends one component |
| Paths.PathTextRoundTrip | yuy/src/commands/run.rs:104 | the text of a plain path resolves back to the same path |
| Paths.JoinTextResolves | yuy/src/commands/run.rs:44 | the artifact path given to llama.cpp as text names the same file `run` found on disk |
| Machine.Host.constructor | yuy/src/utils.rs:37-43 | a host starts with the given tree and facts, no child started and no URL requested |
| Listing.ArtifactIsVariant | yuy/src/commands/list.rs:45-47 | every artifact `download` writes is listed, with its byte length |
| Listing.OnlyGgufShown | yuy/src/commands/list.rs:43-45 | an entry is shown iff it is named `*.gguf` and is not an error item |
| Listing.LocalVariants | yuy/src/commands/list.rs:41-57 | the variant loop succeeds iff every shown variant's metadata reads, returns the variants with their lengths, and otherwise fails on one whose metadata does not |
| Listing.ListLocal | yuy/src/commands/list.rs:24-60 | "no models" iff the directory is missing or empty; a models path that is a file is an error; otherwise success iff no top-level error item and all variant metadata read, listing every model directory with its variants; an error is one of those failures |
| Listing.ListLocalModels | yuy/src/commands/list.rs:18-69 | the models directory is made first, then the listing as above |
| Listing.EmptyModelDirListed | yuy/src/commands/list.rs:37-38 | a model directory with no artifacts is still listed, with no variants |
| Listing.RemoteEntries | yuy/src/commands/list.rs:82-96 | one entry per name, in order, with its hub page URL |
| Listing.RemoteListingIsKnownModels | yuy/src/commands/list.rs:82-96 | the remote listing names exactly the models `download`, `run` and `info` accept |
| Listing.HubVariantsInRegistry | yuy/src/commands/list.rs:98-102 | the four advertised tags are registry tags in registry order; q4_k_m is not advertised |
| Info.HubVariantsShown | yuy/src/commands/info.rs:63-70 | with `--variants` the four advertised tags are shown, otherwise none |
| Info.Execute | yuy/src/commands/info.rs:5-73 | unknown model: error, tree unchanged; otherwise the models directory is made and the report has the page URL and the local status, or fails on unreadable variant metadata |
| Info.InfoSeesDownload | yuy/src/commands/info.rs:26-53 | after a successful download, info shows the model downloaded with the artifact at the length received |
| Info.SeesWrittenArtifact | yuy/src/commands/info.rs:26-53 | an artifact written into an existing model directory keeps the models directory as it is, and shows up among the variants at its length |
| Info.StatusIffExists | yuy/src/commands/info.rs:26 | the status is "downloaded" iff the model's directory exists, whatever it holds |
| Doctor.LlamaInstalledIsProbe | yuy/src/commands/doctor.rs:104-106 | the doctor's llama.cpp check agrees with the binary `run` would probe |
| Doctor.DependencyChecks | yuy/src/commands/doctor.rs:127-129 | curl, wget and git, in order, each with whether it is found |
| Doctor.HealthIssues | yuy/src/commands/doctor.rs:135-139 | no issue iff a runtime is installed; otherwise the single issue "No runtime installed" |
| Doctor.HealthyIffSomeRuntime | yuy/src/commands/doctor.rs:135-139 | healthy iff `run` can start llama.cpp or ollama; llama-hf needs llama.cpp's llama-cli |
| Doctor.HealthyButDefaultMissing | yuy/src/commands/doctor.rs:137 | with only ollama installed the report is healthy while the default runtime of `run` is missing |
| Doctor.SumOfFlags | yuy/src/commands/doctor.rs:72 | adding up one per flagged name counts the flagged names |
| Doctor.FlagsCountModelDirs | yuy/src/commands/doctor.rs:69-72 | the per-entry counts add up to the number of model directories |
| Doctor.CountModels | yuy/src/commands/doctor.rs:66-85 | the loops count the model directories and add up the lengths of their direct entries |
| Doctor.ScanModels | yuy/src/commands/doctor.rs:65-97 | no scan when the models directory is missing; an error when it is a file; otherwise the count and the total |
| Doctor.TopLevelFileIgnored | yuy/src/commands/doctor.rs:71 | a file at the top of the models directory is neither counted nor added up |
| Doctor.FileAddsChild | yuy/src/commands/doctor.rs:69-72 | a new file at the top of the models directory becomes one more entry and no model directory |
| Doctor.WeightsUnchanged | yuy/src/commands/doctor.rs:74-82 | the new file weighs nothing in the total and every other entry keeps its weight |
| Doctor.Execute | yuy/src/commands/doctor.rs:6-139 | base directory, then models directory, then the scan, each error stopping the report; the report holds the platform, the fixed memory, the recommendation, the runtime and tool checks and the issues |
| Runtime.Choice | yuy/src/commands/runtime.rs:90-97 | after trimming, "1" and "2" select llama-cpp and ollama, and nothing else selects |
| Runtime.ChoiceAcceptsDigits | yuy/src/commands/runtime.rs:90-92 | "1\n" selects llama-cpp and " 2 \n" selects ollama |
| Runtime.ChoicePaddedDigit | yuy/src/commands/runtime.rs:90-92 | "1" or "2" with any white space around it selects llama-cpp or ollama |
| Runtime.ChoiceIgnoresPadding | yuy/src/commands/runtime.rs:90 | white space around the answer does not change the choice |
| Runtime.ChoiceRejectsOthers | yuy/src/commands/runtime.rs:93-96 | an empty line and "12\n" select nothing |
| Runtime.PackageTables | yuy/src/commands/runtime.rs:122-126 | both package tables know exactly the two runtimes; Homebrew calls llama.cpp by its dotted name |
| Runtime.ChoiceHasPackages | yuy/src/commands/runtime.rs:90-126 | a runtime chosen at the prompt always has a package on both managers |
| Runtime.ManualGuide | yuy/src/commands/runtime.rs:210-232 | only llama-cpp and ollama on Linux have their own instructions; everything else points to the website |
| Runtime.InstallOnlyWithPackageManager | yuy/src/commands/runtime.rs:108-192 | a package manager runs only on Termux, or macOS with Homebrew, and only for a known runtime; an unknown one fails only there |
| Runtime.InstallCommands | yuy/src/commands/runtime.rs:131-174 | the commands are `pkg install <package> -y` and `brew install <formula>` |
| Runtime.InstallIn | yuy/src/commands/runtime.rs:70-119 | at most one child is started |
| Runtime.NamedRuntimeIgnoresInput | yuy/src/commands/runtime.rs:76-78 | a runtime given by name is used without reading the prompt |
| Runtime.InvalidChoiceCancels | yuy/src/commands/runtime.rs:93-96 | an invalid choice is not an error and nothing runs |
| Runtime.InstallResult | yuy/src/commands/runtime.rs:137-146 | installed iff a package manager was started and succeeded; an unsuccessful exit is "Installation failed" |
| Runtime.NoPackageManagerNeverFails | yuy/src/commands/runtime.rs:151-155 | on Linux, Windows and unknown platforms nothing runs and nothing fails |
| Runtime.InstallRuntime | yuy/src/commands/runtime.rs:70-119 | the result and the children started are those of `InstallIn` for the host's platform and Homebrew |

## Left out

- HTTP transport, the progress bar, the `reqwest` client and the authentication token: the hub's answer is a parameter (`Download.Reply`).
- Spawning processes and the output they print: how a child ended is a parameter (`Machine.ChildExit`). `command_exists` (running `which`) is membership in the host's `installed` set.
- Reading standard input and flushing standard output: the typed line is a parameter; their I/O errors are not modelled.
- Printed text, colours and emoji; only the values printed (reports, listings, outcomes) are modelled.
- Utils.FormatSize: the two-decimal floating-point number of the KB/MB/GB renderings is not modelled, only the unit chosen and the exact "<n> B" text.
- Run.PresetSampling: the `f64` values are modelled as whole tenths, rendered "0.d" as `f64::to_string` writes them.
- Text.Lower, Text.Upper: only ASCII letters are mapped; Unicode case mapping beyond ASCII is not modelled.
- Config.DecodeEncode: the TOML format of `config.toml` is replaced by a self-delimiting byte encoding of the three fields; TOML parsing of hand-edited files is not modelled, only that what is saved loads back.
- Store.TotalSize, Doctor.CountModels, Download.WriteStream: u64 overflow of the sums is not modelled (integers are unbounded); directory entries count with length 0, as their metadata length is platform-specific.
- Path lookup follows Linux and macOS (`Store.Resolve`). On Windows, `..` is resolved on the text alone, which is not modelled.
- Symbolic links, permissions and failures of `create_dir_all`, `remove_dir_all` and `write_all` beyond the modelled ones (a path through a file, writing over a directory); listing a directory never fails except when it is not a directory.
- The order in which `read_dir` yields entries is unspecified. `Listing.ListLocal`, `Listing.LocalVariants` and `Info.Execute` state which errors can be reported, not which one is.
- `check_runtimes` and `list_runtimes` in `yuy/src/commands/runtime.rs` only print what `command_exists` finds; they are not modelled.
- `install_on_windows` is modelled only as showing the Chocolatey guide; the text is not modelled.
- `yuy/src/commands/setup.rs`, `yuy/src/cli.rs` and `yuy/src/main.rs` (argument parsing and the first-run wizard) are not part of this model, nor is the unused `YUUKI_API` constant.
- Runtime.InstallIn: `pkg` and `brew` are assumed to be on the path once chosen; the failure to start them is the `NotStarted` exit.
