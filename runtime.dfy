/**
 * `yuy runtime install`: pick the runtime (from the argument or the typed
 * choice), then install it with the platform's package manager where there is
 * one, or show manual instructions.
 */
module Runtime {
  import opened Wrappers
  import opened Text
  import opened Errors
  import opened Machine
  import opened Utils
  import opened Run

  /** The typed choice, after trimming: "1" and "2" name a runtime, anything else cancels. */
  function Choice(input: string): (r: Option<string>)
    ensures r.Some? <==> Trim(input) == "1" || Trim(input) == "2"
    ensures r.Some? ==> r.value in {"llama-cpp", "ollama"}
  {
    var c := Trim(input);
    if c == "1" then Some("llama-cpp")
    else if c == "2" then Some("ollama")
    else None
  }

  /** A digit with white space around it selects its runtime. */
  lemma ChoicePaddedDigit(lead: string, digit: string, trail: string)
    requires AllWhitespace(lead) && AllWhitespace(trail) && digit in {"1", "2"}
    ensures Choice(lead + digit + trail) == if digit == "1" then Some("llama-cpp") else Some("ollama")
  {
    TrimPadded(lead, digit, trail);
  }

  lemma ChoiceAcceptsDigits()
    ensures Choice("1\n") == Some("llama-cpp") && Choice(" 2 \n") == Some("ollama")
  {
    ChoicePaddedDigit("", "1", "\n");
    assert "" + "1" + "\n" == "1\n";
    ChoicePaddedDigit(" ", "2", " \n");
    assert " " + "2" + " \n" == " 2 \n";
  }

  /** White space around the typed answer, the newline included, does not change the choice. */
  lemma ChoiceIgnoresPadding(lead: string, core: string, trail: string)
    requires AllWhitespace(lead) && AllWhitespace(trail) && Tight(core)
    ensures Choice(lead + core + trail) == Choice(core)
  {
    TrimPadded(lead, core, trail);
    TrimPadded("", core, "");
    assert "" + core + "" == core;
  }

  /** An empty line and a longer number select nothing. */
  lemma ChoiceRejectsOthers()
    ensures Choice("\n") == None && Choice("12\n") == None
  {
    assert Trim("" + "" + "\n") == "" by { TrimPadded("", "", "\n"); }
    assert "" + "" + "\n" == "\n";
    assert Trim("" + "12" + "\n") == "12" by { TrimPadded("", "12", "\n"); }
    assert "" + "12" + "\n" == "12\n";
  }

  /** The `pkg` package for a runtime on Termux. */
  function TermuxPackage(runtime: string): Option<string> {
    if runtime == "llama-cpp" then Some("llama-cpp")
    else if runtime == "ollama" then Some("ollama")
    else None
  }

  /** The Homebrew formula for a runtime: llama.cpp is published under its dotted name. */
  function BrewPackage(runtime: string): Option<string> {
    if runtime == "llama-cpp" then Some("llama.cpp")
    else if runtime == "ollama" then Some("ollama")
    else None
  }

  /** Both package managers know exactly the two runtimes, under these names. */
  lemma PackageTables(runtime: string)
    ensures TermuxPackage(runtime).Some? <==> runtime == "llama-cpp" || runtime == "ollama"
    ensures BrewPackage(runtime).Some? <==> TermuxPackage(runtime).Some?
    ensures runtime == "ollama" ==> BrewPackage(runtime) == TermuxPackage(runtime) == Some("ollama")
    ensures runtime == "llama-cpp" ==> BrewPackage(runtime) == Some("llama.cpp") != TermuxPackage(runtime)
  {
  }

  /** Every runtime the prompt offers has a package on both managers, so a typed choice is never unknown. */
  lemma ChoiceHasPackages(input: string)
    requires Choice(input).Some?
    ensures TermuxPackage(Choice(input).value).Some? && BrewPackage(Choice(input).value).Some?
    ensures IsRuntime(Choice(input).value)
  {
  }

  /** The instructions shown when nothing is installed automatically. */
  datatype Guide =
    | BinaryOrSource   // llama.cpp on Linux: download a release or build from source
    | InstallScript    // ollama on Linux: the install script
    | Website          // every other pair: the official website
    | Chocolatey       // Windows: Chocolatey or the release downloads

  /** `show_manual_instructions`: only the two Linux pairs have their own text. */
  function ManualGuide(runtime: string, platform: Platform): (g: Guide)
    ensures g == BinaryOrSource <==> runtime == "llama-cpp" && platform == Linux
    ensures g == InstallScript <==> runtime == "ollama" && platform == Linux
    ensures g != Chocolatey
  {
    if runtime == "llama-cpp" && platform == Linux then BinaryOrSource
    else if runtime == "ollama" && platform == Linux then InstallScript
    else Website
  }

  /** What the platform does with a named runtime: start a package manager, show a guide, or fail. */
  datatype Step = Install(child: Invocation) | Show(guide: Guide) | Reject(error: Error)

  /**
   * The per-platform dispatch: `pkg install <package> -y` on Termux, `brew
   * install <formula>` on macOS when Homebrew is found, instructions otherwise.
   * An unknown name fails only where a package manager would have been used.
   */
  function InstallStep(platform: Platform, brew: bool, runtime: string): Step {
    match platform
    case Termux =>
      (match TermuxPackage(runtime)
       case None => Reject(UnknownRuntime(runtime))
       case Some(p) => Install(Invocation("pkg", ["install", p, "-y"])))
    case MacOS =>
      if !brew then Show(ManualGuide(runtime, MacOS))
      else (match BrewPackage(runtime)
            case None => Reject(UnknownRuntime(runtime))
            case Some(p) => Install(Invocation("brew", ["install", p])))
    case Linux => Show(ManualGuide(runtime, Linux))
    case Windows => Show(Chocolatey)
    case Unknown => Show(ManualGuide(runtime, Unknown))
  }

  /** A package manager is started only on Termux, and on macOS when Homebrew is there. */
  lemma InstallOnlyWithPackageManager(platform: Platform, brew: bool, runtime: string)
    ensures InstallStep(platform, brew, runtime).Install?
            <==> (platform == Termux || (platform == MacOS && brew)) && TermuxPackage(runtime).Some?
    ensures InstallStep(platform, brew, runtime).Reject?
            <==> (platform == Termux || (platform == MacOS && brew)) && TermuxPackage(runtime).None?
    ensures InstallStep(platform, brew, runtime).Reject? ==> InstallStep(platform, brew, runtime).error == UnknownRuntime(runtime)
  {
  }

  /** The exact command lines: `pkg install <package> -y` and `brew install <formula>`. */
  lemma InstallCommands(brew: bool, runtime: string)
    ensures TermuxPackage(runtime).Some? ==>
              InstallStep(Termux, brew, runtime) == Install(Invocation("pkg", ["install", TermuxPackage(runtime).value, "-y"]))
    ensures brew && BrewPackage(runtime).Some? ==>
              InstallStep(MacOS, brew, runtime) == Install(Invocation("brew", ["install", BrewPackage(runtime).value]))
    ensures InstallStep(MacOS, true, "llama-cpp") == Install(Invocation("brew", ["install", "llama.cpp"]))
  {
  }

  datatype InstallOutcome =
    | Cancelled                    // the typed choice was not 1 or 2
    | Installed(runtime: string)   // the package manager reported success
    | Instructions(guide: Guide)   // nothing was run; the guide was shown

  /**
   * `install_runtime`: the runtime named, or the typed choice; then the
   * platform's step. The result and the children started (at most one).
   */
  function InstallIn(platform: Platform, brew: bool, runtime: Option<string>, input: string, exit: ChildExit)
    : (out: (Result<InstallOutcome, Error>, seq<Invocation>))
    ensures |out.1| <= 1
  {
    var name := if runtime.Some? then runtime else Choice(input);
    if name.None? then (Ok(Cancelled), [])
    else
      match InstallStep(platform, brew, name.value)
      case Reject(e) => (Err(e), [])
      case Show(g) => (Ok(Instructions(g)), [])
      case Install(child) =>
        match exit
        case NotStarted => (Err(SpawnFailed(child.program)), [child])
        case Exited(ok) => (if ok then Ok(Installed(name.value)) else Err(InstallationFailed), [child])
  }

  /** A given name is used as it is; the prompt's input is read only when no name is given. */
  lemma NamedRuntimeIgnoresInput(platform: Platform, brew: bool, runtime: string, a: string, b: string, exit: ChildExit)
    ensures InstallIn(platform, brew, Some(runtime), a, exit) == InstallIn(platform, brew, Some(runtime), b, exit)
  {
  }

  /** An invalid typed choice is not an error, and nothing is run. */
  lemma InvalidChoiceCancels(platform: Platform, brew: bool, input: string, exit: ChildExit)
    requires Trim(input) != "1" && Trim(input) != "2"
    ensures InstallIn(platform, brew, None, input, exit) == (Ok(Cancelled), [])
  {
  }

  /**
   * Installation succeeds only when a package manager was started and exited
   * successfully; an unsuccessful exit is "Installation failed".
   */
  lemma InstallResult(platform: Platform, brew: bool, runtime: Option<string>, input: string, exit: ChildExit)
    ensures var (r, children) := InstallIn(platform, brew, runtime, input, exit);
            (r.Ok? && r.value.Installed? <==> children != [] && exit == Exited(true))
            && (children != [] && exit == Exited(false) ==> r == Err(InstallationFailed))
            && (children != [] ==> children[0].program in {"pkg", "brew"})
  {
  }

  /** Linux, Windows and unsupported platforms never fail and never run anything. */
  lemma NoPackageManagerNeverFails(platform: Platform, brew: bool, runtime: Option<string>, input: string, exit: ChildExit)
    requires platform in {Linux, Windows, Unknown}
    ensures InstallIn(platform, brew, runtime, input, exit).0.Ok?
    ensures InstallIn(platform, brew, runtime, input, exit).1 == []
  {
  }

  /** `install_runtime` on a host: the platform from the host's facts, `brew` from `command_exists`. */
  method InstallRuntime(h: Host, runtime: Option<string>, input: string, exit: ChildExit) returns (r: Result<InstallOutcome, Error>)
    modifies h`spawned
    ensures var (res, children) := InstallIn(DetectPlatform(h.os, h.prefixVar), h.CommandExists("brew"), runtime, input, exit);
            r == res && h.spawned == old(h.spawned) + children
  {
    var platform := DetectPlatform(h.os, h.prefixVar);
    var name := runtime;
    if name.None? {
      name := Choice(input);
      if name.None? {
        return Ok(Cancelled);
      }
    }
    var brew := platform == MacOS && h.CommandExists("brew");
    var step := InstallStep(platform, brew, name.value);
    match step {
      case Reject(e) =>
        return Err(e);
      case Show(g) =>
        return Ok(Instructions(g));
      case Install(child) =>
        h.spawned := h.spawned + [child];
        match exit {
          case NotStarted =>
            return Err(SpawnFailed(child.program));
          case Exited(ok) =>
            if !ok {
              return Err(InstallationFailed);
            }
        }
        r := Ok(Installed(name.value));
    }
  }
}
