/**
 * Platform detection, the fixed memory estimate, the unit chosen to show a
 * byte count and the quantization recommended for a platform and memory size.
 */
module Utils {
  import opened Wrappers
  import opened Text
  import opened Config

  datatype Platform = Linux | MacOS | Windows | Termux | Unknown

  /**
   * `detect_platform`, given the compile-time OS name and the `PREFIX`
   * environment variable (None when it is unset or not valid Unicode).
   */
  function DetectPlatform(os: string, prefix: Option<string>): (p: Platform)
    ensures p == Linux || p == Termux <==> os == "linux"
    ensures p == Termux ==> prefix.Some?
  {
    if os == "linux" then
      if prefix.Some? && Contains(prefix.value, "com.termux") then Termux else Linux
    else if os == "macos" then MacOS
    else if os == "windows" then Windows
    else Unknown
  }

  /** On Linux the answer is Termux exactly when `PREFIX` mentions the Termux package. */
  lemma DetectOnLinux(prefix: Option<string>)
    ensures DetectPlatform("linux", prefix) == Termux
            <==> prefix.Some? && Contains(prefix.value, "com.termux")
    ensures DetectPlatform("linux", prefix) in {Termux, Linux}
  {
  }

  /** Every other OS name decides the platform alone; `PREFIX` is never consulted. */
  lemma DetectElsewhere(os: string, prefix: Option<string>)
    requires os != "linux"
    ensures DetectPlatform(os, prefix) == (if os == "macos" then MacOS else if os == "windows" then Windows else Unknown)
    ensures DetectPlatform(os, prefix) == DetectPlatform(os, None)
    ensures DetectPlatform(os, prefix) !in {Linux, Termux}
  {
  }

  /** A Termux prefix is one that names the Termux package somewhere inside it. */
  lemma TermuxPrefix(before: string, after: string)
    ensures DetectPlatform("linux", Some(before + "com.termux" + after)) == Termux
  {
    var s := before + "com.termux" + after;
    assert s[|before|..|before| + |"com.termux"|] == "com.termux";
    ContainsAt(s, "com.termux", |before|);
  }

  /** `get_available_ram_gb`: a fixed estimate, not a measurement. */
  function AvailableRamGb(): (r: nat)
    ensures 8 <= r < 16
  {
    8
  }

  // ---- Byte counts ----

  const KB: nat := 1024
  const MB: nat := 1024 * 1024
  const GB: nat := 1024 * 1024 * 1024

  datatype SizeUnit = Bytes | KiloBytes | MegaBytes | GigaBytes

  /** The rendering `format_size` picks: exact bytes, or a scaled unit with two decimals. */
  datatype SizeText = Exact(text: string) | Scaled(unit: SizeUnit)

  /** `format_size`; the two-decimal scaled number itself is not modelled. */
  function FormatSize(bytes: nat): (r: SizeText)
    ensures r.Exact? <==> bytes < KB
    ensures r.Scaled? ==> r.unit != Bytes
  {
    if bytes >= GB then Scaled(GigaBytes)
    else if bytes >= MB then Scaled(MegaBytes)
    else if bytes >= KB then Scaled(KiloBytes)
    else Exact(Decimal(bytes) + " B")
  }

  /** Each unit is used for exactly one band of sizes, and small sizes are printed exactly. */
  lemma FormatSizeBands(bytes: nat)
    ensures FormatSize(bytes) == Scaled(GigaBytes) <==> bytes >= 1073741824
    ensures FormatSize(bytes) == Scaled(MegaBytes) <==> 1048576 <= bytes < 1073741824
    ensures FormatSize(bytes) == Scaled(KiloBytes) <==> 1024 <= bytes < 1048576
    ensures FormatSize(bytes).Exact? <==> bytes < 1024
  {
  }

  /** The exact rendering is the decimal digits of the count, which read back to it, then " B". */
  lemma FormatSmallSize(bytes: nat)
    requires bytes < 1024
    ensures FormatSize(bytes).Exact?
    ensures var s := FormatSize(bytes).text;
            EndsWith(s, " B") && AllDigits(s[..|s| - 2]) && DecimalValue(s[..|s| - 2]) == bytes
  {
    var s := FormatSize(bytes).text;
    assert s[..|s| - 2] == Decimal(bytes);
    DecimalRoundTrip(bytes);
  }

  function UnitRank(u: SizeUnit): nat {
    match u
    case Bytes => 0
    case KiloBytes => 1
    case MegaBytes => 2
    case GigaBytes => 3
  }

  function UnitOf(s: SizeText): SizeUnit {
    if s.Exact? then Bytes else s.unit
  }

  /** A larger size is never shown in a smaller unit. */
  lemma FormatSizeMonotonic(a: nat, b: nat)
    requires a <= b
    ensures UnitRank(UnitOf(FormatSize(a))) <= UnitRank(UnitOf(FormatSize(b)))
  {
  }

  // ---- Quantization ----

  /** `recommend_quantization`: the smallest tag on Termux, otherwise by memory size. */
  function RecommendQuantization(platform: Platform, ramGb: nat): (q: string)
    ensures q in AVAILABLE_QUANTS
  {
    if platform == Termux then "q4_0"
    else if ramGb < 8 then "q4_k_m"
    else if ramGb < 16 then "q5_k_m"
    else "q8_0"
  }

  /** The decision table, with 8 and 16 falling into the upper band. */
  lemma RecommendationTable(platform: Platform, ramGb: nat)
    ensures platform == Termux ==> RecommendQuantization(platform, ramGb) == "q4_0"
    ensures platform != Termux ==>
              (RecommendQuantization(platform, ramGb) == "q4_k_m" <==> ramGb < 8)
              && (RecommendQuantization(platform, ramGb) == "q5_k_m" <==> 8 <= ramGb < 16)
              && (RecommendQuantization(platform, ramGb) == "q8_0" <==> 16 <= ramGb)
    ensures RecommendQuantization(platform, ramGb) != "f32"
  {
  }

  /** The position of a tag in the registry, which lists the tags from smallest to largest. */
  function QuantRank(q: string): nat
    requires q in AVAILABLE_QUANTS
  {
    if q == "q4_0" then 0 else if q == "q4_k_m" then 1 else if q == "q5_k_m" then 2
    else if q == "q8_0" then 3 else 4
  }

  lemma QuantRankIsIndex(i: nat)
    requires i < |AVAILABLE_QUANTS|
    ensures QuantRank(AVAILABLE_QUANTS[i]) == i
  {
  }

  /** More memory never yields a smaller recommended tag. */
  lemma RecommendationMonotonic(platform: Platform, r1: nat, r2: nat)
    requires r1 <= r2
    ensures QuantRank(RecommendQuantization(platform, r1)) <= QuantRank(RecommendQuantization(platform, r2))
  {
  }

  /** What `download` and `doctor` choose when no tag is given. */
  function AutoQuantization(os: string, prefix: Option<string>): string {
    RecommendQuantization(DetectPlatform(os, prefix), AvailableRamGb())
  }

  /** With the fixed memory estimate the automatic tag is q4_0 on Termux and q5_k_m elsewhere. */
  lemma AutoQuantizationIsFixed(os: string, prefix: Option<string>)
    ensures AutoQuantization(os, prefix) == (if DetectPlatform(os, prefix) == Termux then "q4_0" else "q5_k_m")
    ensures AutoQuantization(os, prefix) == DefaultConfig().defaultQuant.value
            <==> DetectPlatform(os, prefix) != Termux
  {
  }
}
