/**
 * `yuy info`: check the name, show the model's page, whether its directory is
 * on disk with the `.gguf` files in it, and on request the tags the hub offers.
 */
module Info {
  import opened Wrappers
  import opened Paths
  import opened Errors
  import opened Store
  import opened Machine
  import opened Config
  import opened Listing
  import opened Download

  datatype Status =
    | NotDownloaded                                    // the hint to download it is printed
    | Downloaded(dir: Path, variants: map<string, nat>) // the directory and its `.gguf` files

  datatype InfoReport = InfoReport(model: string, url: string, status: Status, hubVariants: seq<string>)

  /**
   * The local part of the report: downloaded exactly when the directory exists;
   * when it exists but cannot be listed (it is a file) no variants are shown.
   */
  function LocalStatus(t: Tree, dir: Path): Status {
    if !Exists(t, dir) then NotDownloaded
    else Downloaded(dir, if IsDir(t, dir) then VariantSizes(t, dir) else map[])
  }

  /** The tags printed with `--variants`: the same four whatever is on disk. */
  function HubVariantsShown(variants: bool): (r: seq<string>)
    ensures variants ==> r == HUB_VARIANTS && "q4_k_m" !in r
    ensures !variants ==> r == []
  {
    if variants then HUB_VARIANTS else []
  }

  /**
   * `info::execute`: an unknown name fails before any directory is touched;
   * otherwise the models directory is made, and the report is built unless the
   * metadata of a listed variant fails.
   */
  method Execute(h: Host, model: string, variants: bool) returns (r: Result<InfoReport, Error>)
    requires h.Valid()
    modifies h`tree
    ensures h.Valid()
    ensures !IsKnownModel(model) ==> r == Err(ModelNotFound(model)) && h.tree == old(h.tree)
    ensures IsKnownModel(model) ==>
              var (m, t1) := ModelsDirIn(old(h.tree), h.home);
              h.tree == t1
              && (m.Err? ==> r == Err(m.error))
              && (m.Ok? ==>
                    var dir := Join(m.value, model);
                    (r.Ok? <==> !IsDir(t1, dir) || VariantsReadable(t1, dir))
                    && (r.Ok? ==> r.value == InfoReport(model, RepoUrl(model), LocalStatus(t1, dir), HubVariantsShown(variants)))
                    && (r.Err? ==> exists n :: n in Variants(t1, dir) && t1[dir + [n]].Unstatable?
                                                && r.error == MetadataFailed(dir + [n])))
  {
    if !IsKnownModel(model) {
      return Err(ModelNotFound(model));
    }
    var models := GetModelsDir(h);
    if models.Err? {
      return Err(models.error);
    }
    var dir := Join(models.value, model);
    var status := NotDownloaded;
    if Exists(h.tree, dir) {
      var local: map<string, nat> := map[];
      if IsDir(h.tree, dir) {
        var v := LocalVariants(h.tree, dir);
        if v.Err? {
          return Err(v.error);
        }
        local := v.value;
      }
      status := Downloaded(dir, local);
    }
    r := Ok(InfoReport(model, RepoUrl(model), status, HubVariantsShown(variants)));
  }

  /**
   * After a download succeeds, `info` on the same tree reports the model as
   * downloaded, with the saved artifact among its variants at the length received.
   */
  lemma InfoSeesDownload(t: Tree, home: Option<Path>, os: string, prefix: Option<string>,
                         model: string, quant: Option<string>, reply: Reply)
    requires WellFormed(t) && IsKnownModel(model)
    requires quant.Some? ==> '/' !in quant.value
    requires DownloadIn(t, home, os, prefix, model, quant, reply).0.Ok?
    ensures home.Some? && reply.Response?
    ensures var t' := DownloadIn(t, home, os, prefix, model, quant, reply).1;
            var (m, t1) := ModelsDirIn(t', home);
            m.Ok? && t1 == t'
            && var s := LocalStatus(t1, Join(m.value, model));
               var a := ArtifactName(model, ChosenQuant(quant, os, prefix));
               s.Downloaded? && a in s.variants && s.variants[a] == |Delivered(reply.body)|
  {
    var q := ChosenQuant(quant, os, prefix);
    var (modelDir, t2) := PrepareIn(t, home, model);
    DownloadOkWrites(t, home, os, prefix, model, quant, reply);
    if quant.None? {
      QuantIsPlain(q);
    }
    SeesWrittenArtifact(t2, home.value, model, q, Delivered(reply.body));
  }

  /**
   * Writing an artifact into an existing model directory leaves the models
   * directory in place and makes the artifact one of the model's variants.
   */
  lemma SeesWrittenArtifact(t2: Tree, home: Path, model: string, quant: string, data: seq<Byte>)
    requires WellFormed(t2) && IsKnownModel(model) && '/' !in quant
    requires IsDir(t2, Join(ModelsDir(home), model))
    requires WellFormed(t2[Join(Join(ModelsDir(home), model), ArtifactName(model, quant)) := File(data)])
    ensures var dir := Join(ModelsDir(home), model);
            var t' := t2[Join(dir, ArtifactName(model, quant)) := File(data)];
            ModelsDirIn(t', Some(home)) == (Ok(ModelsDir(home)), t')
            && var s := LocalStatus(t', dir);
               s.Downloaded? && ArtifactName(model, quant) in s.variants
               && s.variants[ArtifactName(model, quant)] == |data|
  {
    var dir := Join(ModelsDir(home), model);
    var a := ArtifactName(model, quant);
    ArtifactNameIsPlain(model, quant);
    JoinPlain(dir, a);
    var t' := t2[dir + [a] := File(data)];
    WriteKeepsModelDirs(t2, home, model, a, data);
    ArtifactIsVariant(t', dir, model, quant, data);
  }

  /** The write touches neither the model's directory nor the directories above it. */
  lemma WriteKeepsModelDirs(t2: Tree, home: Path, model: string, a: string, data: seq<Byte>)
    requires IsKnownModel(model) && IsDir(t2, Join(ModelsDir(home), model))
    requires WellFormed(t2[Join(ModelsDir(home), model) + [a] := File(data)])
    ensures var t' := t2[Join(ModelsDir(home), model) + [a] := File(data)];
            IsDir(t', Join(ModelsDir(home), model))
            && Exists(t', YuukiDir(home)) && Exists(t', ModelsDir(home))
  {
    var dir := Join(ModelsDir(home), model);
    var t' := t2[dir + [a] := File(data)];
    assert IsDir(t', dir) by {
      assert dir != dir + [a];
    }
    KnownModelIsPlain(model);
    JoinPlain(ModelsDir(home), model);
    AncestorsAreDirs(t', dir);
    assert dir[..|ModelsDir(home)|] == ModelsDir(home);
    assert dir[..|YuukiDir(home)|] == YuukiDir(home);
  }

  /** The status never depends on what is inside the directory, only on whether it is there. */
  lemma StatusIffExists(t: Tree, dir: Path)
    ensures LocalStatus(t, dir).Downloaded? <==> Exists(t, dir)
    ensures LocalStatus(t, dir).Downloaded? ==> LocalStatus(t, dir).dir == dir
    ensures Exists(t, dir) && !IsDir(t, dir) ==> LocalStatus(t, dir) == Downloaded(dir, map[])
  {
  }
}
