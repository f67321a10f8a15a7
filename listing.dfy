/**
 * `yuy list models`: the models on disk with the `.gguf` files in each, or,
 * with `--remote`, the models the hub offers. The variant filter is shared
 * with `yuy info`.
 */
module Listing {
  import opened Wrappers
  import opened Text
  import opened Paths
  import opened Errors
  import opened Store
  import opened Machine
  import opened Config

  /** A model artifact: the name ends in ".gguf". */
  predicate IsGguf(name: string) {
    EndsWith(name, ".gguf")
  }

  /**
   * The entries of `dir` the variant loop shows: listed without an error item
   * in their place, and named `*.gguf`, whatever kind of entry they are.
   */
  function Variants(t: Tree, dir: Path): set<string> {
    set n | n in Children(t, dir) && IsGguf(n) && !t[dir + [n]].Unreadable?
  }

  /** No shown variant has metadata that fails to read. */
  predicate VariantsReadable(t: Tree, dir: Path) {
    forall n :: n in Variants(t, dir) ==> !t[dir + [n]].Unstatable?
  }

  /** Each shown variant with the length its metadata reports. */
  function VariantSizes(t: Tree, dir: Path): map<string, nat> {
    map n | n in Variants(t, dir) :: EntrySize(t, dir + [n])
  }

  /** Every artifact `download` names is a variant, shown with the length of its bytes. */
  lemma ArtifactIsVariant(t: Tree, dir: Path, model: string, quant: string, data: seq<Byte>)
    requires dir + [ArtifactName(model, quant)] in t && t[dir + [ArtifactName(model, quant)]] == File(data)
    ensures ArtifactName(model, quant) in VariantSizes(t, dir)
    ensures VariantSizes(t, dir)[ArtifactName(model, quant)] == |data|
  {
    var a := ArtifactName(model, quant);
    assert a == Lower(model) + "-" + quant + ".gguf";
    assert a[|a| - 5..] == ".gguf";
    assert a in Children(t, dir);
  }

  /** Entries named otherwise, and error items, are never shown, however large. */
  lemma OnlyGgufShown(t: Tree, dir: Path, n: string)
    requires dir + [n] in t
    ensures n in VariantSizes(t, dir) <==> IsGguf(n) && !t[dir + [n]].Unreadable?
  {
    assert n in Children(t, dir);
  }

  /**
   * The inner loop of the local listing (and of `info`): the variants of one
   * model directory with their sizes, or the metadata error of one of them.
   * Error items in the listing are skipped.
   */
  method LocalVariants(t: Tree, dir: Path) returns (r: Result<map<string, nat>, Error>)
    ensures r.Ok? <==> VariantsReadable(t, dir)
    ensures r.Ok? ==> r.value == VariantSizes(t, dir)
    ensures r.Err? ==> exists n :: n in Variants(t, dir) && t[dir + [n]].Unstatable?
                                   && r.error == MetadataFailed(dir + [n])
  {
    var pending := Children(t, dir);
    ghost var done: set<string> := {};
    var sizes: map<string, nat> := map[];
    while pending != {}
      invariant pending !! done && pending + done == Children(t, dir)
      invariant forall n :: n in sizes <==> n in done && n in Variants(t, dir)
      invariant forall n :: n in sizes ==> sizes[n] == EntrySize(t, dir + [n])
      invariant forall n :: n in done && n in Variants(t, dir) ==> !t[dir + [n]].Unstatable?
      decreases pending
    {
      var n :| n in pending;
      var entry := t[dir + [n]];
      if !entry.Unreadable? && IsGguf(n) {
        if entry.Unstatable? {
          return Err(MetadataFailed(dir + [n]));
        }
        sizes := sizes[n := EntrySize(t, dir + [n])];
      }
      pending := pending - {n};
      done := done + {n};
    }
    assert sizes == VariantSizes(t, dir);
    r := Ok(sizes);
  }

  // ---- Local models ----

  datatype LocalListing =
    | NoModels                                      // the hint to download one is printed
    | Models(models: map<string, map<string, nat>>) // each model directory with its variants

  /** The top-level entries that `is_dir` accepts: the model directories. */
  function ModelDirs(t: Tree, models: Path): set<string> {
    set n | n in Children(t, models) && t[models + [n]].Dir?
  }

  /** Each model directory with its variants and their sizes. */
  function LocalModels(t: Tree, models: Path): map<string, map<string, nat>> {
    map d | d in ModelDirs(t, models) :: VariantSizes(t, models + [d])
  }

  /** No top-level error item, and every model directory's variants have readable metadata. */
  predicate ListingReadable(t: Tree, models: Path) {
    (forall n :: n in Children(t, models) ==> !t[models + [n]].Unreadable?)
    && (forall d :: d in ModelDirs(t, models) ==> VariantsReadable(t, models + [d]))
  }

  /** The errors the listing can stop on; which one depends on the listing order. */
  predicate IsListError(t: Tree, models: Path, e: Error) {
    (exists n :: n in Children(t, models) && t[models + [n]].Unreadable? && e == EntryFailed(models + [n]))
    || (exists d, f :: d in ModelDirs(t, models) && f in Variants(t, models + [d])
                       && t[models + [d] + [f]].Unstatable? && e == MetadataFailed(models + [d] + [f]))
  }

  /**
   * `list_local_models` after the models directory is known: "no models" when
   * it is absent or empty, an error when it cannot be listed, otherwise the
   * model directories (files and failing entries at the top level are skipped,
   * a directory without variants is still shown).
   */
  method ListLocal(t: Tree, models: Path) returns (r: Result<LocalListing, Error>)
    ensures r == Ok(NoModels) <==> !Exists(t, models) || (IsDir(t, models) && Children(t, models) == {})
    ensures Exists(t, models) && !IsDir(t, models) ==> r == Err(CannotRead(models))
    ensures IsDir(t, models) && Children(t, models) != {} ==> (r.Ok? <==> ListingReadable(t, models))
    ensures r.Ok? && !r.value.NoModels? ==> r.value == Models(LocalModels(t, models))
    ensures r.Err? && IsDir(t, models) ==> IsListError(t, models, r.error)
  {
    if !Exists(t, models) {
      return Ok(NoModels);
    }
    if !IsDir(t, models) {
      return Err(CannotRead(models));
    }
    var pending := Children(t, models);
    if pending == {} {
      return Ok(NoModels);
    }
    ghost var done: set<string> := {};
    var listing: map<string, map<string, nat>> := map[];
    while pending != {}
      invariant pending !! done && pending + done == Children(t, models)
      invariant forall n :: n in done ==> !t[models + [n]].Unreadable?
      invariant forall d :: d in listing <==> d in done && d in ModelDirs(t, models)
      invariant forall d :: d in listing ==> VariantsReadable(t, models + [d])
      invariant forall d :: d in listing ==> listing[d] == VariantSizes(t, models + [d])
      decreases pending
    {
      var n :| n in pending;
      var entry := t[models + [n]];
      if entry.Unreadable? {
        return Err(EntryFailed(models + [n]));
      }
      if entry.Dir? {
        var v := LocalVariants(t, models + [n]);
        if v.Err? {
          assert n in ModelDirs(t, models);
          return Err(v.error);
        }
        listing := listing[n := v.value];
      }
      pending := pending - {n};
      done := done + {n};
    }
    assert listing == LocalModels(t, models);
    r := Ok(Models(listing));
  }

  /** `list_local_models`: the models directory is made first, as everywhere. */
  method ListLocalModels(h: Host) returns (r: Result<LocalListing, Error>)
    requires h.Valid()
    modifies h`tree
    ensures h.Valid()
    ensures var (m, t1) := ModelsDirIn(old(h.tree), h.home);
            h.tree == t1
            && (m.Err? ==> r == Err(m.error))
            && (m.Ok? ==>
                  (r == Ok(NoModels) <==> IsDir(t1, m.value) && Children(t1, m.value) == {})
                  && (!IsDir(t1, m.value) ==> r == Err(CannotRead(m.value)))
                  && (IsDir(t1, m.value) && Children(t1, m.value) != {} ==> (r.Ok? <==> ListingReadable(t1, m.value)))
                  && (r.Ok? && !r.value.NoModels? ==> r.value == Models(LocalModels(t1, m.value))))
  {
    var models := GetModelsDir(h);
    if models.Err? {
      return Err(models.error);
    }
    r := ListLocal(h.tree, models.value);
  }

  /** A model directory with nothing in it is listed, by name, with no variants. */
  lemma EmptyModelDirListed(t: Tree, models: Path, d: string)
    requires models + [d] in t && t[models + [d]].Dir? && Children(t, models + [d]) == {}
    ensures d in LocalModels(t, models) && LocalModels(t, models)[d] == map[]
  {
    assert d in Children(t, models);
  }

  // ---- Remote models ----

  /** One entry of the remote listing: the model and its page on the hub. */
  datatype RemoteEntry = RemoteEntry(model: string, url: string)

  /** The loop over the table: one entry per name, in the table's order. */
  function RemoteEntries(names: seq<string>): (r: seq<RemoteEntry>)
    ensures |r| == |names|
    ensures forall i :: 0 <= i < |names| ==> r[i] == RemoteEntry(names[i], HUB + "/" + HF_ORG + "/" + names[i])
  {
    if names == [] then [] else [RemoteEntry(names[0], RepoUrl(names[0]))] + RemoteEntries(names[1..])
  }

  /** `list_remote_models`: every known model, in table order, with its page. */
  function RemoteListing(): seq<RemoteEntry> {
    RemoteEntries(YUUKI_MODELS)
  }

  /** The remote listing names exactly the models `download`, `run` and `info` accept. */
  lemma RemoteListingIsKnownModels(model: string)
    ensures (exists i :: 0 <= i < |RemoteListing()| && RemoteListing()[i].model == model) <==> IsKnownModel(model)
    ensures forall e :: e in RemoteListing() ==> e.url == RepoUrl(e.model)
  {
    if IsKnownModel(model) {
      var i :| 0 <= i < |YUUKI_MODELS| && YUUKI_MODELS[i] == model;
      assert RemoteListing()[i].model == model;
    }
  }

  /** The tags the hub is said to offer, as `info --variants` and the remote listing print them. */
  const HUB_VARIANTS: seq<string> := ["q4_0", "q5_k_m", "q8_0", "f32"]

  /** They are registry tags in registry order, and q4_k_m is the one left out. */
  lemma HubVariantsInRegistry()
    ensures forall q :: q in HUB_VARIANTS ==> q in AVAILABLE_QUANTS
    ensures "q4_k_m" in AVAILABLE_QUANTS && "q4_k_m" !in HUB_VARIANTS
    ensures forall i, j :: 0 <= i < j < |HUB_VARIANTS| ==>
              exists a, b :: 0 <= a < b < |AVAILABLE_QUANTS| && AVAILABLE_QUANTS[a] == HUB_VARIANTS[i]
                                                          && AVAILABLE_QUANTS[b] == HUB_VARIANTS[j]
  {
    assert HUB_VARIANTS == [AVAILABLE_QUANTS[0], AVAILABLE_QUANTS[2], AVAILABLE_QUANTS[3], AVAILABLE_QUANTS[4]];
    var pos := [0, 2, 3, 4];
    forall i, j | 0 <= i < j < |HUB_VARIANTS|
      ensures exists a, b :: 0 <= a < b < |AVAILABLE_QUANTS| && AVAILABLE_QUANTS[a] == HUB_VARIANTS[i]
                                                         && AVAILABLE_QUANTS[b] == HUB_VARIANTS[j]
    {
      assert AVAILABLE_QUANTS[pos[i]] == HUB_VARIANTS[i] && AVAILABLE_QUANTS[pos[j]] == HUB_VARIANTS[j];
    }
  }
}
