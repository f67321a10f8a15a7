/**
 * `yuy download`: pick the quantization, create the model's directory, request
 * the artifact from the hub, and stream the reply body into a freshly
 * truncated file, counting the bytes received.
 */
module Download {
  import opened Wrappers
  import opened Paths
  import opened Errors
  import opened Store
  import opened Machine
  import opened Config
  import opened Utils

  /** One item of the reply body stream: a chunk of bytes, or the error that ends it. */
  datatype StreamItem = Chunk(bytes: seq<Byte>) | Broken

  /** The hub's answer to the request, or that the request could not be sent. */
  datatype Reply = Unsent | Response(status: nat, contentLength: Option<nat>, body: seq<StreamItem>)

  datatype DownloadOutcome =
    | UnknownModel                                   // the name is not known: the list is printed
    | Saved(path: Path, size: nat, received: nat)   // `size` is the declared length, as printed

  /** No item of the stream is an error. */
  predicate Intact(items: seq<StreamItem>) {
    forall j :: 0 <= j < |items| ==> items[j].Chunk?
  }

  /** The bytes the stream delivers before it ends or breaks off, in order. */
  function Delivered(items: seq<StreamItem>): seq<Byte> {
    if items == [] then []
    else if items[0].Broken? then []
    else items[0].bytes + Delivered(items[1..])
  }

  /** A further chunk after intact items lands at the end of what was delivered. */
  lemma {:induction false} DeliveredSnoc(items: seq<StreamItem>, bytes: seq<Byte>)
    requires Intact(items)
    ensures Delivered(items + [Chunk(bytes)]) == Delivered(items) + bytes
    decreases |items|
  {
    if items == [] {
      assert Delivered([Chunk(bytes)]) == bytes + Delivered([]);
    } else {
      assert (items + [Chunk(bytes)])[1..] == items[1..] + [Chunk(bytes)];
      DeliveredSnoc(items[1..], bytes);
    }
  }

  /** What a broken stream delivers is exactly what came before its first error. */
  lemma {:induction false} DeliveredUntilBroken(items: seq<StreamItem>, i: nat)
    requires i < |items| && items[i].Broken? && Intact(items[..i])
    ensures Delivered(items) == Delivered(items[..i])
    decreases i
  {
    if i > 0 {
      assert items[1..][..i - 1] == items[..i][1..];
      DeliveredUntilBroken(items[1..], i - 1);
    }
  }

  /** The quantization `download` uses: the one given, verbatim, or the recommendation. */
  function ChosenQuant(quant: Option<string>, os: string, prefix: Option<string>): (q: string)
    ensures quant.Some? ==> q == quant.value
    ensures quant.None? ==> q in AVAILABLE_QUANTS
  {
    if quant.Some? then quant.value else AutoQuantization(os, prefix)
  }

  /** `is_success`: a 2xx status. */
  predicate IsSuccess(status: nat) {
    200 <= status < 300
  }

  /**
   * The steps before the request: `get_models_dir`, then `create_dir_all` of the
   * model's directory. The directory, and the tree afterwards.
   */
  function PrepareIn(t: Tree, home: Option<Path>, model: string): (out: (Result<Path, Error>, Tree))
    requires WellFormed(t)
    ensures WellFormed(out.1)
    ensures out.0.Ok? ==> home.Some? && out.0.value == Join(ModelsDir(home.value), model)
                          && IsDir(out.1, out.0.value)
  {
    var (models, t1) := ModelsDirIn(t, home);
    if models.Err? then (Err(models.error), t1)
    else
      var modelDir := Join(models.value, model);
      MakeDirsWellFormed(t1, modelDir);
      match MakeDirs(t1, modelDir)
      case Err(e) => (Err(e), t1)
      case Ok(t2) =>
        assert modelDir[..|modelDir|] == modelDir;
        (Ok(modelDir), t2)
  }

  /**
   * The request and the file: the URL is logged as requested, the status and the
   * length are checked, then `name` is looked up below `dir`, and the file
   * found there is created and receives the body. `File::create` fails when the
   * lookup does.
   */
  function FetchIn(t: Tree, url: string, dir: Path, name: string, reply: Reply)
    : (out: (Result<(nat, nat), Error>, Tree))
    requires WellFormed(t)
    ensures WellFormed(out.1)
    ensures reply.Unsent? ==> out == (Err(RequestFailed(url)), t)
    ensures reply.Response? && !IsSuccess(reply.status) ==> out == (Err(HttpStatus(reply.status)), t)
    ensures reply.Response? && IsSuccess(reply.status) && reply.contentLength.None? ==> out == (Err(NoContentLength), t)
    ensures out.0.Ok? ==> reply.Response? && Intact(reply.body)
                          && out.0.value == (reply.contentLength.value, |Delivered(reply.body)|)
    ensures out.0.Ok? || out.0 == Err(StreamFailed)
            ==> Resolve(t, dir, name).Some?
                && out.1 == t[Resolve(t, dir, name).value := File(Delivered(reply.body))]
  {
    match reply
    case Unsent => (Err(RequestFailed(url)), t)
    case Response(status, length, body) =>
      if !IsSuccess(status) then (Err(HttpStatus(status)), t)
      else if length.None? then (Err(NoContentLength), t)
      else
        match Resolve(t, dir, name)
        case None => (Err(CannotWrite(Join(dir, name))), t)
        case Some(output) =>
          match WriteFile(t, output, Delivered(body))
          case Err(e) => (Err(e), t)
          case Ok(t3) => (if Intact(body) then Ok((length.value, |Delivered(body)|)) else Err(StreamFailed), t3)
  }

  /**
   * `download::execute` on a given tree: the result, the tree afterwards and
   * the URLs requested.
   */
  function DownloadIn(t: Tree, home: Option<Path>, os: string, prefix: Option<string>,
                      model: string, quant: Option<string>, reply: Reply)
    : (out: (Result<DownloadOutcome, Error>, Tree, seq<string>))
    requires WellFormed(t)
    ensures WellFormed(out.1)
    ensures |out.2| <= 1
    ensures !IsKnownModel(model) ==> out == (Ok(UnknownModel), t, [])
  {
    if !IsKnownModel(model) then (Ok(UnknownModel), t, [])
    else
      var q := ChosenQuant(quant, os, prefix);
      var (modelDir, t2) := PrepareIn(t, home, model);
      if modelDir.Err? then (Err(modelDir.error), t2, [])
      else
        var name := ArtifactName(model, q);
        var (fetched, t3) := FetchIn(t2, ArtifactUrl(model, q), modelDir.value, name, reply);
        match fetched
        case Err(e) => (Err(e), t3, [ArtifactUrl(model, q)])
        case Ok((size, received)) =>
          (Ok(Saved(Resolve(t2, modelDir.value, name).value, size, received)), t3, [ArtifactUrl(model, q)])
  }

  /** An unknown name is not an error: nothing is created and nothing is requested. */
  lemma DownloadUnknownModel(t: Tree, home: Option<Path>, os: string, prefix: Option<string>,
                             model: string, quant: Option<string>, reply: Reply)
    requires WellFormed(t) && !IsKnownModel(model)
    ensures DownloadIn(t, home, os, prefix, model, quant, reply) == (Ok(UnknownModel), t, [])
  {
  }

  /**
   * The one URL requested is the artifact URL for the chosen quantization, and
   * the model's directory was created before it, whatever the reply.
   */
  lemma DownloadRequest(t: Tree, home: Option<Path>, os: string, prefix: Option<string>,
                        model: string, quant: Option<string>, reply: Reply)
    requires WellFormed(t)
    ensures var (r, t', urls) := DownloadIn(t, home, os, prefix, model, quant, reply);
            |urls| <= 1
            && (urls != [] ==> home.Some? && IsKnownModel(model)
                                && urls[0] == ArtifactUrl(model, ChosenQuant(quant, os, prefix))
                                && IsDir(PrepareIn(t, home, model).1, ModelsDir(home.value) + [model]))
  {
    var urls := DownloadIn(t, home, os, prefix, model, quant, reply).2;
    var (modelDir, t2) := PrepareIn(t, home, model);
    if IsKnownModel(model) && modelDir.Ok? {
      var q := ChosenQuant(quant, os, prefix);
      assert urls == [ArtifactUrl(model, q)];
      KnownModelIsPlain(model);
      JoinPlain(ModelsDir(home.value), model);
    } else {
      assert urls == [];
    }
  }

  /**
   * A failed request, a non-success status and a missing length all fail before
   * the output file is created: the tree is the one preparation left.
   */
  lemma DownloadChecksBeforeFile(t: Tree, home: Option<Path>, os: string, prefix: Option<string>,
                                 model: string, quant: Option<string>, reply: Reply)
    requires WellFormed(t) && IsKnownModel(model)
    requires reply.Unsent? || !IsSuccess(reply.status) || reply.contentLength.None?
    ensures var (r, t', urls) := DownloadIn(t, home, os, prefix, model, quant, reply);
            r.Err? && t' == PrepareIn(t, home, model).1
            && (reply.Unsent? && urls != [] ==> r == Err(RequestFailed(urls[0])))
            && (reply.Response? && !IsSuccess(reply.status) && urls != [] ==> r == Err(HttpStatus(reply.status)))
  {
    var q := ChosenQuant(quant, os, prefix);
    var (modelDir, t2) := PrepareIn(t, home, model);
    if modelDir.Ok? {
      var url := ArtifactUrl(model, q);
      var fetched := FetchIn(t2, url, modelDir.value, ArtifactName(model, q), reply);
      assert fetched.0.Err? && fetched.1 == t2;
      assert DownloadIn(t, home, os, prefix, model, quant, reply) == (Err(fetched.0.error), t2, [url]);
    }
  }

  /**
   * Once the file is created it holds exactly the delivered bytes, whatever it
   * held before, and nothing else changes; an intact stream succeeds reporting
   * the declared length, which need not match what was received; a broken one
   * fails keeping what came before the error.
   */
  lemma DownloadWritesDelivered(t: Tree, home: Option<Path>, os: string, prefix: Option<string>,
                                model: string, quant: Option<string>, reply: Reply)
    requires WellFormed(t) && IsKnownModel(model)
    requires reply.Response? && IsSuccess(reply.status) && reply.contentLength.Some?
    requires PrepareIn(t, home, model).0.Ok?
    ensures var (r, t', urls) := DownloadIn(t, home, os, prefix, model, quant, reply);
            var (modelDir, t2) := PrepareIn(t, home, model);
            var output := Resolve(t2, modelDir.value, ArtifactName(model, ChosenQuant(quant, os, prefix)));
            (r.Ok? ==> Intact(reply.body) && output.Some?
                       && r.value == Saved(output.value, reply.contentLength.value, |Delivered(reply.body)|))
            && (r.Ok? || r == Err(StreamFailed) ==> output.Some? && t' == t2[output.value := File(Delivered(reply.body))])
            && (r == Err(StreamFailed) ==> !Intact(reply.body))
            && (output.None? ==> r.Err? && t' == t2)
  {
  }

  /** A successful download leaves the prepared tree with the artifact file written into it. */
  lemma DownloadOkWrites(t: Tree, home: Option<Path>, os: string, prefix: Option<string>,
                         model: string, quant: Option<string>, reply: Reply)
    requires WellFormed(t) && IsKnownModel(model)
    requires DownloadIn(t, home, os, prefix, model, quant, reply).0.Ok?
    ensures var (modelDir, t2) := PrepareIn(t, home, model);
            var a := ArtifactName(model, ChosenQuant(quant, os, prefix));
            modelDir.Ok? && reply.Response?
            && Resolve(t2, modelDir.value, a) == Some(Join(modelDir.value, a))
            && DownloadIn(t, home, os, prefix, model, quant, reply).1
               == t2[Join(modelDir.value, a) := File(Delivered(reply.body))]
  {
    var (modelDir, t2) := PrepareIn(t, home, model);
    var q := ChosenQuant(quant, os, prefix);
    assert modelDir.Ok?;
    var fetched := FetchIn(t2, ArtifactUrl(model, q), modelDir.value, ArtifactName(model, q), reply);
    assert fetched.0.Ok?;
    ResolveIsJoin(t2, modelDir.value, ArtifactName(model, q));
  }

  /** One more chunk of an intact prefix extends what was delivered by exactly its bytes. */
  lemma DeliveredStep(body: seq<StreamItem>, i: nat)
    requires i < |body| && body[i].Chunk? && Intact(body[..i])
    ensures Intact(body[..i + 1])
    ensures Delivered(body[..i + 1]) == Delivered(body[..i]) + body[i].bytes
  {
    assert body[..i + 1] == body[..i] + [Chunk(body[i].bytes)];
    DeliveredSnoc(body[..i], body[i].bytes);
  }

  /**
   * The chunk loop of `download_file`: each chunk is appended to the open
   * output file until the stream ends or an error item breaks it off.
   */
  method WriteStream(h: Host, output: Path, body: seq<StreamItem>) returns (intact: bool, downloaded: nat)
    requires output in h.tree && h.tree[output] == File([])
    modifies h`tree
    ensures intact == Intact(body)
    ensures h.tree == old(h.tree)[output := File(Delivered(body))]
    ensures downloaded == |Delivered(body)|
  {
    ghost var t0 := h.tree;
    downloaded := 0;
    var i := 0;
    while i < |body|
      invariant 0 <= i <= |body| && Intact(body[..i])
      invariant h.tree == t0[output := File(Delivered(body[..i]))]
      invariant downloaded == |Delivered(body[..i])|
    {
      match body[i] {
        case Broken =>
          DeliveredUntilBroken(body, i);
          return false, downloaded;
        case Chunk(bytes) =>
          DeliveredStep(body, i);
          h.tree := h.tree[output := File(h.tree[output].data + bytes)];
          downloaded := downloaded + |bytes|;
      }
      i := i + 1;
    }
    assert body[..i] == body;
    return true, downloaded;
  }

  method Fetch(h: Host, url: string, dir: Path, name: string, reply: Reply) returns (r: Result<(nat, nat), Error>)
    requires h.Valid()
    modifies h`tree, h`requests
    ensures h.Valid()
    ensures (r, h.tree) == FetchIn(old(h.tree), url, dir, name, reply)
    ensures h.requests == old(h.requests) + [url]
  {
    h.requests := h.requests + [url];
    if reply.Unsent? {
      return Err(RequestFailed(url));
    }
    if !IsSuccess(reply.status) {
      return Err(HttpStatus(reply.status));
    }
    if reply.contentLength.None? {
      return Err(NoContentLength);
    }
    var totalSize := reply.contentLength.value;
    var output := Resolve(h.tree, dir, name);
    if output.None? {
      return Err(CannotWrite(Join(dir, name)));
    }
    var created := WriteFile(h.tree, output.value, []);
    if created.Err? {
      return Err(created.error);
    }
    ghost var t2 := h.tree;
    h.tree := created.value;
    var intact, downloaded := WriteStream(h, output.value, reply.body);
    assert h.tree == t2[output.value := File(Delivered(reply.body))];
    assert WriteFile(t2, output.value, Delivered(reply.body)).Ok?;
    if !intact {
      return Err(StreamFailed);
    }
    r := Ok((totalSize, downloaded));
  }

  /** `download::execute`. */
  method Execute(h: Host, model: string, quant: Option<string>, reply: Reply) returns (r: Result<DownloadOutcome, Error>)
    requires h.Valid()
    modifies h`tree, h`requests
    ensures h.Valid()
    ensures var (res, t, urls) := DownloadIn(old(h.tree), h.home, h.os, h.prefixVar, model, quant, reply);
            r == res && h.tree == t && h.requests == old(h.requests) + urls
  {
    if !IsKnownModel(model) {
      return Ok(UnknownModel);
    }
    var q := if quant.Some? then quant.value else RecommendQuantization(DetectPlatform(h.os, h.prefixVar), AvailableRamGb());
    ghost var t0 := h.tree;
    var models := GetModelsDir(h);
    if models.Err? {
      return Err(models.error);
    }
    var modelDir := Join(models.value, model);
    var made := MakeDirs(h.tree, modelDir);
    if made.Err? {
      return Err(made.error);
    }
    MakeDirsWellFormed(h.tree, modelDir);
    h.tree := made.value;
    assert PrepareIn(t0, h.home, model) == (Ok(modelDir), h.tree);
    var output := Resolve(h.tree, modelDir, ArtifactName(model, q));
    var fetched := Fetch(h, ArtifactUrl(model, q), modelDir, ArtifactName(model, q), reply);
    match fetched {
      case Err(e) =>
        r := Err(e);
      case Ok((size, received)) =>
        r := Ok(Saved(output.value, size, received));
    }
  }
}
