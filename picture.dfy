/**
 * The upload handler of bin/web.js: it builds the object key, stores the
 * original, asks the image provider for transformations and then walks the
 * size-variant table, storing every variant it has a transformation for and
 * recording in the `picture` map the first stored variant of every label. The
 * provider's answer and the outcome of every storage put are inputs.
 */
module Picture {
  import opened Common
  import opened Text
  import opened Keys
  import opened Optims
  import Errors

  /** One transformation returned by the provider. */
  datatype Transformation = Transformation(sizeLabel: string, avif: bool, imageBody: Bytes)

  /** `{ url, size }`; the `zoom` entry has no size. */
  datatype PictureEntry = PictureEntry(url: string, size: Option<int>)

  type PictureMap = map<string, PictureEntry>

  /**
   * A `putObject` call: the stored key, the content type and the body. The
   * ACL `public-read` and the cache policy `public, max-age=31536000` are the
   * same on every put and are not repeated here.
   */
  datatype PutRequest = PutRequest(key: string, contentType: string, body: Bytes)

  /** Where the variants of one upload go: the tenant, the host of the public URLs and the upload's object key. */
  datatype Target = Target(storeId: nat, baseHost: string, key: string)

  predicate Matches(t: Transformation, o: Optim)
  {
    t.sizeLabel == o.sizeLabel && t.avif == o.avif
  }

  /** `transformations.find(...)`: the index of the first transformation with the entry's label and encoding. */
  function FindTransformation(ts: seq<Transformation>, o: Optim): (r: Option<nat>)
    ensures r.Some? ==> r.value < |ts| && Matches(ts[r.value], o)
    ensures r.Some? ==> forall j :: 0 <= j < r.value ==> !Matches(ts[j], o)
    ensures r.None? ==> forall j :: 0 <= j < |ts| ==> !Matches(ts[j], o)
  {
    if ts == [] then None
    else if Matches(ts[0], o) then Some(0)
    else match FindTransformation(ts[1..], o)
      case None => None
      case Some(k) => Some(k + 1)
  }

  /** `imgs/<label>/<key>.webp|.avif` for one table entry. */
  function VariantPath(target: Target, o: Optim): string
  {
    VariantKey(o.sizeLabel, target.key, o.avif)
  }

  function VariantPut(target: Target, o: Optim, t: Transformation): PutRequest
  {
    PutRequest(StoredKey(target.storeId, VariantPath(target, o)), VariantContentType(o.avif), t.imageBody)
  }

  function VariantEntry(target: Target, o: Optim): PictureEntry
  {
    PictureEntry(MountUri(target.baseHost, target.storeId, VariantPath(target, o)), Some(o.size))
  }

  /** Entry i had a transformation and its put succeeded. */
  predicate Succeeds(optims: seq<Optim>, ts: seq<Transformation>, putOk: seq<bool>, i: nat)
    requires |putOk| == |optims| && i < |optims|
  {
    FindTransformation(ts, optims[i]).Some? && putOk[i]
  }

  /** What handling one entry does to the map: a stored variant is added unless its label is already there. */
  function PictureStep(before: PictureMap, o: Optim, ts: seq<Transformation>, ok: bool, target: Target): PictureMap
  {
    if FindTransformation(ts, o).Some? && ok && o.sizeLabel !in before
    then before[o.sizeLabel := VariantEntry(target, o)]
    else before
  }

  /** The put one entry issues, if it has a transformation. */
  function PutStep(o: Optim, ts: seq<Transformation>, target: Target): seq<PutRequest>
  {
    match FindTransformation(ts, o)
    case Some(k) => [VariantPut(target, o, ts[k])]
    case None => []
  }

  /** The picture map after the loop has handled every entry of `optims`, in order. */
  function PictureAfter(picture: PictureMap, optims: seq<Optim>, ts: seq<Transformation>,
                        putOk: seq<bool>, target: Target): PictureMap
    requires |putOk| == |optims|
    decreases |optims|
  {
    if optims == [] then picture
    else
      var n := |optims| - 1;
      PictureStep(PictureAfter(picture, optims[..n], ts, putOk[..n], target), optims[n], ts, putOk[n], target)
  }

  /** The puts the loop issues: one per entry that has a transformation, in table order. */
  function PutsIssued(optims: seq<Optim>, ts: seq<Transformation>, target: Target): seq<PutRequest>
    decreases |optims|
  {
    if optims == [] then []
    else
      var n := |optims| - 1;
      PutsIssued(optims[..n], ts, target) + PutStep(optims[n], ts, target)
  }

  lemma LoopStep(picture0: PictureMap, optims: seq<Optim>, ts: seq<Transformation>,
                 putOk: seq<bool>, target: Target, i: nat)
    requires |putOk| == |optims| && i < |optims|
    ensures PictureAfter(picture0, optims[..i + 1], ts, putOk[..i + 1], target)
         == PictureStep(PictureAfter(picture0, optims[..i], ts, putOk[..i], target), optims[i], ts, putOk[i], target)
    ensures PutsIssued(optims[..i + 1], ts, target) == PutsIssued(optims[..i], ts, target) + PutStep(optims[i], ts, target)
  {
    assert optims[..i + 1][..i] == optims[..i] && putOk[..i + 1][..i] == putOk[..i];
  }

  /** The loop of the upload handler over the size-variant table. */
  method AssemblePicture(picture0: PictureMap, optims: seq<Optim>, ts: seq<Transformation>,
                         putOk: seq<bool>, target: Target)
    returns (picture: PictureMap, puts: seq<PutRequest>)
    requires |putOk| == |optims|
    ensures picture == PictureAfter(picture0, optims, ts, putOk, target)
    ensures puts == PutsIssued(optims, ts, target)
  {
    picture := picture0;
    puts := [];
    for i := 0 to |optims|
      invariant picture == PictureAfter(picture0, optims[..i], ts, putOk[..i], target)
      invariant puts == PutsIssued(optims[..i], ts, target)
    {
      LoopStep(picture0, optims, ts, putOk, target, i);
      var o := optims[i];
      var found := FindTransformation(ts, o);
      if found.Some? {
        var t := ts[found.value];
        var newKey := "imgs/" + o.sizeLabel + "/" + target.key;
        var contentType;
        if o.avif {
          newKey := newKey + ".avif";
          contentType := "image/avif";
        } else {
          newKey := newKey + ".webp";
          contentType := "image/webp";
        }
        assert newKey == VariantPath(target, o);
        var put := PutRequest(Decimal(target.storeId) + "/" + newKey, contentType, t.imageBody);
        assert [put] == PutStep(o, ts, target);
        puts := puts + [put];
        if putOk[i] {
          if o.sizeLabel !in picture {
            picture := picture[o.sizeLabel := PictureEntry(MountUri(target.baseHost, target.storeId, newKey), Some(o.size))];
          }
        }
      }
    }
    assert optims[..|optims|] == optims && putOk[..|putOk|] == putOk;
  }

  /** An entry already in the map is never removed or overwritten. */
  lemma {:induction false} EntriesKept(picture: PictureMap, optims: seq<Optim>, ts: seq<Transformation>,
                                       putOk: seq<bool>, target: Target)
    requires |putOk| == |optims|
    ensures var r := PictureAfter(picture, optims, ts, putOk, target);
      forall k :: k in picture ==> k in r && r[k] == picture[k]
    decreases |optims|
  {
    if optims != [] {
      var n := |optims| - 1;
      EntriesKept(picture, optims[..n], ts, putOk[..n], target);
    }
  }

  /** The labels of the entries whose variant was stored. */
  function StoredLabels(optims: seq<Optim>, ts: seq<Transformation>, putOk: seq<bool>): set<string>
    requires |putOk| == |optims|
  {
    set i | 0 <= i < |optims| && Succeeds(optims, ts, putOk, i) :: optims[i].sizeLabel
  }

  lemma StoredLabelsStep(optims: seq<Optim>, ts: seq<Transformation>, putOk: seq<bool>)
    requires |putOk| == |optims| && optims != []
    ensures var n := |optims| - 1;
      StoredLabels(optims, ts, putOk)
        == StoredLabels(optims[..n], ts, putOk[..n])
           + (if Succeeds(optims, ts, putOk, n) then {optims[n].sizeLabel} else {})
  {
    var n := |optims| - 1;
    var prev := StoredLabels(optims[..n], ts, putOk[..n]);
    var all := StoredLabels(optims, ts, putOk);
    var extra: set<string> := if Succeeds(optims, ts, putOk, n) then {optims[n].sizeLabel} else {};
    forall l | l in all
      ensures l in prev + extra
    {
      var i :| 0 <= i < |optims| && Succeeds(optims, ts, putOk, i) && optims[i].sizeLabel == l;
      if i < n {
        assert Succeeds(optims[..n], ts, putOk[..n], i);
      }
    }
    forall l | l in prev
      ensures l in all
    {
      var i :| 0 <= i < n && Succeeds(optims[..n], ts, putOk[..n], i) && optims[..n][i].sizeLabel == l;
      assert Succeeds(optims, ts, putOk, i);
    }
  }

  /** The map gains exactly the labels of the stored variants. */
  lemma {:induction false} PictureKeys(picture: PictureMap, optims: seq<Optim>, ts: seq<Transformation>,
                                       putOk: seq<bool>, target: Target)
    requires |putOk| == |optims|
    ensures PictureAfter(picture, optims, ts, putOk, target).Keys == picture.Keys + StoredLabels(optims, ts, putOk)
    decreases |optims|
  {
    if optims != [] {
      var n := |optims| - 1;
      PictureKeys(picture, optims[..n], ts, putOk[..n], target);
      StoredLabelsStep(optims, ts, putOk);
    }
  }

  /** The first entry with label `l` whose variant was stored, if any. */
  function FirstStored(optims: seq<Optim>, ts: seq<Transformation>, putOk: seq<bool>, l: string): (r: Option<nat>)
    requires |putOk| == |optims|
    ensures r.Some? ==> r.value < |optims| && optims[r.value].sizeLabel == l && Succeeds(optims, ts, putOk, r.value)
    ensures r.Some? ==> forall j :: 0 <= j < r.value && optims[j].sizeLabel == l ==> !Succeeds(optims, ts, putOk, j)
    ensures r.None? ==> forall j :: 0 <= j < |optims| && optims[j].sizeLabel == l ==> !Succeeds(optims, ts, putOk, j)
    decreases |optims|
  {
    if optims == [] then None
    else
      var n := |optims| - 1;
      assert forall i :: 0 <= i < n ==> Succeeds(optims[..n], ts, putOk[..n], i) == Succeeds(optims, ts, putOk, i);
      match FirstStored(optims[..n], ts, putOk[..n], l)
      case Some(k) => Some(k)
      case None => if optims[n].sizeLabel == l && Succeeds(optims, ts, putOk, n) then Some(n) else None
  }

  /**
   * First success wins: a label that was not in the map is present afterwards
   * exactly when one of its entries was stored, and it then holds the first
   * such entry's URL and size.
   */
  lemma {:induction false} FirstSuccessWins(picture: PictureMap, optims: seq<Optim>, ts: seq<Transformation>,
                                            putOk: seq<bool>, target: Target, l: string)
    requires |putOk| == |optims| && l !in picture
    ensures var r := PictureAfter(picture, optims, ts, putOk, target);
      var first := FirstStored(optims, ts, putOk, l);
      && (l in r <==> first.Some?)
      && (first.Some? ==> r[l] == VariantEntry(target, optims[first.value]))
    decreases |optims|
  {
    if optims != [] {
      var n := |optims| - 1;
      FirstSuccessWins(picture, optims[..n], ts, putOk[..n], target, l);
    }
  }

  /** When no variant is stored the map is left exactly as it was (a `zoom`-only response). */
  lemma NothingStored(picture: PictureMap, optims: seq<Optim>, ts: seq<Transformation>,
                      putOk: seq<bool>, target: Target)
    requires |putOk| == |optims|
    requires forall i :: 0 <= i < |optims| ==> !Succeeds(optims, ts, putOk, i)
    ensures PictureAfter(picture, optims, ts, putOk, target) == picture
  {
    var r := PictureAfter(picture, optims, ts, putOk, target);
    PictureKeys(picture, optims, ts, putOk, target);
    EntriesKept(picture, optims, ts, putOk, target);
    assert StoredLabels(optims, ts, putOk) == {};
    assert r.Keys == picture.Keys;
  }

  /** Every entry that had a transformation led to a put of its variant. */
  lemma {:induction false} PutIssued(optims: seq<Optim>, ts: seq<Transformation>, target: Target, i: nat)
    requires i < |optims| && FindTransformation(ts, optims[i]).Some?
    ensures VariantPut(target, optims[i], ts[FindTransformation(ts, optims[i]).value]) in PutsIssued(optims, ts, target)
    decreases |optims|
  {
    var n := |optims| - 1;
    var p := VariantPut(target, optims[i], ts[FindTransformation(ts, optims[i]).value]);
    assert PutsIssued(optims, ts, target) == PutsIssued(optims[..n], ts, target) + PutStep(optims[n], ts, target);
    if i < n {
      assert optims[..n][i] == optims[i];
      PutIssued(optims[..n], ts, target, i);
      assert p in PutsIssued(optims[..n], ts, target);
    } else {
      assert PutStep(optims[n], ts, target) == [p];
    }
  }

  function PutFor(target: Target, o: Optim, ts: seq<Transformation>): PutRequest
    requires FindTransformation(ts, o).Some?
  {
    VariantPut(target, o, ts[FindTransformation(ts, o).value])
  }

  /** Every URL the loop adds points at the key of a put it issued and that succeeded. */
  lemma UrlsPointAtPuts(picture: PictureMap, optims: seq<Optim>, ts: seq<Transformation>,
                        putOk: seq<bool>, target: Target, l: string)
    requires |putOk| == |optims| && l !in picture
    requires l in PictureAfter(picture, optims, ts, putOk, target)
    ensures exists i :: 0 <= i < |optims| && Succeeds(optims, ts, putOk, i) && PutFor(target, optims[i], ts) in PutsIssued(optims, ts, target) && PictureAfter(picture, optims, ts, putOk, target)[l].url == "https://" + target.baseHost + "/" + PutFor(target, optims[i], ts).key
  {
    FirstSuccessWins(picture, optims, ts, putOk, target, l);
    var i := FirstStored(optims, ts, putOk, l).value;
    PutIssued(optims, ts, target, i);
    assert PutFor(target, optims[i], ts) in PutsIssued(optims, ts, target);
  }

  /**
   * With the table of `BuildOptims`, the webp variant of the first two sizes
   * is preferred: the label holds the webp URL when that put succeeded and the
   * avif URL only when the webp one did not.
   */
  lemma WebpPreferred(picture: PictureMap, sizes: seq<int>, optims: seq<Optim>, ts: seq<Transformation>,
                      putOk: seq<bool>, target: Target, i: nat)
    requires IsTable(optims, sizes) && |putOk| == |optims| && i < 2 && i < |sizes|
    requires SizeLabel(i) !in picture
    ensures var r := PictureAfter(picture, optims, ts, putOk, target);
      var l := SizeLabel(i);
      && (Succeeds(optims, ts, putOk, 2 * i) ==>
            l in r && r[l] == VariantEntry(target, Optim(sizes[i], l, false)))
      && (!Succeeds(optims, ts, putOk, 2 * i) && Succeeds(optims, ts, putOk, 2 * i + 1) ==>
            l in r && r[l] == VariantEntry(target, Optim(sizes[i], l, true)))
      && (!Succeeds(optims, ts, putOk, 2 * i) && !Succeeds(optims, ts, putOk, 2 * i + 1) ==> l !in r)
  {
    var l := SizeLabel(i);
    assert optims[2 * i] == Optim(sizes[i], l, false) && optims[2 * i + 1] == Optim(sizes[i], l, true);
    forall j | 0 <= j < |optims| && optims[j].sizeLabel == l
      ensures j == 2 * i || j == 2 * i + 1
    {
      TableEntry(optims, sizes, j);
    }
    FirstSuccessWins(picture, optims, ts, putOk, target, l);
    var first := FirstStored(optims, ts, putOk, l);
    if Succeeds(optims, ts, putOk, 2 * i) {
      assert first == Some(2 * i);
    } else if Succeeds(optims, ts, putOk, 2 * i + 1) {
      assert first == Some(2 * i + 1);
    } else {
      assert first == None;
    }
  }

  /**
   * The key of a new upload, built up piece by piece: `@v3/`, the sanitised
   * directory when one is given, then `<timestamp>-<sanitised file name>`.
   */
  method NewObjectKey(directory: Option<string>, now: nat, originalName: string) returns (key: string)
    ensures key == ObjectKey(directory, now, originalName)
    ensures key[..4] == KeyPrefix && NoDotSegment(key)
    ensures key[|key| - |FilePart(now, originalName)|..] == FilePart(now, originalName)
  {
    key := "@v3/";
    if directory.Some? && directory.value != [] && directory.value[0] == '/' {
      var dir := SanitizedDirectory(directory.value[1..]);
      if |dir| > 0 {
        key := key + LowerCase(dir) + "/";
      }
    }
    assert key == KeyPrefix + DirectoryPart(directory);
    var filename := LowerCase(Keep(originalName, IsNameChar));
    key := key + Decimal(now) + "-" + filename;
    assert key == KeyPrefix + DirectoryPart(directory) + FilePart(now, originalName);
    ObjectKeyShape(directory, now, originalName);
  }

  /** The uploaded file as the multipart parser hands it over. */
  datatype UploadedFile = UploadedFile(originalName: string, mimetype: string, buffer: Bytes)

  /** The primary space's bucket and host, the optional CDN host and the size-variant table. */
  datatype Config = Config(bucket: string, host: string, cdnHost: string, optims: seq<Optim>)

  /** The outcome of the put of the original. */
  datatype PutOutcome = Stored | PutFailed(message: string)

  /** The put of the original: under `<storeId>/<key>` with the file's own content type. */
  function OriginalPut(storeId: nat, key: string, file: UploadedFile): PutRequest
  {
    PutRequest(StoredKey(storeId, key), file.mimetype, file.buffer)
  }

  /** `{ zoom: { url: uri } }`, the map the loop starts from. */
  function ZoomOnly(uri: string): PictureMap
  {
    map["zoom" := PictureEntry(uri, None)]
  }

  /** The answer of the upload endpoint. */
  datatype UploadResponse =
    | Uploaded(bucket: string, key: string, uri: string, picture: PictureMap)
    | UploadRejected(error: Errors.ErrorBody)
      /** `req.file.originalname` threw a `TypeError`: the handler itself sends no answer. */
    | HandlerThrew

  /**
   * `POST /:store/upload.json` after authentication. `parseError` is the
   * multipart parser's failure, `file` the parsed file (absent when the
   * request had no `file` field), `now` the clock reading, `original` the
   * outcome of storing the original, `provider` the settled transformation
   * request and `putOk` the outcome of each variant put.
   */
  method HandleUpload(cfg: Config, storeId: nat, parseError: Option<string>, directory: Option<string>,
                      now: nat, file: Option<UploadedFile>, original: PutOutcome,
                      provider: Settled<seq<Transformation>>, putOk: seq<bool>)
    returns (response: UploadResponse, puts: seq<PutRequest>)
    requires |putOk| == |cfg.optims|
    ensures parseError.Some? ==> puts == []
    ensures parseError.Some? ==>
      response == UploadRejected(Errors.SendError(400, 3001, parseError.value, Some(Errors.InvalidFile)))
    ensures parseError.None? && file.None? ==> response == HandlerThrew && puts == []
    ensures parseError.None? && file.Some? ==>
      puts != [] && puts[0] == OriginalPut(storeId, ObjectKey(directory, now, file.value.originalName), file.value)
    ensures parseError.None? && file.Some? && original.PutFailed? ==>
      && |puts| == 1
      && response == UploadRejected(Errors.SendError(400, 3002, original.message, Some(Errors.CdnUploadFailed)))
    ensures parseError.None? && file.Some? && original.Stored? ==>
      && response.Uploaded?
      && response.bucket == cfg.bucket
      && response.key == ObjectKey(directory, now, file.value.originalName)
      && response.uri == MountUri(BaseHost(cfg.cdnHost, cfg.host), storeId, response.key)
    ensures parseError.None? && file.Some? && original.Stored? && provider.Rejected? ==>
      |puts| == 1 && response.picture == ZoomOnly(response.uri)
    ensures parseError.None? && file.Some? && original.Stored? && provider.Resolved? ==>
      var target := Target(storeId, BaseHost(cfg.cdnHost, cfg.host), response.key);
      && response.picture == PictureAfter(ZoomOnly(response.uri), cfg.optims, provider.value, putOk, target)
      && puts[1..] == PutsIssued(cfg.optims, provider.value, target)
    ensures response.Uploaded? ==> "zoom" in response.picture && response.picture["zoom"] == PictureEntry(response.uri, None)
  {
    puts := [];
    if parseError.Some? {
      response := UploadRejected(Errors.SendError(400, 3001, parseError.value, Some(Errors.InvalidFile)));
      return;
    }
    if file.None? {
      response := HandlerThrew;
      return;
    }
    var key := NewObjectKey(directory, now, file.value.originalName);
    var storedKey := StoredKey(storeId, key);
    puts := puts + [PutRequest(storedKey, file.value.mimetype, file.value.buffer)];
    if original.PutFailed? {
      response := UploadRejected(Errors.SendError(400, 3002, original.message, Some(Errors.CdnUploadFailed)));
      return;
    }
    var variantPuts;
    response, variantPuts := RespondStored(cfg, storeId, key, provider, putOk);
    puts := puts + variantPuts;
  }

  /**
   * What follows a stored original: `zoom` points at it, and the variants are
   * added when the provider answered with its transformations.
   */
  method RespondStored(cfg: Config, storeId: nat, key: string, provider: Settled<seq<Transformation>>,
                       putOk: seq<bool>)
    returns (response: UploadResponse, variantPuts: seq<PutRequest>)
    requires |putOk| == |cfg.optims|
    ensures response.Uploaded? && response.bucket == cfg.bucket && response.key == key
    ensures response.uri == MountUri(BaseHost(cfg.cdnHost, cfg.host), storeId, key)
    ensures provider.Rejected? ==> variantPuts == [] && response.picture == ZoomOnly(response.uri)
    ensures provider.Resolved? ==>
      var target := Target(storeId, BaseHost(cfg.cdnHost, cfg.host), key);
      && response.picture == PictureAfter(ZoomOnly(response.uri), cfg.optims, provider.value, putOk, target)
      && variantPuts == PutsIssued(cfg.optims, provider.value, target)
    ensures "zoom" in response.picture && response.picture["zoom"] == PictureEntry(response.uri, None)
  {
    var baseHost := if cfg.cdnHost != [] then cfg.cdnHost else cfg.host;
    assert baseHost == BaseHost(cfg.cdnHost, cfg.host);
    var uri := MountUri(baseHost, storeId, key);
    var picture := map["zoom" := PictureEntry(uri, None)];
    assert picture == ZoomOnly(uri);
    variantPuts := [];
    if provider.Resolved? {
      var target := Target(storeId, baseHost, key);
      picture, variantPuts := AssemblePicture(picture, cfg.optims, provider.value, putOk, target);
      EntriesKept(ZoomOnly(uri), cfg.optims, provider.value, putOk, target);
    }
    response := Uploaded(cfg.bucket, key, uri, picture);
  }
}
