/**
 * The image repository: resolving a `name[:tag]` reference against the loaded
 * manifests, the content-addressed location of a downloaded image, and the
 * create / fetch / copy / hash / compare / rename sequence that publishes it.
 * SHA-256 (FIPS 180-4), HTTP, YAML decoding and the file system are outside the
 * model: their outcomes arrive as parameters.
 */
module Images {
  import opened Wrappers
  import opened Text

  /** A manifest entry. */
  datatype Image = Image(name: string, url: string, checksum: string, arch: string, tags: seq<string>)

  /** The repository keeps only its data directory (the directory's fs.FS view is unused). */
  datatype ImageRepository = ImageRepository(dataDir: string)

  const DEFAULT_TAG: string := "latest"
  const HTTP_OK: int := 200

  // ---------------------------------------------------------------------------
  // Reference parsing

  /**
   * Splits a reference at its first ':'; a reference without one names the
   * `latest` tag. The `Failure` branch mirrors the source's guard on the number of
   * pieces, which a reference containing ':' can never trip.
   */
  function ParseImageName(reference: string): (r: Result<(string, string), string>)
    ensures r.Success?
    ensures ':' !in reference ==> r.value == (reference, DEFAULT_TAG)
    ensures ':' in reference ==> ':' !in r.value.0 && r.value.0 + ":" + r.value.1 == reference
  {
    if ':' !in reference then Success((reference, DEFAULT_TAG))
    else
      var parts := SplitN(reference, ':', 2);
      var i := IndexOf(reference, ':');
      assert SplitN(reference[i + 1..], ':', 1) == [reference[i + 1..]];
      assert parts == [reference[..i], reference[i + 1..]];
      assert reference[..i] + ":" + reference[i + 1..] == reference;
      if |parts| != 2 then Failure("Invalid image name '" + reference + "'")
      else Success((parts[0], parts[1]))
  }

  /** The split is the only one with a colon-free name: the tag keeps any later colons. */
  lemma ParseImageNameSplitsAtFirstColon(name: string, tag: string)
    requires ':' !in name
    ensures ParseImageName(name + ":" + tag) == Success((name, tag))
  {
    var reference := name + ":" + tag;
    IndexOfAfter(name, ':', tag);
    assert reference[..|name|] == name;
    assert reference[|name| + 1..] == tag;
  }

  // ---------------------------------------------------------------------------
  // Loading the manifests

  /** Go's path.Ext: the suffix from the last '.' of the final path element, or "". */
  function Ext(path: string): (e: string) {
    ExtBefore(path, |path|)
  }

  function ExtBefore(path: string, i: nat): (e: string)
    requires i <= |path|
    ensures e == "" || exists j :: 0 <= j < i && e == path[j..]
    decreases i
  {
    if i == 0 || path[i - 1] == '/' then ""
    else if path[i - 1] == '.' then path[i - 1..]
    else ExtBefore(path, i - 1)
  }

  predicate HasYamlSuffix(path: string) {
    |path| >= 5 && path[|path| - 5..] == ".yaml"
  }

  /** A walked file counts as a manifest exactly when its name ends in ".yaml". */
  lemma ExtIsYamlIffSuffix(path: string)
    ensures Ext(path) == ".yaml" <==> HasYamlSuffix(path)
  {
    if HasYamlSuffix(path) {
      YamlSuffixGivesExt(path);
    }
    if Ext(path) == ".yaml" {
      var j :| 0 <= j < |path| && path[j..] == ".yaml";
      assert |path| - 5 == j;
    }
  }

  lemma YamlSuffixGivesExt(path: string)
    requires HasYamlSuffix(path)
    ensures Ext(path) == ".yaml"
  {
    var n := |path|;
    var tail := path[n - 5..];
    assert tail == ".yaml";
    forall j | n - 5 < j < n
      ensures path[j] != '.' && path[j] != '/'
    {
      assert path[j] == tail[j - (n - 5)];
    }
    ExtFrom(path, n - 5, n);
  }

  /** A '.' followed by neither '.' nor '/' up to position i starts the extension. */
  lemma {:induction false} ExtFrom(path: string, k: nat, i: nat)
    requires k < i <= |path| && path[k] == '.'
    requires forall j :: k < j < i ==> path[j] != '.' && path[j] != '/'
    ensures ExtBefore(path, i) == path[k..]
    decreases i
  {
    if i - 1 > k {
      ExtFrom(path, k, i - 1);
    }
  }

  /**
   * One entry of the walk over the embedded manifest tree, with the outcomes of
   * the I/O done on it. The contents are what reading the entry's path, taken
   * relative to the working directory of the host file system, produced: the
   * source reads the host path, not the embedded file.
   */
  datatype WalkEntry = WalkEntry(path: string, isDir: bool, walkErr: Option<string>, contents: Result<Bytes, string>)

  datatype ManifestError =
    | WalkFailed(msg: string)
    | ReadFailed(path: string, msg: string)
    | ParseFailed(msg: string)

  /** What the walk callback does with one entry. */
  datatype Visit = Skip | Append(img: Image) | Stop(err: ManifestError)

  function VisitEntry(e: WalkEntry, unmarshal: Bytes -> Result<Image, string>): Visit {
    if e.walkErr.Some? then Stop(WalkFailed(e.walkErr.value))
    else if e.isDir || Ext(e.path) != ".yaml" then Skip
    else if e.contents.Failure? then Stop(ReadFailed(e.path, e.contents.error))
    else
      match unmarshal(e.contents.value)
      case Failure(msg) => Stop(ParseFailed(msg))
      case Success(img) => Append(img)
  }

  /**
   * The images appended before the walk ends, and the error that ended it early.
   * Go returns both, so the images read before a failure are part of the result.
   */
  function Walk(entries: seq<WalkEntry>, unmarshal: Bytes -> Result<Image, string>): (seq<Image>, Option<ManifestError>)
  {
    if entries == [] then ([], None)
    else
      match VisitEntry(entries[0], unmarshal)
      case Stop(err) => ([], Some(err))
      case Skip => Walk(entries[1..], unmarshal)
      case Append(img) =>
        var (rest, err) := Walk(entries[1..], unmarshal);
        ([img] + rest, err)
  }

  /** Walks the embedded manifest tree, decoding every ".yaml" file (read from the host path) in walk order. */
  method LoadManifests(entries: seq<WalkEntry>, unmarshal: Bytes -> Result<Image, string>)
    returns (imgs: seq<Image>, err: Option<ManifestError>)
    ensures (imgs, err) == Walk(entries, unmarshal)
  {
    imgs := [];
    var i := 0;
    assert entries[i..] == entries && imgs + Walk(entries, unmarshal).0 == Walk(entries, unmarshal).0;
    while i < |entries|
      invariant 0 <= i <= |entries|
      invariant Walk(entries, unmarshal).0 == imgs + Walk(entries[i..], unmarshal).0
      invariant Walk(entries, unmarshal).1 == Walk(entries[i..], unmarshal).1
    {
      assert entries[i..][0] == entries[i] && entries[i..][1..] == entries[i + 1..];
      var v := VisitEntry(entries[i], unmarshal);
      var here, next := Walk(entries[i..], unmarshal), Walk(entries[i + 1..], unmarshal);
      assert v.Stop? ==> here == ([], Some(v.err));
      assert v.Skip? ==> here == next;
      assert v.Append? ==> here == ([v.img] + next.0, next.1);
      if v.Stop? {
        assert imgs + [] == imgs;
        return imgs, Some(v.err);
      } else if v.Append? {
        assert imgs + ([v.img] + next.0) == (imgs + [v.img]) + next.0;
        imgs := imgs + [v.img];
      }
      i := i + 1;
    }
    assert entries[i..] == [];
    assert imgs + [] == imgs;
    return imgs, None;
  }

  /** The walk fails exactly when some entry stops it, and then with the first such entry's error. */
  lemma {:induction false} WalkFailsAtFirstStop(entries: seq<WalkEntry>, unmarshal: Bytes -> Result<Image, string>)
    ensures Walk(entries, unmarshal).1.None? <==> forall k :: 0 <= k < |entries| ==> !VisitEntry(entries[k], unmarshal).Stop?
    ensures Walk(entries, unmarshal).1.Some? ==>
      exists k :: 0 <= k < |entries| && VisitEntry(entries[k], unmarshal) == Stop(Walk(entries, unmarshal).1.value)
        && (forall j :: 0 <= j < k ==> !VisitEntry(entries[j], unmarshal).Stop?)
  {
    if entries != [] {
      WalkFailsAtFirstStop(entries[1..], unmarshal);
      var v := VisitEntry(entries[0], unmarshal);
      if !v.Stop? {
        var w := Walk(entries[1..], unmarshal);
        if w.1.Some? {
          var k :| 0 <= k < |entries[1..]| && VisitEntry(entries[1..][k], unmarshal) == Stop(w.1.value)
            && (forall j :: 0 <= j < k ==> !VisitEntry(entries[1..][j], unmarshal).Stop?);
          assert VisitEntry(entries[k + 1], unmarshal) == Stop(w.1.value);
          assert forall j :: 0 <= j < k + 1 ==> !VisitEntry(entries[j], unmarshal).Stop? by {
            forall j | 0 <= j < k + 1 ensures !VisitEntry(entries[j], unmarshal).Stop? {
              if j > 0 { assert entries[j] == entries[1..][j - 1]; }
            }
          }
        } else {
          forall k | 0 <= k < |entries| ensures !VisitEntry(entries[k], unmarshal).Stop? {
            if k > 0 { assert entries[k] == entries[1..][k - 1]; }
          }
        }
      }
    }
  }

  /** `img` is the decoding of `e`, a ".yaml" file that is not a directory. */
  predicate LoadedFrom(e: WalkEntry, unmarshal: Bytes -> Result<Image, string>, img: Image) {
    !e.isDir && HasYamlSuffix(e.path) && e.contents.Success? && unmarshal(e.contents.value) == Success(img)
  }

  /** Every loaded image is the decoding of a ".yaml" file that is not a directory. */
  lemma {:induction false} WalkLoadsOnlyYamlFiles(entries: seq<WalkEntry>, unmarshal: Bytes -> Result<Image, string>, n: nat)
    requires n < |Walk(entries, unmarshal).0|
    ensures exists k :: 0 <= k < |entries| && LoadedFrom(entries[k], unmarshal, Walk(entries, unmarshal).0[n])
  {
    var v := VisitEntry(entries[0], unmarshal);
    var rest := Walk(entries[1..], unmarshal).0;
    if v.Append? && n == 0 {
      AppendIsLoaded(entries[0], unmarshal);
      assert Walk(entries, unmarshal).0[0] == v.img;
    } else {
      var m := if v.Append? then n - 1 else n;
      assert Walk(entries, unmarshal).0[n] == rest[m];
      WalkLoadsOnlyYamlFiles(entries[1..], unmarshal, m);
      var k :| 0 <= k < |entries[1..]| && LoadedFrom(entries[1..][k], unmarshal, rest[m]);
      assert entries[k + 1] == entries[1..][k];
    }
  }

  lemma AppendIsLoaded(e: WalkEntry, unmarshal: Bytes -> Result<Image, string>)
    requires VisitEntry(e, unmarshal).Append?
    ensures LoadedFrom(e, unmarshal, VisitEntry(e, unmarshal).img)
  {
    ExtIsYamlIffSuffix(e.path);
  }

  // ---------------------------------------------------------------------------
  // Finding an image

  predicate Matches(img: Image, name: string, tag: string) {
    img.name == name && tag in img.tags
  }

  /** `imgs[k]` matches and no earlier image does. */
  predicate IsFirstMatch(imgs: seq<Image>, k: int, name: string, tag: string) {
    0 <= k < |imgs| && Matches(imgs[k], name, tag) && forall j :: 0 <= j < k ==> !Matches(imgs[j], name, tag)
  }

  datatype FindError = LoadingManifests(cause: ManifestError) | ImageNotFound

  /**
   * Resolves a reference: reloads the manifests, then returns the first image in
   * manifest order whose name matches and whose tags contain the tag.
   */
  method Find(entries: seq<WalkEntry>, unmarshal: Bytes -> Result<Image, string>, rawImage: string)
    returns (r: Result<Image, FindError>)
    ensures Walk(entries, unmarshal).1.Some? ==> r == Failure(LoadingManifests(Walk(entries, unmarshal).1.value))
    ensures Walk(entries, unmarshal).1.None? ==>
      var imgs := Walk(entries, unmarshal).0;
      var (name, tag) := ParseImageName(rawImage).value;
      && (r.Success? <==> exists k :: 0 <= k < |imgs| && Matches(imgs[k], name, tag))
      && (r.Failure? ==> r.error == ImageNotFound)
      && (r.Success? ==> exists k :: IsFirstMatch(imgs, k, name, tag) && r.value == imgs[k])
  {
    var (name, tag) := ParseImageName(rawImage).value;
    var imgs, err := LoadManifests(entries, unmarshal);
    if err.Some? {
      return Failure(LoadingManifests(err.value));
    }
    var i := 0;
    while i < |imgs|
      invariant 0 <= i <= |imgs|
      invariant forall j :: 0 <= j < i ==> !Matches(imgs[j], name, tag)
    {
      if imgs[i].name == name {
        var t := 0;
        while t < |imgs[i].tags|
          invariant 0 <= t <= |imgs[i].tags|
          invariant tag !in imgs[i].tags[..t]
        {
          if imgs[i].tags[t] == tag {
            return Success(imgs[i]);
          }
          assert imgs[i].tags[..t + 1] == imgs[i].tags[..t] + [imgs[i].tags[t]];
          t := t + 1;
        }
        assert imgs[i].tags[..t] == imgs[i].tags;
      }
      i := i + 1;
    }
    return Failure(ImageNotFound);
  }

  // ---------------------------------------------------------------------------
  // Content-addressed paths

  /** Go's path.Join without the lexical cleaning: the non-empty elements joined by '/'. */
  function JoinPath(elems: seq<string>): string {
    if elems == [] then ""
    else if elems[0] == "" then JoinPath(elems[1..])
    else
      var rest := JoinPath(elems[1..]);
      if rest == "" then elems[0] else elems[0] + "/" + rest
  }

  /** The final location of an image with the given checksum. */
  function ImagePath(dataDir: string, checksum: string): (p: string)
    ensures p == JoinPath([dataDir, "images"]) + "/" + checksum + ".qcow2"
  {
    var file := checksum + ".qcow2";
    assert [file][1..] == [] && ["images"][1..] == [];
    assert JoinPath([file]) == file && JoinPath(["images"]) == "images";
    assert ["images", file][1..] == [file] && [dataDir, "images"][1..] == ["images"];
    assert JoinPath(["images", file]) == "images/" + file;
    assert [dataDir, "images", file][1..] == ["images", file];
    JoinPath([dataDir, "images", file])
  }

  /** Where the download is written before it is published. */
  function StagingPath(path: string): string {
    path + ".tmp"
  }

  /** Images are addressed by content: same checksum, same file; different checksum, different file. */
  lemma ImagePathInjective(dataDir: string, c1: string, c2: string)
    requires '/' !in c1 && '/' !in c2
    ensures ImagePath(dataDir, c1) == ImagePath(dataDir, c2) <==> c1 == c2
  {
    var dir := JoinPath([dataDir, "images"]) + "/";
    if ImagePath(dataDir, c1) == ImagePath(dataDir, c2) {
      var p := ImagePath(dataDir, c1);
      assert |c1| == |c2|;
      assert c1 == p[|dir|..|p| - 6] == c2;
    }
  }

  /** No staging file ever sits at the final path of any image. */
  lemma StagingNeverFinal(dataDir: string, c1: string, c2: string)
    ensures StagingPath(ImagePath(dataDir, c1)) != ImagePath(dataDir, c2)
  {
    var s, p := StagingPath(ImagePath(dataDir, c1)), ImagePath(dataDir, c2);
    assert s[|s| - 1] == 'p' && p[|p| - 1] == '2';
  }

  // ---------------------------------------------------------------------------
  // Downloading and publishing

  class FileSystem {
    var files: map<string, Bytes>

    constructor (files: map<string, Bytes>)
      ensures this.files == files
    {
      this.files := files;
    }
  }

  datatype HttpResponse = HttpResponse(statusCode: int, status: string, body: Bytes)

  /** How many bytes io.Copy wrote before it failed, and its error. */
  datatype CopyFailure = CopyFailure(written: nat, msg: string)

  /** The outcomes of the side effects one download performs, in the order it performs them. */
  datatype DownloadEffects = DownloadEffects(
    createErr: Option<string>,
    get: Result<HttpResponse, string>,
    copyFailure: Option<CopyFailure>,
    closeErr: Option<string>,
    hashErr: Option<string>,
    digest: Bytes,
    renameErr: Option<string>)

  datatype DownloadError =
    | CreateFailed(msg: string)
    | GetFailed(msg: string)
    | HttpError(url: string, status: string)
    | CopyFailed(msg: string)
    | ReaderCloseFatal(msg: string)
    | ChecksumReadFailed(msg: string)
    | ChecksumMismatch(sum: string, expected: string)
    | RenameFailed(msg: string)

  datatype DownloadRun = DownloadRun(result: Result<Unit, DownloadError>, files: map<string, Bytes>)

  /**
   * The result and the new file map of one download. The staging file is created
   * (empty) first and is left behind on every failure after it is created; only
   * the last step renames it.
   */
  function Download(files: map<string, Bytes>, path: string, url: string, checksum: string, fx: DownloadEffects): DownloadRun
  {
    var tmp := StagingPath(path);
    if fx.createErr.Some? then DownloadRun(Failure(CreateFailed(fx.createErr.value)), files)
    else
      var created := files[tmp := []];
      if fx.get.Failure? then DownloadRun(Failure(GetFailed(fx.get.error)), created)
      else
        var resp := fx.get.value;
        if resp.statusCode != HTTP_OK then DownloadRun(Failure(HttpError(url, resp.status)), created)
        else if fx.copyFailure.Some? then
          var w := if fx.copyFailure.value.written < |resp.body| then fx.copyFailure.value.written else |resp.body|;
          DownloadRun(Failure(CopyFailed(fx.copyFailure.value.msg)), files[tmp := resp.body[..w]])
        else
          var copied := files[tmp := resp.body];
          if fx.closeErr.Some? then DownloadRun(Failure(ReaderCloseFatal(fx.closeErr.value)), copied)
          else if fx.hashErr.Some? then DownloadRun(Failure(ChecksumReadFailed(fx.hashErr.value)), copied)
          else
            var sum := HexEncode(fx.digest);
            if sum != checksum then DownloadRun(Failure(ChecksumMismatch(sum, checksum)), copied)
            else if fx.renameErr.Some? then DownloadRun(Failure(RenameFailed(fx.renameErr.value)), copied)
            else DownloadRun(Success(Unit), (copied - {tmp})[path := resp.body])
  }

  /** Fetches `url` into `path + ".tmp"`, checks the digest and renames the file into place. */
  method DownloadFile(fs: FileSystem, path: string, url: string, checksum: string, fx: DownloadEffects)
    returns (r: Result<Unit, DownloadError>)
    modifies fs
    ensures DownloadRun(r, fs.files) == Download(old(fs.files), path, url, checksum, fx)
  {
    var tmp := StagingPath(path);
    if fx.createErr.Some? {
      return Failure(CreateFailed(fx.createErr.value));
    }
    fs.files := fs.files[tmp := []];
    if fx.get.Failure? {
      return Failure(GetFailed(fx.get.error));
    }
    var resp := fx.get.value;
    if resp.statusCode != HTTP_OK {
      return Failure(HttpError(url, resp.status));
    }
    if fx.copyFailure.Some? {
      var w := if fx.copyFailure.value.written < |resp.body| then fx.copyFailure.value.written else |resp.body|;
      fs.files := fs.files[tmp := resp.body[..w]];
      return Failure(CopyFailed(fx.copyFailure.value.msg));
    }
    fs.files := fs.files[tmp := resp.body];
    if fx.closeErr.Some? {
      return Failure(ReaderCloseFatal(fx.closeErr.value));
    }
    if fx.hashErr.Some? {
      return Failure(ChecksumReadFailed(fx.hashErr.value));
    }
    var sum := HexEncode(fx.digest);
    if sum != checksum {
      return Failure(ChecksumMismatch(sum, checksum));
    }
    if fx.renameErr.Some? {
      return Failure(RenameFailed(fx.renameErr.value));
    }
    var body := fs.files[tmp];
    fs.files := (fs.files - {tmp})[path := body];
    return Success(Unit);
  }

  /**
   * Nothing reaches the final path unless the server answered 200 and the hex digest
   * equals the manifest checksum; when something does, the download succeeded.
   */
  lemma DownloadPublishesOnlyVerified(files: map<string, Bytes>, path: string, url: string, checksum: string, fx: DownloadEffects)
    ensures var run := Download(files, path, url, checksum, fx);
      path in run.files && (path !in files || run.files[path] != files[path]) ==>
        && run.result.Success?
        && fx.get.Success? && fx.get.value.statusCode == HTTP_OK
        && HexEncode(fx.digest) == checksum
  {
  }

  /** A successful download publishes exactly the received body and removes the staging file. */
  lemma DownloadSuccessPublishesBody(files: map<string, Bytes>, path: string, url: string, checksum: string, fx: DownloadEffects)
    requires Download(files, path, url, checksum, fx).result.Success?
    ensures var run := Download(files, path, url, checksum, fx);
      && fx.get.Success? && run.files[path] == fx.get.value.body
      && StagingPath(path) !in run.files
      && forall f :: f in files && f != path && f != StagingPath(path) ==> f in run.files && run.files[f] == files[f]
  {
  }

  /**
   * The comparison is an exact string match against lowercase Base16: a manifest
   * checksum that is not the lowercase encoding of the digest never verifies.
   */
  lemma DownloadNeedsLowercaseHexChecksum(files: map<string, Bytes>, path: string, url: string, checksum: string, fx: DownloadEffects)
    requires Download(files, path, url, checksum, fx).result.Success?
    ensures |checksum| == 2 * |fx.digest|
    ensures forall i :: 0 <= i < |checksum| ==> checksum[i] in HEX_DIGITS
    ensures HexDecode(checksum) == Some(fx.digest)
  {
    DownloadSuccessVerified(files, path, url, checksum, fx);
    HexRoundTrip(fx.digest);
  }

  lemma DownloadSuccessVerified(files: map<string, Bytes>, path: string, url: string, checksum: string, fx: DownloadEffects)
    requires Download(files, path, url, checksum, fx).result.Success?
    ensures HexEncode(fx.digest) == checksum
  {
  }

  datatype PullError = CreatingDirectory(msg: string) | Downloading(cause: DownloadError)

  /**
   * Downloads an image to its content-addressed path. There is no check for an
   * existing copy: the download is attempted every time.
   */
  method Pull(repo: ImageRepository, img: Image, fs: FileSystem, mkdirErr: Option<string>, fx: DownloadEffects)
    returns (r: Result<Unit, PullError>)
    modifies fs
    ensures mkdirErr.Some? ==> r == Failure(CreatingDirectory(mkdirErr.value)) && fs.files == old(fs.files)
    ensures mkdirErr.None? ==>
      var run := Download(old(fs.files), ImagePath(repo.dataDir, img.checksum), img.url, img.checksum, fx);
      && fs.files == run.files
      && (run.result.Success? ==> r == Success(Unit))
      && (run.result.Failure? ==> r == Failure(Downloading(run.result.error)))
  {
    if mkdirErr.Some? {
      return Failure(CreatingDirectory(mkdirErr.value));
    }
    var path := ImagePath(repo.dataDir, img.checksum);
    var err := DownloadFile(fs, path, img.url, img.checksum, fx);
    if err.Failure? {
      return Failure(Downloading(err.error));
    }
    return Success(Unit);
  }

  /** An image already present at its final path is downloaded again, and a failure is reported. */
  lemma PullIgnoresExistingCopy(files: map<string, Bytes>, repo: ImageRepository, img: Image, fx: DownloadEffects)
    requires ImagePath(repo.dataDir, img.checksum) in files
    requires fx.get.Success? && fx.get.value.statusCode != HTTP_OK && fx.createErr.None?
    ensures Download(files, ImagePath(repo.dataDir, img.checksum), img.url, img.checksum, fx).result.Failure?
  {
  }
}
