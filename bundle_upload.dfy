/**
  Uploading a plugin bundle to an air-gapped repository.

  The upload extracts the bundle into a temporary directory, reads and parses the
  migration manifest, uploads every image of the manifest in order, merges the
  inventory metadata already published at the destination (when there is one) into
  the bundled metadata database, pushes that database as the metadata image, and
  finally removes the temporary directory on every path out.

  The file system, the tar extractor, the YAML parser, URL joining and the image
  registry are collaborators: each is an oracle in `Env` that either succeeds or
  fails. Every call with an effect on the outside world is recorded, in order, in
  a trace of `Effect`s.
*/
module BundleUpload {
  import opened Wrappers

  // ---------------------------------------------------------------------------
  // Manifest, options and collaborators

  datatype ImageCopy = ImageCopy(sourceTarFilePath: string, relativeImagePath: string)

  datatype MetadataImage = MetadataImage(sourceFilePath: string, relativeImagePathWithTag: string)

  /** The plugin migration manifest of a bundle. */
  datatype Manifest = Manifest(
    imagesToCopy: seq<ImageCopy>,
    inventoryMetadataImage: MetadataImage,
    relativeInventoryImagePathWithTag: string)

  datatype Options = Options(tar: string, destinationRepo: string)

  /** Names of the bundle layout that are declared outside the upload code: the
      directory of the bundle inside the archive, the manifest's file name, and the
      file name of the metadata database inside a downloaded metadata image. */
  datatype Layout = Layout(pluginBundleDirName: string, manifestFile: string, metadataDBFileName: string)

  /** The scratch directory, under the temporary directory, that the published
      metadata image is downloaded into. */
  const INVENTORY_METADATA_DIR: string := "inventory-metadata"

  /** The collaborators. Each either succeeds or fails; reading gives the file's
      contents and joining a URL gives the joined URL. */
  datatype Env = Env(
    layout: Layout,
    makeTempDir: Option<string>,
    untar: (string, string) -> bool,
    readFile: string -> Option<string>,
    parseManifest: string -> Option<Manifest>,
    joinURL: (string, string) -> Option<string>,
    copyImageFromTar: (string, string) -> bool,
    downloadImage: (string, string) -> bool,
    mergeDatabase: (string, string) -> bool,
    pushImage: (string, seq<string>) -> bool)

  /** A file path below a directory. */
  function JoinPath(dir: string, name: string): string {
    dir + "/" + name
  }

  // ---------------------------------------------------------------------------
  // Effects and errors

  /** A call that acts on the file system or on the registry. */
  datatype Effect =
    | MakeTempDir
    | UnTar(dir: string, tar: string)
    | ReadFile(path: string)
    | CopyImageFromTar(imageTar: string, repoImagePath: string)
    | DownloadImage(image: string, dir: string)
    | MergeDatabase(bundledDB: string, downloadedDB: string)
    | PushImage(image: string, files: seq<string>)
    | RemoveAll(dir: string)

  /** Effects on the destination registry or on the metadata it holds. */
  predicate IsRemote(e: Effect) {
    e.CopyImageFromTar? || e.DownloadImage? || e.MergeDatabase? || e.PushImage?
  }

  /** Why an upload failed; each reason is one error return of the upload. */
  datatype UploadError =
    | TempDirError
    | ExtractError
    | ManifestReadError
    | ManifestParseError
    | RepoImagePathError
    | ImageUploadError(repoImagePath: string)
    | MetadataImagePathError
    | MergeError
    | MetadataPushError
    | ImageURLError

  /** The failures that happen before the manifest's images are looked at. */
  predicate IsSetupError(e: UploadError) {
    e.TempDirError? || e.ExtractError? || e.ManifestReadError? || e.ManifestParseError?
  }

  /** What a run returns (`err`, None for success), the effects it had in order,
      and its count of uploaded images. */
  datatype Report = Report(err: Option<UploadError>, trace: seq<Effect>, imagesUploaded: nat)

  /** The effects and the failure of one phase of a run. */
  datatype Outcome = Outcome(trace: seq<Effect>, failure: Option<UploadError>)

  /** The effects, the count of uploaded images and the failure of the image loop. */
  datatype LoopOutcome = LoopOutcome(trace: seq<Effect>, uploaded: nat, failure: Option<UploadError>)

  // ---------------------------------------------------------------------------
  // The run, as a definition by recursion over the manifest

  /** Uploads `images` in order, stopping at the first failure. The specification of
      the method CopyBundleImages, proved equal to it. */
  function CopyImages(env: Env, bundleDir: string, dest: string, images: seq<ImageCopy>): (r: LoopOutcome)
    ensures r.uploaded <= |images| && |r.trace| <= |images|
    ensures r.failure.None? ==> r.uploaded == |images|
    ensures r.failure.Some? ==> r.failure.value.RepoImagePathError? || r.failure.value.ImageUploadError?
    decreases |images|
  {
    if images == [] then LoopOutcome([], 0, None)
    else
      match env.joinURL(dest, images[0].relativeImagePath)
      case None => LoopOutcome([], 0, Some(RepoImagePathError))
      case Some(repoImagePath) =>
        var imageTar := JoinPath(bundleDir, images[0].sourceTarFilePath);
        if !env.copyImageFromTar(imageTar, repoImagePath) then
          LoopOutcome([CopyImageFromTar(imageTar, repoImagePath)], 0, Some(ImageUploadError(repoImagePath)))
        else
          var rest := CopyImages(env, bundleDir, dest, images[1..]);
          LoopOutcome([CopyImageFromTar(imageTar, repoImagePath)] + rest.trace, 1 + rest.uploaded, rest.failure)
  }

  /** Downloads the published metadata image and, only when there was one, merges it
      into the bundled database. The specification of the method
      MergePluginInventoryMetadata, proved equal to it. */
  function MergeMetadata(env: Env, image: string, bundledDB: string, tempDir: string): (out: Outcome)
    ensures |out.trace| >= 1 && out.trace[0] == DownloadImage(image, JoinPath(tempDir, INVENTORY_METADATA_DIR))
    ensures forall j | 0 <= j < |out.trace| :: !out.trace[j].PushImage?
    ensures out.failure.Some? ==> out.failure == Some(MergeError)
    ensures out.failure.Some? <==>
      && env.downloadImage(image, JoinPath(tempDir, INVENTORY_METADATA_DIR))
      && !env.mergeDatabase(bundledDB, JoinPath(JoinPath(tempDir, INVENTORY_METADATA_DIR), env.layout.metadataDBFileName))
  {
    var dir := JoinPath(tempDir, INVENTORY_METADATA_DIR);
    if !env.downloadImage(image, dir) then Outcome([DownloadImage(image, dir)], None)
    else
      var downloadedDB := JoinPath(dir, env.layout.metadataDBFileName);
      var effects := [DownloadImage(image, dir), MergeDatabase(bundledDB, downloadedDB)];
      if env.mergeDatabase(bundledDB, downloadedDB) then Outcome(effects, None)
      else Outcome(effects, Some(MergeError))
  }

  /** Merges and pushes the metadata image, then forms the inventory image's URL.
      The specification of the method PublishMetadata, proved equal to it. */
  function Publish(env: Env, dest: string, tempDir: string, bundleDir: string, m: Manifest): (p: Outcome)
    ensures p.failure.Some? ==> IsPublishError(p.failure.value)
    ensures forall j | 0 <= j < |p.trace| && p.trace[j].PushImage? ::
      && env.joinURL(dest, m.inventoryMetadataImage.relativeImagePathWithTag).Some?
      && p.trace[j] == PushImage(env.joinURL(dest, m.inventoryMetadataImage.relativeImagePathWithTag).value,
                                 [JoinPath(bundleDir, m.inventoryMetadataImage.sourceFilePath)])
    ensures p.failure.None? ==> |p.trace| > 0 && p.trace[|p.trace| - 1].PushImage?
  {
    var bundledDB := JoinPath(bundleDir, m.inventoryMetadataImage.sourceFilePath);
    match env.joinURL(dest, m.inventoryMetadataImage.relativeImagePathWithTag)
    case None => Outcome([], Some(MetadataImagePathError))
    case Some(image) =>
      var merge := MergeMetadata(env, image, bundledDB, tempDir);
      if merge.failure.Some? then merge
      else
        var trace := merge.trace + [PushImage(image, [bundledDB])];
        if !env.pushImage(image, [bundledDB]) then Outcome(trace, Some(MetadataPushError))
        else if env.joinURL(dest, m.relativeInventoryImagePathWithTag).None? then Outcome(trace, Some(ImageURLError))
        else Outcome(trace, None)
  }

  function BundleDir(env: Env, tempDir: string): string {
    JoinPath(tempDir, env.layout.pluginBundleDirName)
  }

  function ManifestPath(env: Env, tempDir: string): string {
    JoinPath(BundleDir(env, tempDir), env.layout.manifestFile)
  }

  /** The manifest a run works from, when extracting, reading and parsing succeed. */
  function LoadedManifest(o: Options, env: Env, tempDir: string): Option<Manifest> {
    if !env.untar(tempDir, o.tar) then None
    else
      match env.readFile(ManifestPath(env, tempDir))
      case None => None
      case Some(bytes) => env.parseManifest(bytes)
  }

  /** Everything a run does once its temporary directory exists. The specification
      of the method ProcessBundle, proved equal to it. */
  function Process(o: Options, env: Env, tempDir: string): (r: Report)
    ensures |r.trace| >= 1 && r.trace[0] == UnTar(tempDir, o.tar)
    ensures (r.err.Some? && IsSetupError(r.err.value)) <==> LoadedManifest(o, env, tempDir).None?
  {
    var untar := UnTar(tempDir, o.tar);
    var read := ReadFile(ManifestPath(env, tempDir));
    if !env.untar(tempDir, o.tar) then Report(Some(ExtractError), [untar], 0)
    else
      match env.readFile(ManifestPath(env, tempDir))
      case None => Report(Some(ManifestReadError), [untar, read], 0)
      case Some(bytes) =>
        match env.parseManifest(bytes)
        case None => Report(Some(ManifestParseError), [untar, read], 0)
        case Some(m) =>
          var loop := CopyImages(env, BundleDir(env, tempDir), o.destinationRepo, m.imagesToCopy);
          if loop.failure.Some? then Report(loop.failure, [untar, read] + loop.trace, loop.uploaded)
          else
            var publish := Publish(env, o.destinationRepo, tempDir, BundleDir(env, tempDir), m);
            Report(publish.failure, [untar, read] + loop.trace + publish.trace, loop.uploaded)
  }

  /** A whole run: the temporary directory, then the rest, then its removal. The
      specification of the method UploadPluginBundle, proved equal to it. */
  function Run(o: Options, env: Env): (r: Report)
    ensures |r.trace| >= 1 && r.trace[0] == MakeTempDir
    ensures env.makeTempDir.None? <==> r.err == Some(TempDirError)
    ensures env.makeTempDir.Some? ==> r.trace[|r.trace| - 1] == RemoveAll(env.makeTempDir.value)
  {
    match env.makeTempDir
    case None => Report(Some(TempDirError), [MakeTempDir], 0)
    case Some(tempDir) =>
      var r := Process(o, env, tempDir);
      Report(r.err, [MakeTempDir] + r.trace + [RemoveAll(tempDir)], r.imagesUploaded)
  }

  // ---------------------------------------------------------------------------
  // The run, step by step

  /** Copies one image from its tar file to the repository. */
  method UploadImage(env: Env, imageTar: string, repoImagePath: string) returns (err: Option<UploadError>, effect: Effect)
    ensures effect == CopyImageFromTar(imageTar, repoImagePath)
    ensures err.None? <==> env.copyImageFromTar(imageTar, repoImagePath)
    ensures err.Some? ==> err.value == ImageUploadError(repoImagePath)
  {
    effect := CopyImageFromTar(imageTar, repoImagePath);
    err := None;
    if !env.copyImageFromTar(imageTar, repoImagePath) {
      err := Some(ImageUploadError(repoImagePath));
    }
  }

  /** Merges the published metadata into the bundled database when the published
      metadata image can be downloaded; a failed download is not an error. */
  method MergePluginInventoryMetadata(env: Env, image: string, bundledDB: string, tempDir: string)
    returns (err: Option<UploadError>, trace: seq<Effect>)
    ensures |trace| >= 1 && trace[0] == DownloadImage(image, JoinPath(tempDir, INVENTORY_METADATA_DIR))
    ensures !env.downloadImage(image, JoinPath(tempDir, INVENTORY_METADATA_DIR)) ==> |trace| == 1 && err.None?
    ensures err.Some? ==> err.value == MergeError && |trace| == 2 && trace[1].MergeDatabase?
    ensures Outcome(trace, err) == MergeMetadata(env, image, bundledDB, tempDir)
  {
    var dir := JoinPath(tempDir, INVENTORY_METADATA_DIR);
    trace := [DownloadImage(image, dir)];
    err := None;
    if env.downloadImage(image, dir) {
      var downloadedDB := JoinPath(dir, env.layout.metadataDBFileName);
      trace := trace + [MergeDatabase(bundledDB, downloadedDB)];
      if !env.mergeDatabase(bundledDB, downloadedDB) {
        err := Some(MergeError);
      }
    }
  }

  /** Everything after the temporary directory is created. */
  method ProcessBundle(o: Options, env: Env, tempDir: string) returns (report: Report)
    ensures report == Process(o, env, tempDir)
  {
    var trace := [UnTar(tempDir, o.tar)];
    if !env.untar(tempDir, o.tar) {
      return Report(Some(ExtractError), trace, 0);
    }

    var pluginBundleDir := BundleDir(env, tempDir);
    var manifestPath := JoinPath(pluginBundleDir, env.layout.manifestFile);
    trace := trace + [ReadFile(manifestPath)];
    var bytes := env.readFile(manifestPath);
    if bytes.None? {
      return Report(Some(ManifestReadError), trace, 0);
    }
    var manifest := env.parseManifest(bytes.value);
    if manifest.None? {
      return Report(Some(ManifestParseError), trace, 0);
    }
    var m := manifest.value;
    var loopTrace, imagesUploaded, loopErr := CopyBundleImages(env, pluginBundleDir, o.destinationRepo, m.imagesToCopy);
    trace := trace + loopTrace;
    if loopErr.Some? {
      return Report(loopErr, trace, imagesUploaded);
    }
    var publishErr, publishTrace := PublishMetadata(env, o.destinationRepo, tempDir, pluginBundleDir, m);
    assert trace + publishTrace == [UnTar(tempDir, o.tar), ReadFile(manifestPath)] + loopTrace + publishTrace;
    return Report(publishErr, trace + publishTrace, imagesUploaded);
  }

  /** Copies the manifest's images to the repository one by one, in manifest order,
      stopping at the first that fails. */
  method CopyBundleImages(env: Env, pluginBundleDir: string, dest: string, images: seq<ImageCopy>)
    returns (trace: seq<Effect>, imagesUploaded: nat, err: Option<UploadError>)
    ensures LoopOutcome(trace, imagesUploaded, err) == CopyImages(env, pluginBundleDir, dest, images)
  {
    ghost var whole := CopyImages(env, pluginBundleDir, dest, images);
    trace := [];
    imagesUploaded := 0;
    var i := 0;
    while i < |images|
      invariant 0 <= i <= |images|
      invariant imagesUploaded == i
      invariant var rest := CopyImages(env, pluginBundleDir, dest, images[i..]);
        && whole.trace == trace + rest.trace
        && whole.uploaded == imagesUploaded + rest.uploaded
        && whole.failure == rest.failure
    {
      var ic := images[i];
      ghost var traceBefore := trace;
      assert images[i..][0] == ic && images[i..][1..] == images[i + 1..];
      var imageTar := JoinPath(pluginBundleDir, ic.sourceTarFilePath);
      var repoImagePath := env.joinURL(dest, ic.relativeImagePath);
      if repoImagePath.None? {
        return trace, imagesUploaded, Some(RepoImagePathError);
      }
      var uploadErr, effect := UploadImage(env, imageTar, repoImagePath.value);
      ghost var rest := CopyImages(env, pluginBundleDir, dest, images[i + 1..]);
      trace := trace + [effect];
      if uploadErr.Some? {
        return trace, imagesUploaded, uploadErr;
      }
      assert CopyImages(env, pluginBundleDir, dest, images[i..]).trace == [effect] + rest.trace;
      assert trace + rest.trace == traceBefore + ([effect] + rest.trace);
      imagesUploaded := imagesUploaded + 1;
      i := i + 1;
    }
    assert images[i..] == [];
    err := None;
  }

  /** Merges the published metadata into the bundled database, pushes the result as
      the metadata image, and forms the inventory image's URL. */
  method PublishMetadata(env: Env, dest: string, tempDir: string, pluginBundleDir: string, m: Manifest)
    returns (err: Option<UploadError>, trace: seq<Effect>)
    ensures Outcome(trace, err) == Publish(env, dest, tempDir, pluginBundleDir, m)
  {
    var bundledDB := JoinPath(pluginBundleDir, m.inventoryMetadataImage.sourceFilePath);
    var imageWithTag := env.joinURL(dest, m.inventoryMetadataImage.relativeImagePathWithTag);
    if imageWithTag.None? {
      return Some(MetadataImagePathError), [];
    }
    var mergeErr, mergeTrace := MergePluginInventoryMetadata(env, imageWithTag.value, bundledDB, tempDir);
    trace := mergeTrace;
    if mergeErr.Some? {
      return Some(MergeError), trace;
    }

    trace := trace + [PushImage(imageWithTag.value, [bundledDB])];
    if !env.pushImage(imageWithTag.value, [bundledDB]) {
      return Some(MetadataPushError), trace;
    }

    var joinedURL := env.joinURL(dest, m.relativeInventoryImagePathWithTag);
    if joinedURL.None? {
      return Some(ImageURLError), trace;
    }
    return None, trace;
  }

  /** Uploads the bundle `o.tar` to `o.destinationRepo`. The temporary directory,
      once created, is removed whichever way the rest of the run ends. */
  method UploadPluginBundle(o: Options, env: Env) returns (report: Report)
    ensures report == Run(o, env)
  {
    var tempDir := env.makeTempDir;
    if tempDir.None? {
      return Report(Some(TempDirError), [MakeTempDir], 0);
    }
    var r := ProcessBundle(o, env, tempDir.value);
    report := Report(r.err, [MakeTempDir] + r.trace + [RemoveAll(tempDir.value)], r.imagesUploaded);
  }

  // ---------------------------------------------------------------------------
  // Properties of the image loop

  /** The repository path an image is copied to, when it can be formed. */
  function RepoImagePath(env: Env, dest: string, ic: ImageCopy): Option<string> {
    env.joinURL(dest, ic.relativeImagePath)
  }

  /** The upload of one image succeeds: its repository path is formed and the copy
      that UploadImage makes succeeds. */
  predicate Uploads(env: Env, bundleDir: string, dest: string, ic: ImageCopy) {
    match RepoImagePath(env, dest, ic)
    case None => false
    case Some(p) => env.copyImageFromTar(JoinPath(bundleDir, ic.sourceTarFilePath), p)
  }

  /** The upload of one image fails with `err`. */
  predicate FailsWith(env: Env, bundleDir: string, dest: string, ic: ImageCopy, err: UploadError) {
    match RepoImagePath(env, dest, ic)
    case None => err == RepoImagePathError
    case Some(p) => !env.copyImageFromTar(JoinPath(bundleDir, ic.sourceTarFilePath), p) && err == ImageUploadError(p)
  }

  /** The loop uploads the images in manifest order and stops at the first failure:
      the first `uploaded` images succeed and the next one (if any) fails and gives
      the error. */
  lemma {:induction false} CopyImagesOutcome(env: Env, bundleDir: string, dest: string, images: seq<ImageCopy>)
    ensures var r := CopyImages(env, bundleDir, dest, images);
      && r.uploaded <= |images|
      && (r.failure.None? <==> r.uploaded == |images|)
      && (forall j | 0 <= j < r.uploaded :: Uploads(env, bundleDir, dest, images[j]))
      && (r.failure.Some? ==> FailsWith(env, bundleDir, dest, images[r.uploaded], r.failure.value))
    decreases |images|
  {
    if images != [] && Uploads(env, bundleDir, dest, images[0]) {
      CopyImagesOutcome(env, bundleDir, dest, images[1..]);
      assert forall j | 1 <= j < |images| :: images[j] == images[1..][j - 1];
    }
  }

  /** The trace of the loop holds one copy per attempted image, in manifest order:
      the uploaded images and, after an upload failure, the failing one. */
  lemma {:induction false} CopyImagesTrace(env: Env, bundleDir: string, dest: string, images: seq<ImageCopy>)
    ensures var r := CopyImages(env, bundleDir, dest, images);
      && |r.trace| == (if r.failure.Some? && r.failure.value.ImageUploadError? then r.uploaded + 1 else r.uploaded)
      && (forall j | 0 <= j < |r.trace| :: j < |images| &&
            RepoImagePath(env, dest, images[j]).Some? &&
            r.trace[j] == CopyImageFromTar(JoinPath(bundleDir, images[j].sourceTarFilePath), RepoImagePath(env, dest, images[j]).value))
    decreases |images|
  {
    if images != [] && Uploads(env, bundleDir, dest, images[0]) {
      CopyImagesTrace(env, bundleDir, dest, images[1..]);
      var r := CopyImages(env, bundleDir, dest, images);
      var rest := CopyImages(env, bundleDir, dest, images[1..]);
      var p := RepoImagePath(env, dest, images[0]).value;
      assert r == LoopOutcome([CopyImageFromTar(JoinPath(bundleDir, images[0].sourceTarFilePath), p)] + rest.trace,
        1 + rest.uploaded, rest.failure);
      forall j | 0 <= j < |r.trace|
        ensures j < |images| && RepoImagePath(env, dest, images[j]).Some?
        ensures r.trace[j] == CopyImageFromTar(JoinPath(bundleDir, images[j].sourceTarFilePath), RepoImagePath(env, dest, images[j]).value)
      {
        if j > 0 {
          assert r.trace[j] == rest.trace[j - 1] && images[j] == images[1..][j - 1];
        }
      }
    }
  }

  /** Both halves of the loop's behaviour. */
  lemma CopyImagesSpec(env: Env, bundleDir: string, dest: string, images: seq<ImageCopy>)
    ensures var r := CopyImages(env, bundleDir, dest, images);
      && r.uploaded <= |images|
      && (r.failure.None? <==> r.uploaded == |images|)
      && (forall j | 0 <= j < r.uploaded :: Uploads(env, bundleDir, dest, images[j]))
      && (r.failure.Some? ==> FailsWith(env, bundleDir, dest, images[r.uploaded], r.failure.value))
      && |r.trace| == (if r.failure.Some? && r.failure.value.ImageUploadError? then r.uploaded + 1 else r.uploaded)
      && (forall j | 0 <= j < |r.trace| ::
            RepoImagePath(env, dest, images[j]).Some? &&
            r.trace[j] == CopyImageFromTar(JoinPath(bundleDir, images[j].sourceTarFilePath), RepoImagePath(env, dest, images[j]).value))
  {
    CopyImagesOutcome(env, bundleDir, dest, images);
    CopyImagesTrace(env, bundleDir, dest, images);
  }

  /** The loop succeeds exactly when every image uploads. */
  lemma LoopSucceedsIff(env: Env, bundleDir: string, dest: string, images: seq<ImageCopy>)
    ensures CopyImages(env, bundleDir, dest, images).failure.None? <==>
      forall j | 0 <= j < |images| :: Uploads(env, bundleDir, dest, images[j])
  {
    CopyImagesSpec(env, bundleDir, dest, images);
    var r := CopyImages(env, bundleDir, dest, images);
    if r.failure.Some? {
      assert !Uploads(env, bundleDir, dest, images[r.uploaded]);
    }
  }

  // ---------------------------------------------------------------------------
  // Properties of the run

  /** The failures of the metadata phase. */
  predicate IsPublishError(e: UploadError) {
    e.MetadataImagePathError? || e.MergeError? || e.MetadataPushError? || e.ImageURLError?
  }

  /** The metadata phase touches only the metadata image and database, pushes at most
      once and only as its last effect, and never pushes after a failed merge. */
  lemma PublishSpec(env: Env, dest: string, tempDir: string, bundleDir: string, m: Manifest)
    ensures var p := Publish(env, dest, tempDir, bundleDir, m);
      && (forall j | 0 <= j < |p.trace| :: p.trace[j].DownloadImage? || p.trace[j].MergeDatabase? || p.trace[j].PushImage?)
      && (forall j | 0 <= j < |p.trace| && p.trace[j].PushImage? :: j == |p.trace| - 1)
      && (p.failure.Some? ==> IsPublishError(p.failure.value))
      && (p.failure == Some(MergeError) ==> forall j | 0 <= j < |p.trace| :: !p.trace[j].PushImage?)
      && (p.failure.None? ==> |p.trace| > 0 && p.trace[|p.trace| - 1].PushImage?)
      && (forall j | 0 <= j < |p.trace| && p.trace[j].PushImage? ::
            && env.joinURL(dest, m.inventoryMetadataImage.relativeImagePathWithTag).Some?
            && p.trace[j] == PushImage(env.joinURL(dest, m.inventoryMetadataImage.relativeImagePathWithTag).value,
                                       [JoinPath(bundleDir, m.inventoryMetadataImage.sourceFilePath)]))
  {
  }

  /** The run once the manifest is loaded: the setup effects, the image loop, the
      metadata phase when the loop succeeded, and the removal of the temporary directory. */
  lemma RunAfterManifest(o: Options, env: Env, tempDir: string, m: Manifest)
    requires env.makeTempDir == Some(tempDir) && LoadedManifest(o, env, tempDir) == Some(m)
    ensures var r := Run(o, env);
      var loop := CopyImages(env, BundleDir(env, tempDir), o.destinationRepo, m.imagesToCopy);
      var publish := Publish(env, o.destinationRepo, tempDir, BundleDir(env, tempDir), m);
      && r.imagesUploaded == loop.uploaded
      && r.err == (if loop.failure.Some? then loop.failure else publish.failure)
      && r.trace == [MakeTempDir, UnTar(tempDir, o.tar), ReadFile(ManifestPath(env, tempDir))] + loop.trace
           + (if loop.failure.Some? then [] else publish.trace) + [RemoveAll(tempDir)]
  {
  }

  /** The temporary directory, once created, is removed, as the very last effect and
      only then; when it cannot be created nothing else happens. */
  lemma TempDirRemovedOnEveryPath(o: Options, env: Env)
    ensures var r := Run(o, env);
      && (env.makeTempDir.None? ==> r == Report(Some(TempDirError), [MakeTempDir], 0))
      && (env.makeTempDir.Some? ==>
            && |r.trace| >= 3 && r.trace[0] == MakeTempDir
            && r.trace[|r.trace| - 1] == RemoveAll(env.makeTempDir.value)
            && forall j | 0 <= j < |r.trace| - 1 :: !r.trace[j].RemoveAll?)
  {
    if env.makeTempDir.Some? {
      var tempDir := env.makeTempDir.value;
      var m := LoadedManifest(o, env, tempDir);
      if m.Some? {
        RunAfterManifest(o, env, tempDir, m.value);
        CopyImagesSpec(env, BundleDir(env, tempDir), o.destinationRepo, m.value.imagesToCopy);
        PublishSpec(env, o.destinationRepo, tempDir, BundleDir(env, tempDir), m.value);
      }
    }
  }

  /** Failing to create the temporary directory, extract the bundle, or read or parse
      the manifest happens before anything reaches the registry, and these are the
      only failures of a run that has no manifest. */
  lemma SetupFailureHasNoRemoteEffect(o: Options, env: Env)
    ensures var r := Run(o, env);
      (r.err.Some? && IsSetupError(r.err.value)) <==>
        (env.makeTempDir.None? || LoadedManifest(o, env, env.makeTempDir.value).None?)
    ensures var r := Run(o, env);
      r.err.Some? && IsSetupError(r.err.value) ==>
        r.imagesUploaded == 0 && forall j | 0 <= j < |r.trace| :: !IsRemote(r.trace[j])
  {
    if env.makeTempDir.Some? {
      var tempDir := env.makeTempDir.value;
      var m := LoadedManifest(o, env, tempDir);
      if m.Some? {
        RunAfterManifest(o, env, tempDir, m.value);
        CopyImagesSpec(env, BundleDir(env, tempDir), o.destinationRepo, m.value.imagesToCopy);
        PublishSpec(env, o.destinationRepo, tempDir, BundleDir(env, tempDir), m.value);
      }
    }
  }

  /** The image uploads of a run are those of the loop, right after the manifest is
      read, and the count of uploaded images is the loop's. */
  lemma ImageLoopInRun(o: Options, env: Env, tempDir: string, m: Manifest)
    requires env.makeTempDir == Some(tempDir) && LoadedManifest(o, env, tempDir) == Some(m)
    ensures var r := Run(o, env);
      var loop := CopyImages(env, BundleDir(env, tempDir), o.destinationRepo, m.imagesToCopy);
      && |r.trace| >= 3 + |loop.trace|
      && r.trace[3..3 + |loop.trace|] == loop.trace
      && r.imagesUploaded == loop.uploaded
  {
    RunAfterManifest(o, env, tempDir, m);
    var loop := CopyImages(env, BundleDir(env, tempDir), o.destinationRepo, m.imagesToCopy);
    var publish := Publish(env, o.destinationRepo, tempDir, BundleDir(env, tempDir), m);
    SliceOfTrace([MakeTempDir, UnTar(tempDir, o.tar), ReadFile(ManifestPath(env, tempDir))], loop.trace,
      (if loop.failure.Some? then [] else publish.trace) + [RemoveAll(tempDir)]);
  }

  lemma SliceOfTrace(front: seq<Effect>, middle: seq<Effect>, back: seq<Effect>)
    ensures (front + middle + back)[|front|..|front| + |middle|] == middle
  {
    assert (front + middle + back)[|front|..] == middle + back;
  }

  /** A failed image upload ends the run with that upload's error, before every image
      was uploaded and before any metadata is downloaded, merged or pushed. */
  lemma UploadFailureEndsRun(o: Options, env: Env, tempDir: string, m: Manifest)
    requires env.makeTempDir == Some(tempDir) && LoadedManifest(o, env, tempDir) == Some(m)
    requires CopyImages(env, BundleDir(env, tempDir), o.destinationRepo, m.imagesToCopy).failure.Some?
    ensures var r := Run(o, env);
      && r.err == CopyImages(env, BundleDir(env, tempDir), o.destinationRepo, m.imagesToCopy).failure
      && r.imagesUploaded < |m.imagesToCopy|
      && forall j | 0 <= j < |r.trace| :: !(r.trace[j].DownloadImage? || r.trace[j].MergeDatabase? || r.trace[j].PushImage?)
  {
    var bundleDir := BundleDir(env, tempDir);
    RunAfterManifest(o, env, tempDir, m);
    CopyImagesSpec(env, bundleDir, o.destinationRepo, m.imagesToCopy);
    var loop := CopyImages(env, bundleDir, o.destinationRepo, m.imagesToCopy);
    var r := Run(o, env);
    var front := [MakeTempDir, UnTar(tempDir, o.tar), ReadFile(ManifestPath(env, tempDir))];
    assert r.trace == front + loop.trace + [RemoveAll(tempDir)];
    assert forall j | 3 <= j < 3 + |loop.trace| :: r.trace[j] == loop.trace[j - 3];
  }

  /** The bundled metadata database file. */
  function BundledDB(env: Env, tempDir: string, m: Manifest): string {
    JoinPath(BundleDir(env, tempDir), m.inventoryMetadataImage.sourceFilePath)
  }

  /** When there is no metadata image to download, the run does not merge and still
      pushes the bundled database: a failed download is not an error. */
  lemma DownloadFailureIsNotAnError(o: Options, env: Env, tempDir: string, m: Manifest, image: string)
    requires env.makeTempDir == Some(tempDir) && LoadedManifest(o, env, tempDir) == Some(m)
    requires CopyImages(env, BundleDir(env, tempDir), o.destinationRepo, m.imagesToCopy).failure.None?
    requires env.joinURL(o.destinationRepo, m.inventoryMetadataImage.relativeImagePathWithTag) == Some(image)
    requires !env.downloadImage(image, JoinPath(tempDir, INVENTORY_METADATA_DIR))
    ensures var r := Run(o, env);
      && r.err != Some(MergeError)
      && (forall j | 0 <= j < |r.trace| :: !r.trace[j].MergeDatabase?)
      && PushImage(image, [BundledDB(env, tempDir, m)]) in r.trace
      && (r.err.None? <==>
            env.pushImage(image, [BundledDB(env, tempDir, m)])
            && env.joinURL(o.destinationRepo, m.relativeInventoryImagePathWithTag).Some?)
  {
    var bundleDir := BundleDir(env, tempDir);
    RunAfterManifest(o, env, tempDir, m);
    CopyImagesSpec(env, bundleDir, o.destinationRepo, m.imagesToCopy);
    var loop := CopyImages(env, bundleDir, o.destinationRepo, m.imagesToCopy);
    var publish := Publish(env, o.destinationRepo, tempDir, bundleDir, m);
    assert publish.trace == [DownloadImage(image, JoinPath(tempDir, INVENTORY_METADATA_DIR)), PushImage(image, [BundledDB(env, tempDir, m)])];
    var r := Run(o, env);
    assert r.trace[3 + |loop.trace| + 1] == PushImage(image, [BundledDB(env, tempDir, m)]);
  }

  /** The run gets as far as the merge, the published metadata image is downloaded,
      and merging it into the bundled database fails. */
  predicate MergeFails(o: Options, env: Env) {
    match env.makeTempDir
    case None => false
    case Some(tempDir) =>
      match LoadedManifest(o, env, tempDir)
      case None => false
      case Some(m) =>
        && (forall j | 0 <= j < |m.imagesToCopy| :: Uploads(env, BundleDir(env, tempDir), o.destinationRepo, m.imagesToCopy[j]))
        && match env.joinURL(o.destinationRepo, m.inventoryMetadataImage.relativeImagePathWithTag)
           case None => false
           case Some(image) =>
             var dir := JoinPath(tempDir, INVENTORY_METADATA_DIR);
             && env.downloadImage(image, dir)
             && !env.mergeDatabase(BundledDB(env, tempDir, m), JoinPath(dir, env.layout.metadataDBFileName))
  }

  /** The run ends with the merge error exactly when the published metadata was
      downloaded and merging it fails. */
  lemma MergeErrorIff(o: Options, env: Env)
    ensures Run(o, env).err == Some(MergeError) <==> MergeFails(o, env)
  {
    SetupFailureHasNoRemoteEffect(o, env);
    if env.makeTempDir.Some? && LoadedManifest(o, env, env.makeTempDir.value).Some? {
      var tempDir := env.makeTempDir.value;
      var m := LoadedManifest(o, env, tempDir).value;
      RunAfterManifest(o, env, tempDir, m);
      LoopSucceedsIff(env, BundleDir(env, tempDir), o.destinationRepo, m.imagesToCopy);
    }
  }

  /** A merge failure ends the run with the merge error and the metadata is not
      pushed; it happens exactly when the published metadata was downloaded and
      merging it fails. */
  lemma MergeFailureBlocksPush(o: Options, env: Env)
    ensures Run(o, env).err == Some(MergeError) <==> MergeFails(o, env)
    ensures var r := Run(o, env);
      r.err == Some(MergeError) ==> forall j | 0 <= j < |r.trace| :: !r.trace[j].PushImage?
    ensures var r := Run(o, env);
      r.err == Some(MergeError) ==>
        exists j | 0 <= j < |r.trace| - 1 :: r.trace[j].DownloadImage? && r.trace[j + 1].MergeDatabase?
  {
    MergeErrorIff(o, env);
    var r := Run(o, env);
    if r.err == Some(MergeError) {
      var tempDir := env.makeTempDir.value;
      var m := LoadedManifest(o, env, tempDir).value;
      var bundleDir := BundleDir(env, tempDir);
      RunAfterManifest(o, env, tempDir, m);
      CopyImagesSpec(env, bundleDir, o.destinationRepo, m.imagesToCopy);
      PublishSpec(env, o.destinationRepo, tempDir, bundleDir, m);
      var loop := CopyImages(env, bundleDir, o.destinationRepo, m.imagesToCopy);
      var publish := Publish(env, o.destinationRepo, tempDir, bundleDir, m);
      assert |publish.trace| == 2 && publish.trace[0].DownloadImage? && publish.trace[1].MergeDatabase?;
      var j := 3 + |loop.trace|;
      assert r.trace[j] == publish.trace[0] && r.trace[j + 1] == publish.trace[1];
    }
  }

  /** The effects of the image loop are image copies only. */
  lemma LoopCopiesOnly(env: Env, bundleDir: string, dest: string, images: seq<ImageCopy>)
    ensures var loop := CopyImages(env, bundleDir, dest, images);
      forall j | 0 <= j < |loop.trace| :: loop.trace[j].CopyImageFromTar?
  {
    CopyImagesSpec(env, bundleDir, dest, images);
  }

  /** Where a push can sit in a trace made of a push-free part and a part that pushes
      at most once, at its end, followed by one last effect that is not a push. */
  lemma PushPositionInTrace(front: seq<Effect>, tail: seq<Effect>, last: Effect)
    requires forall j | 0 <= j < |front| :: !front[j].PushImage?
    requires forall j | 0 <= j < |tail| - 1 :: !tail[j].PushImage?
    requires !last.PushImage?
    ensures var t := front + tail + [last];
      forall j | 0 <= j < |t| && j != |t| - 2 :: !t[j].PushImage?
  {
    var t := front + tail + [last];
    assert forall j | 0 <= j < |front| :: t[j] == front[j];
    assert forall j | |front| <= j < |front| + |tail| :: t[j] == tail[j - |front|];
  }

  lemma PushPositionAfterManifest(o: Options, env: Env, tempDir: string, m: Manifest)
    requires env.makeTempDir == Some(tempDir) && LoadedManifest(o, env, tempDir) == Some(m)
    ensures var r := Run(o, env);
      forall j | 0 <= j < |r.trace| && j != |r.trace| - 2 :: !r.trace[j].PushImage?
    ensures var r := Run(o, env);
      r.err.None? ==> |r.trace| >= 2 && r.trace[|r.trace| - 2].PushImage?
  {
    var bundleDir := BundleDir(env, tempDir);
    RunAfterManifest(o, env, tempDir, m);
    var loop := CopyImages(env, bundleDir, o.destinationRepo, m.imagesToCopy);
    var publish := Publish(env, o.destinationRepo, tempDir, bundleDir, m);
    var front := [MakeTempDir, UnTar(tempDir, o.tar), ReadFile(ManifestPath(env, tempDir))] + loop.trace;
    var tail := if loop.failure.Some? then [] else publish.trace;
    LoopCopiesOnly(env, bundleDir, o.destinationRepo, m.imagesToCopy);
    PublishSpec(env, o.destinationRepo, tempDir, bundleDir, m);
    assert forall j | 3 <= j < |front| :: front[j] == loop.trace[j - 3];
    PushPositionInTrace(front, tail, RemoveAll(tempDir));
  }

  /** Every push in a trace made of a push-free part, a part whose pushes are all
      `push`, and a last effect that is not a push, is `push`. */
  lemma PushesInTrace(front: seq<Effect>, tail: seq<Effect>, last: Effect, push: Effect)
    requires forall j | 0 <= j < |front| :: !front[j].PushImage?
    requires forall j | 0 <= j < |tail| && tail[j].PushImage? :: tail[j] == push
    requires !last.PushImage?
    ensures var t := front + tail + [last];
      forall j | 0 <= j < |t| && t[j].PushImage? :: t[j] == push
  {
    var t := front + tail + [last];
    assert forall j | 0 <= j < |front| :: t[j] == front[j];
    assert forall j | |front| <= j < |front| + |tail| :: t[j] == tail[j - |front|];
  }

  /** The metadata push sends the bundled database file to the metadata image's
      path joined to the destination repository; a successful run makes that push
      as its last effect before the removal of the temporary directory. */
  lemma MetadataPushTarget(o: Options, env: Env, tempDir: string, m: Manifest, image: string)
    requires env.makeTempDir == Some(tempDir) && LoadedManifest(o, env, tempDir) == Some(m)
    requires env.joinURL(o.destinationRepo, m.inventoryMetadataImage.relativeImagePathWithTag) == Some(image)
    ensures var r := Run(o, env);
      forall j | 0 <= j < |r.trace| && r.trace[j].PushImage? :: r.trace[j] == PushImage(image, [BundledDB(env, tempDir, m)])
    ensures var r := Run(o, env);
      r.err.None? ==> |r.trace| >= 2 && r.trace[|r.trace| - 2] == PushImage(image, [BundledDB(env, tempDir, m)])
  {
    var bundleDir := BundleDir(env, tempDir);
    RunAfterManifest(o, env, tempDir, m);
    var loop := CopyImages(env, bundleDir, o.destinationRepo, m.imagesToCopy);
    var publish := Publish(env, o.destinationRepo, tempDir, bundleDir, m);
    var front := [MakeTempDir, UnTar(tempDir, o.tar), ReadFile(ManifestPath(env, tempDir))] + loop.trace;
    var tail := if loop.failure.Some? then [] else publish.trace;
    LoopCopiesOnly(env, bundleDir, o.destinationRepo, m.imagesToCopy);
    assert forall j | 3 <= j < |front| :: front[j] == loop.trace[j - 3];
    PushesInTrace(front, tail, RemoveAll(tempDir), PushImage(image, [BundledDB(env, tempDir, m)]));
    PushPositionAfterManifest(o, env, tempDir, m);
  }

  /** Only the effect before the last can be the push, and a successful run has it. */
  lemma PushIsSecondToLast(o: Options, env: Env)
    ensures var r := Run(o, env);
      forall j | 0 <= j < |r.trace| && j != |r.trace| - 2 :: !r.trace[j].PushImage?
    ensures var r := Run(o, env);
      r.err.None? ==> |r.trace| >= 2 && r.trace[|r.trace| - 2].PushImage?
  {
    if env.makeTempDir.Some? && LoadedManifest(o, env, env.makeTempDir.value).Some? {
      PushPositionAfterManifest(o, env, env.makeTempDir.value, LoadedManifest(o, env, env.makeTempDir.value).value);
    } else {
      SetupFailureHasNoRemoteEffect(o, env);
    }
  }

  /** The metadata image is pushed at most once, after every image upload, download
      and merge: only the removal of the temporary directory follows it. A successful
      run has pushed it. */
  lemma PushOnceAfterUploads(o: Options, env: Env)
    ensures var r := Run(o, env);
      forall p, q | 0 <= p < q < |r.trace| :: !(r.trace[p].PushImage? && r.trace[q].PushImage?)
    ensures var r := Run(o, env);
      forall p, j | 0 <= p < j < |r.trace| && r.trace[p].PushImage? :: r.trace[j].RemoveAll?
    ensures var r := Run(o, env);
      r.err.None? ==> exists p | 0 <= p < |r.trace| :: r.trace[p].PushImage?
  {
    PushIsSecondToLast(o, env);
    TempDirRemovedOnEveryPath(o, env);
  }

  /** Every collaborator call a successful run depends on succeeds: the temporary
      directory, the manifest, every image upload, the metadata image's path, the
      merge when there is published metadata, the push and the inventory image's URL. */
  predicate AllStepsSucceed(o: Options, env: Env) {
    match env.makeTempDir
    case None => false
    case Some(tempDir) =>
      match LoadedManifest(o, env, tempDir)
      case None => false
      case Some(m) =>
        && (forall j | 0 <= j < |m.imagesToCopy| :: Uploads(env, BundleDir(env, tempDir), o.destinationRepo, m.imagesToCopy[j]))
        && match env.joinURL(o.destinationRepo, m.inventoryMetadataImage.relativeImagePathWithTag)
           case None => false
           case Some(image) =>
             var dir := JoinPath(tempDir, INVENTORY_METADATA_DIR);
             && (env.downloadImage(image, dir) ==>
                   env.mergeDatabase(BundledDB(env, tempDir, m), JoinPath(dir, env.layout.metadataDBFileName)))
             && env.pushImage(image, [BundledDB(env, tempDir, m)])
             && env.joinURL(o.destinationRepo, m.relativeInventoryImagePathWithTag).Some?
  }

  /** A run succeeds exactly when every step succeeds, and then it has uploaded every
      image of the manifest. */
  lemma SuccessIff(o: Options, env: Env)
    ensures Run(o, env).err.None? <==> AllStepsSucceed(o, env)
    ensures Run(o, env).err.None? ==>
      Run(o, env).imagesUploaded == |LoadedManifest(o, env, env.makeTempDir.value).value.imagesToCopy|
  {
    SetupFailureHasNoRemoteEffect(o, env);
    if env.makeTempDir.Some? && LoadedManifest(o, env, env.makeTempDir.value).Some? {
      var tempDir := env.makeTempDir.value;
      var m := LoadedManifest(o, env, tempDir).value;
      var bundleDir := BundleDir(env, tempDir);
      RunAfterManifest(o, env, tempDir, m);
      CopyImagesSpec(env, bundleDir, o.destinationRepo, m.imagesToCopy);
      LoopSucceedsIff(env, bundleDir, o.destinationRepo, m.imagesToCopy);
    }
  }
}
