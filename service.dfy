/**
 * The `/qr` request handler: validate, stage the upload in a fresh
 * temporary directory, normalise it by its extension, name the output, call
 * the composer, read its output back, and remove the directory on every exit.
 */
module Service {
  import opened Wrappers
  import opened Text
  import opened Paths
  import opened Naming
  import opened Imaging
  import opened Resize
  import opened Frames
  import opened Workspace

  /** The upload ceiling: 10 MiB, exceeded only by a strictly larger upload. */
  const MaxFileSize: nat := 10 * 1024 * 1024

  const Levels: seq<string> := ["L", "M", "Q", "H"]

  const SupportedFormats: seq<string> := [".jpg", ".jpeg", ".png", ".bmp", ".gif"]

  const ConvertedName := "converted_image.png"
  const GifName := "optimized.gif"

  /** The `detail` of an error response. */
  datatype Detail =
    | BadLevel
    | TooLarge
    | Unsupported(ext: string)
    | NoOutput
    | GenerationError(text: string)

  /** The text each detail carries; `MAX_FILE_SIZE / 1024 / 1024` is the float 10.0. */
  function Message(d: Detail): string {
    match d
    case BadLevel => "Level must be one of: L, M, Q, H"
    case TooLarge => "File too large. Maximum size is 10.0MB"
    case Unsupported(ext) => "Unable to process image format " + ext + ". Supported: JPG, PNG, BMP, GIF, WebP"
    case NoOutput => "QR code generation failed"
    case GenerationError(text) => "QR code generation error: " + text
  }

  /** What the image decoder makes of the uploaded bytes: nothing, or its frames in order. */
  datatype Decoding = NotAnImage | Decoded(frames: seq<SourceFrame>)

  datatype Upload = Upload(filename: string, contents: seq<bv8>, decoding: Decoding)

  datatype Request = Request(
    words: string, version: int, level: string, picture: Option<Upload>,
    colorized: bool, contrast: real, brightness: real)

  /** The arguments of `amzqr.run`; `picture` is a file name inside `saveDir`. */
  datatype CompositionRequest = CompositionRequest(
    words: string, version: int, level: string, picture: Option<string>,
    colorized: bool, contrast: real, brightness: real, saveName: string, saveDir: string)

  /**
   * What `amzqr.run` does for this request: raise, or return a name in the
   * workspace after writing that file or not.
   */
  datatype Composer = Raises(text: string) | Returns(qrName: string, written: Option<File>)

  /** An `HTTPException`, or any other exception with its text. */
  datatype Failure = HttpError(status: nat, detail: Detail) | Raised(text: string)

  datatype Response = Streamed(body: File, mediaType: string, filename: string) | ErrorResponse(status: nat, detail: Detail)

  datatype Route = ConvertToPng | ReduceGif | OptimizeStatic

  /** The workspace after the upload step: the picture handed on and the files written, or the error and the files written before it. */
  datatype Staging = Staged(picture: Option<string>, files: Files) | Rejected(error: Failure, files: Files)

  predicate ValidLevel(level: string) {
    level in Levels
  }

  /** `os.path.splitext(filename)[1].lower()` */
  function FileExt(filename: string): string {
    Lower(Extension(filename))
  }

  function RouteFor(ext: string): Route {
    if ext !in SupportedFormats then ConvertToPng
    else if ext == ".gif" then ReduceGif
    else OptimizeStatic
  }

  function UploadName(picture: Option<Upload>): Option<string> {
    if picture.Some? then Some(picture.value.filename) else None
  }

  predicate DecodingWellFormed(d: Decoding) {
    d.Decoded? ==> FramesWellFormed(d.frames)
  }

  predicate UploadWellFormed(picture: Option<Upload>) {
    picture.Some? ==> DecodingWellFormed(picture.value.decoding)
  }

  /** `Image.open` and loading its first frame; None when either raises. */
  function FirstImage(d: Decoding): Option<Image> {
    if d.Decoded? && |d.frames| > 0 && d.frames[0].Frame? then Some(d.frames[0].image) else None
  }

  /** The unsupported-format branch: flatten, then bound; None when it raises. */
  function ConvertedPng(d: Decoding): Option<Image>
  {
    match FirstImage(d)
    case None => None
    case Some(img) => Some(BoundEdges(Flatten(img)))
  }

  /** The static branch: bound, then flatten; None when it raises. */
  function OptimizedStatic(d: Decoding): Option<Image>
  {
    match FirstImage(d)
    case None => None
    case Some(img) => Some(Flatten(BoundEdges(img)))
  }

  /** The GIF branch; None when `Image.open` or the frame loop raises. */
  function ReducedUpload(d: Decoding): Option<Animation>
  {
    match d
    case NotAnImage => None
    case Decoded(frames) => ReducedGif(frames)
  }

  /** The three-way dispatch of an accepted upload, `original` being the workspace holding it. */
  function Dispatch(u: Upload, original: Files): Staging
  {
    var ext := FileExt(u.filename);
    match RouteFor(ext)
    case ConvertToPng =>
      (match ConvertedPng(u.decoding)
       case Some(img) => Staged(Some(ConvertedName), original[ConvertedName := Still(".png", img)])
       case None => Rejected(HttpError(400, Unsupported(ext)), original))
    case ReduceGif =>
      (match ReducedUpload(u.decoding)
       case Some(a) => Staged(Some(GifName), original[GifName := Animated(a)])
       case None => Staged(Some(u.filename), original))
    case OptimizeStatic =>
      (match OptimizedStatic(u.decoding)
       case Some(img) => Staged(Some("optimized" + ext), original["optimized" + ext := Still(ext, img)])
       case None => Staged(Some(u.filename), original))
  }

  /** The reference definition of the upload step: size check, write, dispatch. */
  function Stage(picture: Option<Upload>): Staging
  {
    match picture
    case None => Staged(None, map[])
    case Some(u) =>
      if |u.contents| > MaxFileSize then Rejected(HttpError(400, TooLarge), map[])
      else Dispatch(u, map[u.filename := Bytes(u.contents)])
  }

  /** How a staging result reaches the handler: the picture path, or the exception. */
  function StagedResult(st: Staging): Result<Option<string>, Failure> {
    match st
    case Staged(p, _) => Ok(p)
    case Rejected(e, _) => Err(e)
  }

  /** The workspace once the composer has run. */
  function Composed(files: Files, composer: Composer): Files {
    match composer
    case Raises(_) => files
    case Returns(name, written) => if written.Some? then files[name := written.value] else files
  }

  /** The `except` clauses: an `HTTPException` passes through, anything else becomes a 500. */
  function ToResponse(e: Failure): (r: Response)
    ensures r.ErrorResponse?
    ensures e.HttpError? ==> r.status == e.status && r.detail == e.detail
    ensures e.Raised? ==> r.status == 500 && r.detail == GenerationError(e.text)
  {
    match e
    case HttpError(status, detail) => ErrorResponse(status, detail)
    case Raised(text) => ErrorResponse(500, GenerationError(text))
  }

  /** The reference definition of the composer call and the read-back, given the staged files. */
  function Delivered(files: Files, composer: Composer): Result<Response, Failure> {
    match composer
    case Raises(text) => Err(Raised(text))
    case Returns(name, _) =>
      var out := Composed(files, composer);
      if name in out then Ok(Streamed(out[name], MediaType(name), name))
      else Err(HttpError(500, NoOutput))
  }

  /** The response the handler returns for what its `try` body did. */
  function Respond(outcome: Result<Response, Failure>): Response {
    match outcome
    case Ok(r) => r
    case Err(e) => ToResponse(e)
  }

  /** The reference definition of the `try` body: the response it returns or the exception it raises. */
  function Attempt(req: Request, composer: Composer): Result<Response, Failure>
  {
    match Stage(req.picture)
    case Rejected(e, _) => Err(e)
    case Staged(_, files) => Delivered(files, composer)
  }

  /** The reference definition of the handler's response. */
  function Outcome(req: Request, composer: Composer): Response
  {
    if !ValidLevel(req.level) then ErrorResponse(400, BadLevel)
    else Respond(Attempt(req, composer))
  }

  /** What the handler passes to the composer, if it gets that far. */
  function CompositionFor(req: Request, tempDir: string): Option<CompositionRequest>
  {
    match Stage(req.picture)
    case Rejected(_, _) => None
    case Staged(picture, _) =>
      Some(CompositionRequest(
        req.words, req.version, req.level, picture, req.colorized,
        req.contrast, req.brightness, SaveName(req.words, UploadName(req.picture)), tempDir))
  }

  /** The workspace's files when the cleanup runs. */
  function FinalFiles(req: Request, composer: Composer): Files
  {
    match Stage(req.picture)
    case Rejected(_, files) => files
    case Staged(_, files) => Composed(files, composer)
  }

  /**
   * The upload step as the handler runs it: check the size, write the bytes,
   * then dispatch on the lower-cased extension.
   */
  method StagePicture(fs: FileSystem, dir: string, picture: Option<Upload>) returns (r: Result<Option<string>, Failure>)
    requires dir in fs.dirs && fs.dirs[dir] == map[]
    modifies fs
    ensures fs.dirs == old(fs.dirs)[dir := Stage(picture).files]
    ensures r == StagedResult(Stage(picture))
  {
    if picture.None? {
      UpdateSame(old(fs.dirs), dir);
      return Ok(None);
    }
    var u := picture.value;
    if |u.contents| > MaxFileSize {
      UpdateSame(old(fs.dirs), dir);
      return Err(HttpError(400, TooLarge));
    }
    ghost var original: Files := map[u.filename := Bytes(u.contents)];
    fs.WriteFile(dir, u.filename, Bytes(u.contents));
    r := DispatchUpload(fs, dir, u);
    UpdateTwice(old(fs.dirs), dir, original, Dispatch(u, original).files);
  }

  /** The three-way dispatch on the lower-cased extension. */
  method DispatchUpload(fs: FileSystem, dir: string, u: Upload) returns (r: Result<Option<string>, Failure>)
    requires dir in fs.dirs
    modifies fs
    ensures fs.dirs == old(fs.dirs)[dir := Dispatch(u, old(fs.dirs)[dir]).files]
    ensures r == StagedResult(Dispatch(u, old(fs.dirs)[dir]))
  {
    var ext := FileExt(u.filename);
    var isGif := ext == ".gif";
    if ext !in SupportedFormats {
      r := ConvertUpload(fs, dir, u, ext);
    } else if isGif {
      r := ReduceUpload(fs, dir, u);
    } else {
      r := OptimizeUpload(fs, dir, u, ext);
    }
  }

  /** The unsupported-format branch: any failure becomes a 400 naming the extension. */
  method ConvertUpload(fs: FileSystem, dir: string, u: Upload, ext: string) returns (r: Result<Option<string>, Failure>)
    requires ext == FileExt(u.filename) && RouteFor(ext) == ConvertToPng
    requires dir in fs.dirs
    modifies fs
    ensures fs.dirs == old(fs.dirs)[dir := Dispatch(u, old(fs.dirs)[dir]).files]
    ensures r == StagedResult(Dispatch(u, old(fs.dirs)[dir]))
  {
    var loaded := FirstImage(u.decoding);
    if loaded.None? {
      return Err(HttpError(400, Unsupported(ext)));
    }
    var img := Flatten(loaded.value);
    if img.width > MaxEdge || img.height > MaxEdge {
      img := Thumbnail(img, MaxEdge);
    }
    fs.WriteFile(dir, ConvertedName, Still(".png", img));
    r := Ok(Some(ConvertedName));
  }

  /** The GIF branch: any failure falls back to the original upload. */
  method ReduceUpload(fs: FileSystem, dir: string, u: Upload) returns (r: Result<Option<string>, Failure>)
    requires RouteFor(FileExt(u.filename)) == ReduceGif
    requires dir in fs.dirs
    modifies fs
    ensures fs.dirs == old(fs.dirs)[dir := Dispatch(u, old(fs.dirs)[dir]).files]
    ensures r == StagedResult(Dispatch(u, old(fs.dirs)[dir]))
  {
    var reduced: Option<Animation> := None;
    if u.decoding.Decoded? {
      reduced := ReduceFrames(u.decoding.frames);
    }
    if reduced.Some? {
      fs.WriteFile(dir, GifName, Animated(reduced.value));
      r := Ok(Some(GifName));
    } else {
      r := Ok(Some(u.filename));
    }
  }

  /** The static branch (JPEG, PNG, BMP): any failure falls back to the original upload. */
  method OptimizeUpload(fs: FileSystem, dir: string, u: Upload, ext: string) returns (r: Result<Option<string>, Failure>)
    requires ext == FileExt(u.filename) && RouteFor(ext) == OptimizeStatic
    requires dir in fs.dirs
    modifies fs
    ensures fs.dirs == old(fs.dirs)[dir := Dispatch(u, old(fs.dirs)[dir]).files]
    ensures r == StagedResult(Dispatch(u, old(fs.dirs)[dir]))
  {
    var loaded := FirstImage(u.decoding);
    if loaded.None? {
      return Ok(Some(u.filename));
    }
    var img := loaded.value;
    if img.width > MaxEdge || img.height > MaxEdge {
      img := Thumbnail(img, MaxEdge);
    }
    img := Flatten(img);
    assert OptimizedStatic(u.decoding) == Some(img);
    var optimizedName := "optimized" + ext;
    fs.WriteFile(dir, optimizedName, Still(ext, img));
    r := Ok(Some(optimizedName));
  }

  /** `amzqr.run(...)`: raises, or returns a name after writing that file into the workspace or not. */
  method RunComposer(fs: FileSystem, dir: string, request: CompositionRequest, composer: Composer) returns (r: Result<string, Failure>)
    requires dir in fs.dirs
    modifies fs
    ensures composer.Raises? ==> r == Err(Raised(composer.text))
    ensures composer.Returns? ==> r == Ok(composer.qrName)
    ensures fs.dirs == old(fs.dirs)[dir := Composed(old(fs.dirs)[dir], composer)]
  {
    match composer
    case Raises(text) =>
      r := Err(Raised(text));
    case Returns(name, written) =>
      if written.Some? {
        fs.WriteFile(dir, name, written.value);
      }
      r := Ok(name);
  }

  /**
   * The `try` body of the handler, run inside the fresh directory `dir`.
   * `call` records what was passed to the composer, if anything.
   */
  method Attempted(fs: FileSystem, dir: string, req: Request, composer: Composer)
    returns (outcome: Result<Response, Failure>, ghost call: Option<CompositionRequest>, ghost left: Files)
    requires dir in fs.dirs && fs.dirs[dir] == map[]
    modifies fs
    ensures outcome == Attempt(req, composer)
    ensures call == CompositionFor(req, dir)
    ensures left == FinalFiles(req, composer)
    ensures fs.dirs == old(fs.dirs)[dir := left]
  {
    call := None;
    var picturePath := StagePicture(fs, dir, req.picture);
    ghost var staged := fs.dirs[dir];
    if picturePath.Err? {
      return Err(picturePath.error), call, staged;
    }
    var saveName := SaveName(req.words, UploadName(req.picture));
    var request := CompositionRequest(
      req.words, req.version, req.level, picturePath.value, req.colorized,
      req.contrast, req.brightness, saveName, dir);
    call := Some(request);
    outcome := ComposeAndLoad(fs, dir, request, composer);
    left := fs.dirs[dir];
    UpdateTwice(old(fs.dirs), dir, staged, left);
  }

  /** `amzqr.run`, the existence check on its output, and reading the output into memory. */
  method ComposeAndLoad(fs: FileSystem, dir: string, request: CompositionRequest, composer: Composer)
    returns (outcome: Result<Response, Failure>)
    requires dir in fs.dirs
    modifies fs
    ensures outcome == Delivered(old(fs.dirs)[dir], composer)
    ensures fs.dirs == old(fs.dirs)[dir := Composed(old(fs.dirs)[dir], composer)]
  {
    var ran := RunComposer(fs, dir, request, composer);
    if ran.Err? {
      return Err(ran.error);
    }
    var qrName := ran.value;
    if !fs.Exists(dir, qrName) {
      return Err(HttpError(500, NoOutput));
    }
    var data := fs.ReadFile(dir, qrName);
    outcome := Ok(Streamed(data, MediaType(qrName), qrName));
  }

  /**
   * The `/qr` handler. `tempDir` is the directory `mkdtemp` creates,
   * `composer` what `amzqr.run` does, and `removalFails` whether `rmtree`
   * raises. `call` records what was passed to the composer, if anything.
   */
  method GenerateQr(fs: FileSystem, req: Request, tempDir: string, composer: Composer, removalFails: bool)
    returns (resp: Response, ghost call: Option<CompositionRequest>)
    requires 1 <= req.version <= 40
    requires 0.1 <= req.contrast <= 10.0 && 0.1 <= req.brightness <= 10.0
    requires tempDir !in fs.dirs
    modifies fs
    ensures resp == Outcome(req, composer)
    ensures !ValidLevel(req.level) ==> fs.dirs == old(fs.dirs) && call == None
    ensures ValidLevel(req.level) ==> call == CompositionFor(req, tempDir)
    ensures ValidLevel(req.level) && !removalFails ==> fs.dirs == old(fs.dirs)
    ensures ValidLevel(req.level) && removalFails ==> fs.dirs == old(fs.dirs)[tempDir := FinalFiles(req, composer)]
  {
    if !ValidLevel(req.level) {
      return ToResponse(HttpError(400, BadLevel)), None;
    }
    ghost var left;
    resp, call, left := InWorkspace(fs, req, tempDir, composer, removalFails);
  }

  /** The part of the handler after the level check: the workspace, the `try` body, its `except` clauses and the `finally` cleanup. */
  method InWorkspace(fs: FileSystem, req: Request, tempDir: string, composer: Composer, removalFails: bool)
    returns (resp: Response, ghost call: Option<CompositionRequest>, ghost left: Files)
    requires tempDir !in fs.dirs
    modifies fs
    ensures resp == Respond(Attempt(req, composer))
    ensures call == CompositionFor(req, tempDir)
    ensures left == FinalFiles(req, composer)
    ensures !removalFails ==> fs.dirs == old(fs.dirs)
    ensures removalFails ==> fs.dirs == old(fs.dirs)[tempDir := left]
  {
    fs.MakeTempDir(tempDir);
    var outcome;
    outcome, call, left := Attempted(fs, tempDir, req, composer);
    UpdateTwice(old(fs.dirs), tempDir, map[], left);
    resp := Respond(outcome);
    CleanUp(fs, tempDir, removalFails);
    RemoveAdded(old(fs.dirs), tempDir, left);
  }

  /** The `finally` clause: remove the directory if it exists. */
  method CleanUp(fs: FileSystem, dir: string, removalFails: bool)
    modifies fs
    ensures removalFails ==> fs.dirs == old(fs.dirs)
    ensures !removalFails ==> fs.dirs == old(fs.dirs) - {dir}
  {
    if dir in fs.dirs {
      fs.RemoveTree(dir, removalFails);
    }
  }
}
