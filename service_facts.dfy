/**
 * What the `/qr` handler guarantees, stated over the reference definitions
 * of the Service module: which requests are refused and with which status,
 * what the workspace holds once the upload is staged, and a few concrete
 * requests worked through.
 */
module ServiceFacts {
  import opened Wrappers
  import opened Text
  import opened Paths
  import opened Naming
  import opened Imaging
  import opened Resize
  import opened Frames
  import opened Workspace
  import opened Service

  /** A still image as the handler hands it to the composer: well-formed RGB within 600×600. */
  predicate NormalizedStill(img: Image) {
    && img.mode == "RGB" && WellFormed(img)
    && img.width <= MaxEdge && img.height <= MaxEdge
  }

  /**
   * The upload's first image is an L or RGB image with a colour key, which
   * the flattening rule leaves in place.
   */
  predicate KeyedFirstImage(d: Decoding) {
    FirstImage(d).Some? && KeepsColourKey(FirstImage(d).value)
  }

  /** An animation as the handler writes it: 1 to 50 normalised frames, one duration each, looping forever. */
  predicate NormalizedAnimation(a: Animation) {
    && 1 <= |a.frames| <= MaxFrames
    && |a.durations| == |a.frames|
    && a.loop == LoopForever
    && forall i :: 0 <= i < |a.frames| ==> NormalizedStill(a.frames[i])
  }

  /** Raw uploaded bytes are kept as they came; every image the handler wrote is normalised. */
  predicate Normalized(f: File) {
    match f
    case Bytes(_) => true
    case Still(_, img) => NormalizedStill(img)
    case Animated(a) => NormalizedAnimation(a)
  }

  predicate TooLargeUpload(picture: Option<Upload>) {
    picture.Some? && |picture.value.contents| > MaxFileSize
  }

  /** The upload falls to the unsupported-format branch and its conversion raises. */
  predicate Unconvertible(u: Upload) {
    RouteFor(FileExt(u.filename)) == ConvertToPng && ConvertedPng(u.decoding).None?
  }

  /** The level is checked before anything else: an unknown level is a 400 whatever the upload. */
  lemma LevelCheckedFirst(req: Request, composer: Composer)
    requires !ValidLevel(req.level)
    ensures Outcome(req, composer) == ErrorResponse(400, BadLevel)
    ensures Message(BadLevel) == "Level must be one of: L, M, Q, H"
  {
  }

  /**
   * With a valid level the handler answers 400 exactly when the upload is
   * larger than 10 MiB or falls to the unsupported-format branch and cannot
   * be converted; the detail says which.
   */
  lemma {:induction false} BadRequestCases(req: Request, composer: Composer)
    requires ValidLevel(req.level)
    ensures var r := Outcome(req, composer);
      (r.ErrorResponse? && r.status == 400) <==>
        (TooLargeUpload(req.picture) || (req.picture.Some? && Unconvertible(req.picture.value)))
    ensures TooLargeUpload(req.picture) ==> Outcome(req, composer) == ErrorResponse(400, TooLarge)
    ensures !TooLargeUpload(req.picture) && req.picture.Some? && Unconvertible(req.picture.value) ==>
      Outcome(req, composer) == ErrorResponse(400, Unsupported(FileExt(req.picture.value.filename)))
  {
    match req.picture
    case None =>
    case Some(u) =>
      if |u.contents| <= MaxFileSize {
        assert Stage(req.picture) == Dispatch(u, map[u.filename := Bytes(u.contents)]);
      }
  }

  /**
   * With a valid level and an accepted upload the handler answers 500
   * exactly when the composer raises or the name it returns is not a file
   * of the workspace.
   */
  lemma {:induction false} ServerErrorCases(req: Request, composer: Composer)
    requires ValidLevel(req.level) && Stage(req.picture).Staged?
    ensures var r := Outcome(req, composer);
      (r.ErrorResponse? && r.status == 500) <==>
        (composer.Raises? || composer.qrName !in Composed(Stage(req.picture).files, composer))
    ensures composer.Raises? ==> Outcome(req, composer) == ErrorResponse(500, GenerationError(composer.text))
    ensures composer.Returns? && composer.qrName !in Composed(Stage(req.picture).files, composer) ==>
      Outcome(req, composer) == ErrorResponse(500, NoOutput)
  {
    assert Attempt(req, composer) == Delivered(Stage(req.picture).files, composer);
  }

  /**
   * A successful response streams the file the composer named, under that
   * name, as "image/gif" exactly when the name ends in ".gif"; when the
   * composer used the name it was given, that is exactly a GIF upload.
   */
  lemma {:induction false} StreamedOutput(req: Request, composer: Composer)
    requires Outcome(req, composer).Streamed?
    ensures ValidLevel(req.level) && Stage(req.picture).Staged? && composer.Returns?
    ensures var r, out := Outcome(req, composer), Composed(Stage(req.picture).files, composer);
      && composer.qrName in out
      && r == Streamed(out[composer.qrName], MediaType(composer.qrName), composer.qrName)
    ensures composer.qrName == SaveName(req.words, UploadName(req.picture)) ==>
      (Outcome(req, composer).mediaType == "image/gif" <==> IsGifUpload(UploadName(req.picture)))
  {
    assert ValidLevel(req.level);
    assert Stage(req.picture).Staged?;
    assert Attempt(req, composer) == Delivered(Stage(req.picture).files, composer);
    if composer.qrName == SaveName(req.words, UploadName(req.picture)) {
      MediaTypeOfSaveName(req.words, UploadName(req.picture));
    }
  }

  /** An upload of exactly 10 MiB is accepted: it is written to the workspace and is not refused as too large. */
  lemma {:induction false} SizeLimitInclusive(u: Upload)
    requires |u.contents| <= MaxFileSize
    ensures u.filename in Stage(Some(u)).files
    ensures Stage(Some(u)).Rejected? ==> Stage(Some(u)).error == HttpError(400, Unsupported(FileExt(u.filename)))
  {
    assert Stage(Some(u)) == Dispatch(u, map[u.filename := Bytes(u.contents)]);
  }

  /** A too-large upload is refused before its content is looked at: the decoding plays no part. */
  lemma OversizeNeverDecoded(u: Upload, other: Decoding)
    requires |u.contents| > MaxFileSize
    ensures Stage(Some(u)) == Stage(Some(u.(decoding := other))) == Rejected(HttpError(400, TooLarge), map[])
  {
  }

  /** A refused upload leaves no file behind when it is too large, and the composer is never called. */
  lemma {:induction false} RejectedBeforeComposing(req: Request, composer: Composer, tempDir: string)
    requires Stage(req.picture).Rejected?
    ensures CompositionFor(req, tempDir) == None
    ensures FinalFiles(req, composer) == Stage(req.picture).files
    ensures TooLargeUpload(req.picture) ==> FinalFiles(req, composer) == map[]
  {
  }

  /**
   * JPEG, PNG, BMP and GIF uploads are never refused: when their branch
   * raises, the original upload, exactly as received, is handed on instead.
   */
  lemma {:induction false} SupportedFallsBack(u: Upload)
    requires |u.contents| <= MaxFileSize
    requires RouteFor(FileExt(u.filename)) != ConvertToPng
    ensures Stage(Some(u)).Staged?
    ensures RouteFor(FileExt(u.filename)) == ReduceGif && ReducedUpload(u.decoding).None? ==>
      Stage(Some(u)) == Staged(Some(u.filename), map[u.filename := Bytes(u.contents)])
    ensures RouteFor(FileExt(u.filename)) == OptimizeStatic && OptimizedStatic(u.decoding).None? ==>
      Stage(Some(u)) == Staged(Some(u.filename), map[u.filename := Bytes(u.contents)])
  {
    assert Stage(Some(u)) == Dispatch(u, map[u.filename := Bytes(u.contents)]);
  }

  /** The picture handed to the composer is a file of the workspace; there is one exactly when there was an upload. */
  lemma {:induction false} StagedPictureExists(picture: Option<Upload>)
    requires Stage(picture).Staged?
    ensures Stage(picture).picture.Some? <==> picture.Some?
    ensures Stage(picture).picture.Some? ==> Stage(picture).picture.value in Stage(picture).files
  {
    if picture.Some? {
      var u := picture.value;
      assert Stage(picture) == Dispatch(u, map[u.filename := Bytes(u.contents)]);
    }
  }

  /** The first frame of a well-formed decoding is well-formed. */
  lemma FirstImageWellFormed(d: Decoding)
    requires DecodingWellFormed(d) && FirstImage(d).Some?
    ensures WellFormed(FirstImage(d).value)
  {
  }

  /**
   * An image converted by the unsupported-format branch is normalised; it
   * has no colour key and every pixel opaque exactly when the upload was not
   * a keyed L or RGB image.
   */
  lemma {:induction false} ConvertedPngNormalized(d: Decoding)
    requires DecodingWellFormed(d) && ConvertedPng(d).Some?
    ensures NormalizedStill(ConvertedPng(d).value)
    ensures Flat(ConvertedPng(d).value) <==> !KeyedFirstImage(d)
  {
    var img := FirstImage(d).value;
    FirstImageWellFormed(d);
    FlattenWellFormed(img);
    BoundEdgesWellFormed(Flatten(img));
    BoundEdgesSpec(Flatten(img));
  }

  /**
   * An image optimised by the static branch is normalised; it has no colour
   * key and every pixel opaque exactly when the upload was not a keyed L or
   * RGB image.
   */
  lemma {:induction false} OptimizedStaticNormalized(d: Decoding)
    requires DecodingWellFormed(d) && OptimizedStatic(d).Some?
    ensures NormalizedStill(OptimizedStatic(d).value)
    ensures Flat(OptimizedStatic(d).value) <==> !KeyedFirstImage(d)
  {
    var img := FirstImage(d).value;
    FirstImageWellFormed(d);
    BoundEdgesWellFormed(img);
    BoundEdgesSpec(img);
    FlattenWellFormed(BoundEdges(img));
  }

  /**
   * An animation written by the GIF branch is normalised; a frame has no
   * colour key and every pixel opaque exactly when its source frame had no
   * colour key.
   */
  lemma {:induction false} ReducedUploadNormalized(d: Decoding)
    requires DecodingWellFormed(d) && ReducedUpload(d).Some?
    ensures NormalizedAnimation(ReducedUpload(d).value)
    ensures forall i :: 0 <= i < |ReducedUpload(d).value.frames| ==>
      (Flat(ReducedUpload(d).value.frames[i]) <==> !d.frames[i].image.keyed)
  {
    ReducedGifShape(d.frames);
    ReducedFramesNormalized(d.frames);
  }

  /**
   * Every file in the workspace after the upload step is either the upload's
   * own bytes or an image the handler normalised; a still image among them
   * has no colour key and every pixel opaque exactly when the upload was not
   * a keyed L or RGB image.
   */
  lemma {:induction false} StagedFilesNormalized(picture: Option<Upload>)
    requires UploadWellFormed(picture)
    ensures forall name :: name in Stage(picture).files ==> Normalized(Stage(picture).files[name])
    ensures forall name :: name in Stage(picture).files && Stage(picture).files[name].Still? ==>
      (Flat(Stage(picture).files[name].image) <==> !(picture.Some? && KeyedFirstImage(picture.value.decoding)))
  {
    if picture.Some? && |picture.value.contents| <= MaxFileSize {
      var u := picture.value;
      var original := map[u.filename := Bytes(u.contents)];
      assert Stage(picture) == Dispatch(u, original);
      match RouteFor(FileExt(u.filename))
      case ConvertToPng =>
        if ConvertedPng(u.decoding).Some? {
          ConvertedPngNormalized(u.decoding);
        }
      case ReduceGif =>
        if ReducedUpload(u.decoding).Some? {
          ReducedUploadNormalized(u.decoding);
        }
      case OptimizeStatic =>
        if OptimizedStatic(u.decoding).Some? {
          OptimizedStaticNormalized(u.decoding);
        }
    }
  }

  /** A file routed to the GIF branch also gets a ".gif" output name. */
  lemma {:induction false} GifRouteNamesGif(words: string, filename: string)
    requires RouteFor(FileExt(filename)) == ReduceGif
    ensures IsGifUpload(Some(filename))
    ensures EndsWith(SaveName(words, Some(filename)), ".gif")
  {
    var ext := Extension(filename);
    var k := |filename| - |ext|;
    assert Lower(ext) == ".gif";
    LowerSuffix(filename, k);
    assert Lower(filename)[k..] == ".gif";
  }

  /**
   * The two extension tests disagree on a file named ".gif": `splitext`
   * gives it no extension, so it is converted to a still PNG, while the
   * output name, chosen by `endswith`, is a ".gif".
   */
  lemma DotGifDisagreement()
    ensures FileExt(".gif") == []
    ensures RouteFor(FileExt(".gif")) == ConvertToPng
    ensures IsGifUpload(Some(".gif"))
  {
    LeadingDotsOnly(".gif", 0);
    assert Lower(".gif") == ".gif";
  }

  /** No upload: the composer runs without a picture, and the response is the PNG it wrote under the requested name. */
  lemma NoPictureRequest(req: Request, file: File)
    requires ValidLevel(req.level) && req.picture.None?
    ensures var name := SaveName(req.words, None);
      && CompositionFor(req, "tmp") == Some(CompositionRequest(
           req.words, req.version, req.level, None, req.colorized,
           req.contrast, req.brightness, name, "tmp"))
      && Outcome(req, Returns(name, Some(file))) == Streamed(file, "image/png", name)
  {
  }

  /** An upload one byte over the limit is refused as too large, leaves nothing behind and never reaches the composer. */
  lemma OversizeRequest(req: Request, composer: Composer)
    requires ValidLevel(req.level) && req.picture.Some? && |req.picture.value.contents| == MaxFileSize + 1
    ensures Outcome(req, composer) == ErrorResponse(400, TooLarge)
    ensures Message(TooLarge) == "File too large. Maximum size is 10.0MB"
    ensures FinalFiles(req, composer) == map[] && CompositionFor(req, "tmp") == None
  {
  }

  /** "background.png" has the extension ".png", which goes to the static branch. */
  lemma BackgroundPngExtension()
    ensures FileExt("background.png") == ".png"
    ensures RouteFor(".png") == OptimizeStatic
  {
    ExtensionFromLastDot("background.png", 10);
    assert Lower(".png") == ".png";
  }

  /** A 300×300 RGB "background.png" is already small and flat: the optimised copy is the image itself. */
  lemma {:induction false} SmallPngRequest(u: Upload, img: Image)
    requires u.filename == "background.png" && |u.contents| <= MaxFileSize
    requires img.width == 300 && img.height == 300 && img.mode == "RGB"
    requires u.decoding == Decoded([Frame(img, Missing)])
    ensures Stage(Some(u)) == Staged(Some("optimized.png"),
      map[u.filename := Bytes(u.contents), "optimized.png" := Still(".png", img)])
  {
    BackgroundPngExtension();
    assert BoundEdges(img) == img;
    assert OptimizedStatic(u.decoding) == Some(img);
    assert "optimized" + ".png" == "optimized.png";
    assert Stage(Some(u)) == Dispatch(u, map[u.filename := Bytes(u.contents)]);
  }
}
