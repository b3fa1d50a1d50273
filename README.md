# QR microservice request handler, modelled in Dafny

This project models the `/qr` handler `generate_qr` of the QR-code
microservice (main.py:44-289). The handler does these steps:

- checks the error-correction level;
- creates a private temporary directory;
- checks the size of the optional background upload and writes it there;
- picks one of three branches by the lower-cased extension. An unsupported
  format is converted to PNG. A GIF is reduced to at most 50 RGB frames of
  at most 600×600. JPEG, PNG and BMP are bounded to 600×600 and flattened.
- builds a sanitised output name and calls the QR composer (`amzqr.run`);
- reads the composer's output back and returns it;
- maps errors to HTTP statuses and always removes the directory.

Modules, one per concern of the handler:

| module | file | models |
|---|---|---|
| `Text` | text.dfy | `str.lower`, `str.endswith`, `str.isalnum`, `str.rfind` (ASCII) |
| `Paths` | paths.dfy | the extension rule of `os.path.splitext` |
| `Naming` | naming.dfy | `safe_name`, `save_name`, the media type |
| `Imaging` | imaging.dfy | images as pixel grids, `convert`, pasting onto a white canvas |
| `Resize` | resize.dfy | PIL's `thumbnail` size rule and the 600-pixel guard |
| `Frames` | frames.dfy | the GIF frame loop (a method with a loop) and its reference definition |
| `Workspace` | workspace.dfy | the temporary directories, as a class whose methods update a map |
| `Service` | service.dfy | the handler: reference functions, and methods that run it step by step against a `FileSystem` |
| `ServiceFacts` | service_facts.dfy | what the handler guarantees, stated over the reference functions |

Collaborators the handler calls become parameters:

- The image decoder (`Image.open` and `ImageSequence.Iterator`) is a `Decoding` value.
  It holds either nothing (the bytes are not an image) or the frames in order.
  Each frame is an image, a frame whose pixel data fails to load, or a failing seek.
- `amzqr.run` is a `Composer`. It either raises, or returns a name after
  writing that file into the directory or not.
- `tempfile.mkdtemp` is the `tempDir` argument.
- Whether `shutil.rmtree` raises is the `removalFails` argument.

Each image pixel is held as the colour and alpha that `convert('RGBA')` would
show. Pixels produced by LANCZOS resampling are not modelled; such a raster
is `Filtered`. Sizes after `thumbnail` follow PIL's `round_aspect` rule,
computed with exact rationals.

An image may carry a colour key: `info['transparency']` holding one
transparent colour or palette index, as a PNG tRNS chunk or a GIF's
transparent index gives. `convert('RGB')` and `thumbnail` keep the key. The
flattening rule tests only the mode, so an L or RGB image with a key leaves
it still keyed and still transparent where the key matches. The normalisation
lemmas state this as an if-and-only-if: a staged image has no colour key and
every pixel opaque exactly when its source had no key that survives the rule;
a key that survives stays on the staged image.

`Service.GenerateQr` is the handler itself. Its contract ties three things
to reference functions: the response (`Outcome`), the arguments passed to
the composer (`CompositionFor`), and the file system afterwards. The file
system is unchanged when the removal succeeds. When the removal fails, the
directory is left holding `FinalFiles`. The level check runs before the
directory exists.

The code fetches the frame at index 50 before it checks the cap (main.py:154-155).
So an animation with more than 50 frames keeps exactly 50 only if seeking to
the 51st frame does not raise. If that seek raises, the whole reduction falls
back to the original upload. `Frames.ReducedGifFails` states this.

## Model

| member | source | states |
|---|---|---|
| Text.RFind | main.py:99 | the index of the last occurrence of the character, or -1; the character sits there and never occurs after it |
| Text.Lower | main.py:99 | lower-casing keeps the length (ASCII letters only are mapped) |
| Text.EndsWith | main.py:233 | defines `str.endswith`: the suffix is no longer than the string and ends it |
| Text.IsAlnum | main.py:232 | defines ASCII `str.isalnum`: a letter or a digit |
| Text.LowerSuffix | main.py:99 | lower-casing a suffix gives the same suffix of the lower-cased string |
| Paths.Extension | main.py:99 | the extension `splitext` gives is a suffix of the file name |
| Paths.ExtensionShape | main.py:99 | a non-empty extension begins at the name's last dot, holds no other dot and no '/', and something other than a dot precedes it in the last path component |
| Paths.ExtensionFromLastDot | main.py:99 | a last dot preceded by a non-dot character of the same component starts the extension |
| Paths.LeadingDotsOnly | main.py:99 | a name such as ".gif", made of leading dots and a dot-free tail, has no extension |
| Service.ValidLevel | main.py:71 | defines the level check: one of "L", "M", "Q", "H" |
| Service.FileExt | main.py:99 | defines the lower-cased `splitext` extension of the upload name |
| Service.RouteFor | main.py:100-105 | defines the three-way choice: outside the supported list converts, ".gif" reduces, the rest optimise |
| Naming.Allowed | main.py:232 | defines the characters `safe_name` keeps: ASCII letters, digits, '-' and '_' |
| Naming.IsGifUpload | main.py:233 | defines the GIF test of the output name: an upload exists and its lower-cased name ends in ".gif" |
| Naming.SafeName | main.py:232 | the name is min(len(words), 50) characters long |
| Naming.SafeNameChars | main.py:232 | every character of the name is alphanumeric, '-' or '_'; allowed characters stay in place and all others become '_' |
| Naming.SafeNameIdempotent | main.py:232 | sanitising a sanitised name changes nothing |
| Naming.SafeNameKeepsAllowed | main.py:232 | a text of at most 50 allowed characters is its own name |
| Naming.SafeNameDependsOnPrefix | main.py:232 | two texts with the same first 50 characters get the same name |
| Naming.SaveName | main.py:233-236 | the save name is the safe name plus a 4-character suffix; it ends in ".gif" exactly when an upload exists whose lower-cased name ends in ".gif", and in ".png" otherwise |
| Naming.MediaType | main.py:265 | the media type is "image/gif" exactly when the returned name ends in ".gif", case-sensitively, and "image/png" otherwise |
| Naming.MediaTypeOfSaveName | main.py:265 | for the name the handler asks for, the media type is GIF exactly for a GIF upload |
| Imaging.NeedsCompositing | main.py:110 | defines the modes pasted onto white: RGBA, LA and P (the same test as main.py:210) |
| Imaging.ConvertRgba | main.py:113-114 | defines `convert('RGBA')` of a palette image: mode RGBA, palette transparency in the alpha band, key consumed |
| Imaging.ConvertRgb | main.py:117-118 | `convert('RGB')` keeps the size, gives mode RGB, and keeps a colour key together with the pixels it makes transparent |
| Imaging.ConvertRgbWellFormed | main.py:160 | converting a well-formed frame to RGB gives a well-formed image, which has no colour key and every pixel opaque exactly when the frame had no key; a key stays on the result |
| Imaging.Div255 | main.py:115 | defines PIL's rounded division by 255 |
| Imaging.Blend | main.py:115 | defines one channel pasted over another through a mask value |
| Imaging.OverWhite | main.py:112-115 | defines a pixel pasted onto white through its own alpha |
| Imaging.PasteOnWhite | main.py:112-115 | defines the white canvas with the image pasted on it, through its alpha band or without a mask |
| Imaging.Flatten | main.py:110-118 | the result is RGB of the same size; it keeps a colour key exactly when the image has one and is not RGBA, LA or P; an RGB image is returned untouched; RGBA, LA and P images are pasted onto white through their alpha band, P after expansion to RGBA |
| Imaging.Div255Range | main.py:115 | rounded division by 255 of a product of two channels stays a channel value |
| Imaging.Div255Exact | main.py:115 | rounded division by 255 is exact on multiples of 255 |
| Imaging.BlendRange | main.py:115 | blending two channels through a mask value gives a channel value |
| Imaging.BlendEndpoints | main.py:115 | mask 0 shows the background, mask 255 shows the pasted colour |
| Imaging.OverWhiteEndpoints | main.py:112-115 | a pixel pasted onto white through its own alpha is opaque and in range; alpha 0 gives white, alpha 255 keeps its colour |
| Imaging.FlattenWellFormed | main.py:110-118 | flattening a well-formed image gives a well-formed RGB image, which has no colour key and every pixel opaque exactly when the image is not a keyed L or RGB image; the key of a keyed L or RGB image stays on the result |
| Imaging.FlattenPixel | main.py:110-116 | after flattening, each fully transparent pixel is white and each fully opaque pixel keeps its colour |
| Imaging.FlattenKeepsKey | main.py:110-118 | a keyed L or RGB image leaves the rule still keyed, with every pixel showing as before, transparent ones included |
| Imaging.FlattenIdempotent | main.py:110-118 | flattening twice is flattening once |
| Resize.NearestNeighbour | main.py:123 | PIL's rounding of the short edge of a portrait image picks the floor or the ceiling of the exact value |
| Resize.AspectNeighbour | main.py:123 | PIL's rounding of the short edge of a landscape image picks the floor or the ceiling of the exact value |
| Resize.ThumbnailSize | main.py:123 | defines PIL's thumbnail size rule for an m×m box: untouched when it fits, else the longer edge becomes m and the other is rounded |
| Resize.Thumbnail | main.py:123 | `thumbnail` keeps the mode and the colour key and gives the size computed by the thumbnail rule |
| Resize.BoundEdges | main.py:121-123 | the 600-pixel guard keeps the mode and the colour key |
| Resize.NeighbourBounds | main.py:123 | either rounding, floored at 1, is within one step of the exact edge and no larger than the box |
| Resize.PortraitBounds | main.py:123 | a portrait image that does not fit gets height m and a width between 1 and m, no larger than before, within one pixel of the exact ratio |
| Resize.LandscapeBounds | main.py:123 | a landscape image that does not fit gets width m and a height between 1 and m, no larger than before, within one pixel of the exact ratio |
| Resize.ThumbnailSizeBounds | main.py:123 | both edges end within the box, the longer equals it, no edge grows, and the aspect ratio is kept up to rounding |
| Resize.BoundEdgesSpec | main.py:121-123 | an image within 600×600 is returned exactly; any other ends within 600×600 with its longer edge 600, no edge grown, aspect kept up to rounding, mode unchanged |
| Resize.BoundEdgesWellFormed | main.py:121-123 | bounding keeps an image well-formed, and keeps an image without a colour key and with every pixel opaque so (for a resampled image only because a `Filtered` raster counts as opaque) |
| Frames.DurationOf | main.py:169-173 | defines a frame's duration: the declared one, else 100 ms |
| Frames.NormalizeFrame | main.py:159-164 | defines one frame's treatment: `convert('RGB')`, then the 600-pixel bound |
| Frames.ReducedGif | main.py:144-195 | defines the reduction: fails when the loop raises or ends empty, else the first min(n, 50) frames normalised, their durations, loop 0 |
| Frames.Reducible | main.py:154-179 | defines when the frame loop and the save do not raise: at least one frame, every kept frame loads, and fetching frame 50 does not raise |
| Frames.ReduceFrames | main.py:144-186 | the frame loop returns exactly the reference reduction `ReducedGif` of the source |
| Frames.ReducedGifShape | main.py:151-186 | a reduction holds min(n, 50) frames, the first ones in source order and each converted and bounded; it has one duration per frame (the declared one, else 100) and loop 0 |
| Frames.ReducedFramesNormalized | main.py:159-166 | every kept frame is a well-formed RGB image within 600×600 and no larger than its source; it has no colour key and every pixel opaque exactly when its source frame had no key, and otherwise keeps the key |
| Frames.ReducedGifFails | main.py:154-195 | the reduction fails exactly when there are no frames, a kept frame cannot be loaded, or fetching frame 50 raises |
| Frames.ReducedGifIgnoresTail | main.py:154-157 | frames after the 51st play no part |
| Frames.ThreeSmallFrames | appwrite_test_suite.py:139-151 | three 200×200 frames of 200 ms pass through unresized, in order, with their durations |
| Workspace.FileSystem.MakeTempDir | main.py:75 | a fresh, empty directory is added and nothing else changes |
| Workspace.FileSystem.WriteFile | main.py:91-93 | the named file of the directory gets the content and nothing else changes |
| Workspace.FileSystem.Exists | main.py:253-255 | defines `os.path.exists` of a file in a directory: the directory holds that name |
| Workspace.FileSystem.ReadFile | main.py:261-262 | reading returns the stored content |
| Workspace.FileSystem.RemoveTree | main.py:286 | the directory is removed, or everything stays as it was when removal fails |
| Service.Message | main.py:72 | defines the detail texts: the level message (line 72), "File too large. Maximum size is 10.0MB" (line 87), the unsupported-format message (line 135), "QR code generation failed" (line 256), "QR code generation error: " and the text (line 280) |
| Service.FirstImage | main.py:108 | defines `Image.open` with its first frame loaded (main.py:200 in the static branch): none when the bytes are not an image or the frame fails |
| Service.ConvertedPng | main.py:107-129 | defines the unsupported-format branch's image: the first image flattened, then bounded; none when it raises |
| Service.OptimizedStatic | main.py:199-222 | defines the static branch's image: the first image bounded, then flattened; none when it raises |
| Service.ReducedUpload | main.py:143-188 | defines the GIF branch's animation: the frame reduction of the decoded frames; none when `Image.open` or the loop raises |
| Service.Composed | main.py:241-251 | defines the directory after `amzqr.run`: the file it wrote added under the name it returned |
| Service.Attempt | main.py:79-274 | defines the `try` body's result: the staging error, or the composer call and read-back on the staged files |
| Service.Respond | main.py:276-280 | defines the response the `except` clauses make of the `try` body's result |
| Service.FinalFiles | main.py:281-286 | defines the directory's files when the `finally` cleanup runs |
| Service.Dispatch | main.py:99-229 | defines the workspace after the three branches, and the picture handed on or the 400 |
| Service.Stage | main.py:81-229 | defines the upload step: no upload stages nothing; an upload over 10 MiB is refused and nothing written; otherwise the bytes are written and dispatched |
| Service.Delivered | main.py:241-274 | defines the composer call and read-back: the composer's exception, the streamed file with its name's media type, or a 500 when the output is missing |
| Service.Outcome | main.py:70-280 | defines the handler's response: 400 for a bad level, else the `try` body's result mapped by the `except` clauses |
| Service.CompositionFor | main.py:232-251 | defines the composer's arguments: the request's fields, the staged picture, the save name and the directory; none when staging was refused |
| Service.ToResponse | main.py:276-280 | an HTTPException keeps its status and detail; any other exception becomes a 500 with "QR code generation error: " and its text |
| Service.StagePicture | main.py:81-93 | the upload step leaves the directory holding the staged files of `Stage` and returns its picture or its error |
| Service.DispatchUpload | main.py:99-105 | the lower-cased extension selects the branch, and the result is that of the reference `Dispatch` |
| Service.ConvertUpload | main.py:105-136 | the unsupported-format branch writes the flattened, bounded PNG, or fails with 400 naming the extension |
| Service.ReduceUpload | main.py:137-195 | the GIF branch writes the reduced animation, or falls back to the original upload |
| Service.OptimizeUpload | main.py:196-229 | the static branch writes the bounded, flattened image under "optimized" plus the extension, or falls back to the original upload |
| Service.RunComposer | main.py:241-251 | the composer's exception, or the name it returned, together with the file it wrote |
| Service.ComposeAndLoad | main.py:241-262 | composer, existence check and read agree with `Delivered`: a missing output gives a 500 "QR code generation failed" |
| Service.Attempted | main.py:79-274 | the `try` body agrees with `Attempt`, passes the composer the arguments of `CompositionFor`, and leaves the directory holding `FinalFiles` |
| Service.CleanUp | main.py:281-289 | the directory is removed when it exists, and a failed removal changes nothing |
| Service.InWorkspace | main.py:75-289 | inside a fresh directory the response is the `try` body's outcome mapped by the `except` clauses, and the file system is restored unless removal fails |
| Service.GenerateQr | main.py:44-289 | the response is `Outcome`; an invalid level touches nothing and never reaches the composer; a failed removal changes neither the response nor anything but the leftover directory |
| ServiceFacts.LevelCheckedFirst | main.py:70-75 | a level outside L, M, Q, H gives 400 "Level must be one of: L, M, Q, H" whatever the upload |
| ServiceFacts.BadRequestCases | main.py:84-136 | with a valid level the answer is 400 exactly when the upload is too large or falls to the unsupported-format branch and cannot be converted, with the matching detail |
| ServiceFacts.ServerErrorCases | main.py:253-280 | with an accepted upload the answer is 500 exactly when the composer raises or its output is missing, with the matching detail |
| ServiceFacts.StreamedOutput | main.py:253-274 | a success streams the composer's file under its name, with the media type of that name; for the requested name that is GIF exactly for a GIF upload |
| ServiceFacts.SizeLimitInclusive | main.py:84-93 | an upload of at most 10 MiB (10·1024·1024 bytes, main.py:22) is written to the directory and never refused as too large |
| ServiceFacts.OversizeNeverDecoded | main.py:83-88 | a larger upload is refused before it is written or decoded |
| ServiceFacts.RejectedBeforeComposing | main.py:84-136 | a refused upload never reaches the composer; a too-large one leaves no file |
| ServiceFacts.SupportedFallsBack | main.py:137-229 | JPEG, PNG, BMP and GIF uploads are never refused; when their branch fails the original bytes are handed on |
| ServiceFacts.StagedPictureExists | main.py:81-229 | the picture handed to the composer is a file of the directory, and there is one exactly when there was an upload |
| ServiceFacts.ConvertedPngNormalized | main.py:107-129 | the converted PNG is a well-formed RGB image within 600×600; it has no colour key and every pixel opaque exactly when the upload is not a keyed L or RGB image, and otherwise keeps the key |
| ServiceFacts.OptimizedStaticNormalized | main.py:199-222 | the optimised still image is a well-formed RGB image within 600×600; it has no colour key and every pixel opaque exactly when the upload is not a keyed L or RGB image, and otherwise keeps the key |
| ServiceFacts.ReducedUploadNormalized | main.py:143-188 | the reduced animation has 1 to 50 such frames, one duration each, and loop 0; a frame has no colour key and every pixel opaque exactly when its source frame had no key, and otherwise keeps the key |
| ServiceFacts.StagedFilesNormalized | main.py:81-229 | every staged file is the upload's bytes or an image the handler normalised; a staged still image has no colour key and every pixel opaque exactly when the upload is not a keyed L or RGB image, and otherwise keeps the key |
| ServiceFacts.GifRouteNamesGif | main.py:99-236 | an upload routed to the GIF branch also gets a ".gif" output name |
| ServiceFacts.DotGifDisagreement | main.py:99-236 | a file named ".gif" has no `splitext` extension, so it is converted to a still PNG, yet its output name ends in ".gif" |
| ServiceFacts.NoPictureRequest | main.py:231-274 | without an upload the composer gets no picture and the requested ".png" name, and its file is streamed as "image/png" |
| ServiceFacts.OversizeRequest | main.py:83-88 | one byte over 10 MiB gives 400 "File too large. Maximum size is 10.0MB", leaves no file and never calls the composer |
| ServiceFacts.BackgroundPngExtension | main.py:99-105 | "background.png" has extension ".png" and takes the static branch |
| ServiceFacts.SmallPngRequest | appwrite_test_suite.py:82-97 | a 300×300 RGB "background.png", with or without a colour key, is staged as "optimized.png" holding the same image, beside the original bytes |

## Left out

- The QR encoding and artistic composition inside `amzqr.run` (main.py:241-251) are left out: it is a foreign library. The `Composer` argument stands in for it, and the version and level it returns are ignored, as in the code.
- PIL decoding is left out; the `Decoding` argument stands in for it.
- LANCZOS pixel values are left out (`Filtered`).
- The `optimize` and `quality=75` save options are left out, and so is GIF palette quantisation on save: these are foreign calls.
- Resize.ThumbnailSize: PIL compares its rounding keys in floating point; the model compares them exactly and takes the floor on an exact tie. Exact half-pixel ties are common, and PIL's float keys often pick the ceiling there. For 828×960, PIL gives 518×600 and the model 517×600. For 610×31, PIL gives 600×31 and the model 600×30. `NeighbourBounds` is proved for either choice, so the bounds it gives (within the box, within one pixel of the exact edge) cover PIL's choice as well.
- Text.Lower and Text.IsAlnum cover ASCII only; Python's Unicode case mapping and `isalnum` are not modelled.
- Workspace.FileSystem: an upload name is treated as a plain name inside the directory. `os.path.join` with an absolute name, `..` or a sub-directory is not modelled, nor is a composer that returns an absolute path.
- Service.StagePicture: the upload names "", "." and ".." name the directory itself (or its parent), so the source's `open(..., "wb")` at main.py:91-92 raises and the handler answers 500 through main.py:278-280. The model instead writes a file under that name and dispatches it as an upload with no extension. It converts it to PNG and calls the composer, or answers 400 `Unsupported("")` when decoding fails.
- What each image writer does with a colour key is not modelled: PNG writes it back as tRNS, JPEG and BMP drop it, and GIF maps it to a transparent index. A staged image is the image passed to `save`.
- A colour key on modes other than L, RGB and P is not modelled. Nor is the case where a palette frame's key colour, after `convert('RGB')`, also matches an opaque pixel of another palette index, which PIL then shows transparent too.
- Pillow's GIF writer merges a frame identical to the one before it and adds their durations, so the written file can hold fewer frames than the `Animation` passed to `save`.
- Workspace.FileSystem.RemoveTree: `rmtree` either removes the whole directory or nothing; a removal that fails halfway is not modelled.
- I/O failures are not modelled: reading the upload, writing a file, a full disk.
- Logging, the CORS setup, the `/health` endpoint (main.py:17-42) and the `Content-Disposition` header are framework glue. `StreamingResponse` is modelled only as body, media type and file name.
- Service.GenerateQr takes the ranges of `version`, `contrast` and `brightness` as preconditions, because the web framework enforces them (main.py:47-52). The contrast and brightness values pass through to the composer untouched.
- Only the exceptions named in the code are modelled; the exact text of an arbitrary exception (`str(e)`) is the composer's `Raises` text.
- Frame durations are whole milliseconds; a non-integer `duration` entry in a frame's info is not modelled.
- The Appwrite adapter `main(context)` (main.py:295-418) and appwrite_main.py are adapter plumbing. The module appwrite_main.py delegates to is not part of this model.
- The HTTP client in appwrite_test_suite.py runs against a live deployment and is left out. Two of its fixtures appear as lemmas (`SmallPngRequest`, `ThreeSmallFrames`).
- The handler is `async`; concurrent requests are not modelled (each request has its own directory).
