# WebP auto-quality optimizer, modelled in Dafny

`auto_quality_optimizer-webp.py` converts every PNG/JPEG file of a folder to
WebP. For each image it binary-searches the integer quality range
[MIN_QUALITY, MAX_QUALITY] = [40, 95] for the lowest quality whose trial encode
with `cwebp` still has an SSIM of at least TARGET_SSIM = 0.98 against the
source. It then encodes the image once more at that quality, and it adds up
how many images it converted and how many bytes it saved.

This project models that core and proves its properties:

- `wrappers.dfy` (`Wrappers`): the `Option` and `Result` datatypes.
- `quality_search.dfy` (`QualitySearch`): the search.
  - The encoder and SSIM are one oracle per image, `trial: int -> Trial`.
  - A trial either fails in the encoder (`EncoderFailed`), or encodes and is evaluated.
  - An evaluation is a measured score or `EvaluationFailed`.
  - `CalculateSsim` maps `EvaluationFailed` to 0, as `calculate_ssim` does when it catches an exception.
  - Scores sit on an integer scale of 1/10000, so the target 0.98 is 9800.
  - `SearchRun` is the loop as a function. It returns the result and the list of probed qualities.
  - `SearchLoop` is the loop itself, as a method with invariants; it keeps the probed qualities as a ghost record.
  - `FindBestQuality` starts the loop at the source's initial values and states what the search guarantees.
- `file_names.dfy` (`FileNames`): the extension filter and the output name.
  - The filter is `IsImageFile`.
  - `SplitExt` follows `os.path.splitext`, including the rule that leading dots do not start an extension. So `.png` keeps its whole name as root and becomes `.png.webp`.
- `batch.dfy` (`Batch`): the batch loop over a directory listing.
  - `OptimizeListing` is the loop as a function.
  - `AutoOptimizeImages` is the method that keeps `image_count` and `total_savings`.
  - Every trial encode writes the scratch file `temp.webp` in the output folder, which is deleted after the final encode. An image whose output name is also `temp.webp` (such as `temp.png`) has its output deleted by that cleanup, and reading the output's size then raises, which ends the batch. The model gives the `OutputRemoved` error for it. Names are compared as on a case-sensitive file system (see "## Left out").

The settings are a `Config` value (`DefaultConfig` = target 0.98 on the 1/10000
scale, that is 9800, and range 40..95, the source's constants), so the lemmas
hold for any range with floor ≤ ceiling.

Two consequences of the code are worth stating:

- A failing `cwebp` run (`check=True`) raises an exception that is not caught per image. It ends the whole batch, not just the current image, so every encoder failure here gives `Err` for the batch.
- A search over n qualities makes at most ⌊log2 n⌋ + 1 trial encodes, which is 6 for 40..95.

## Model

| member | source | states |
|---|---|---|
| `QualitySearch.CalculateSsim` | auto_quality_optimizer-webp.py:45-47 | definition: the measured score, or 0 when the evaluation fails; properties in UnreadableImageFallsBack |
| `QualitySearch.Search` | auto_quality_optimizer-webp.py:75-77 | definition: SearchRun started with low and best_quality at the floor and ceiling as the source does; properties in SearchFacts and FindBestQuality |
| `QualitySearch.SearchRun` | auto_quality_optimizer-webp.py:79-97 | every probed quality lies in [low, high]; an encoder failure ends the search with an error naming a quality in [low, high] whose trial failed |
| `QualitySearch.SearchLoop` | auto_quality_optimizer-webp.py:79-97 | from any starting low, high and best_quality, the while loop returns the search function's result and makes exactly its probes, in order |
| `QualitySearch.FindBestQuality` | auto_quality_optimizer-webp.py:74-97 | the method computes the search's result and records exactly its probes, each in [MIN_QUALITY, MAX_QUALITY] and at most ⌊log2 n⌋ + 1 of them; the best quality lies in [MIN_QUALITY, MAX_QUALITY]; if it is not MAX_QUALITY it passed the threshold; an error names a failing quality in range; it succeeds when no encode fails and gives MAX_QUALITY when, in addition, nothing passes; under a monotone oracle it is the least passing quality |
| `QualitySearch.SearchFacts` | auto_quality_optimizer-webp.py:75-97 | the same guarantees as FindBestQuality, stated for the search function so that other lemmas can use them |
| `QualitySearch.SearchResult` | auto_quality_optimizer-webp.py:91-97 | if no probe passed, the result is the initial best_quality; otherwise it is a probed, passing quality no larger than any other passing probe |
| `QualitySearch.ProbesBracket` | auto_quality_optimizer-webp.py:91-97 | after a passing probe all later probes are lower, after a failing one all are higher; so no quality is probed twice and best_quality strictly decreases each time it is reassigned |
| `QualitySearch.SearchFindsLeast` | auto_quality_optimizer-webp.py:79-97 | with a monotone oracle the result is the smallest passing quality of the range, or the ceiling when nothing passes |
| `QualitySearch.Fallback` | auto_quality_optimizer-webp.py:77-97 | when no quality in range fails to encode or passes, the result is the initial best_quality |
| `QualitySearch.UnreadableImageFallsBack` | auto_quality_optimizer-webp.py:45-47 | when every evaluation fails, calculate_ssim's 0 is below a positive target and the search returns MAX_QUALITY |
| `QualitySearch.ProbeCount` | auto_quality_optimizer-webp.py:79-97 | a search over n qualities probes at most ⌊log2 n⌋ + 1 times, so the loop terminates |
| `QualitySearch.DefaultProbeCount` | auto_quality_optimizer-webp.py:19-20 | with the range 40..95 each image gets at most 6 trial encodes |
| `QualitySearch.ThresholdAtSixty` | auto_quality_optimizer-webp.py:79-97 | with the source's settings and an SSIM that jumps from 0.97 to 0.99 at quality 60, the search returns 60 |
| `FileNames.IsImageFile` | auto_quality_optimizer-webp.py:64 | definition of the filter; properties in ImageFileHasExtension, ExtensionMakesImageFile and IsImageFileIgnoresCase |
| `FileNames.OutputName` | auto_quality_optimizer-webp.py:68-69 | definition: the splitext root with ".webp" appended; properties in OutputNameReplacesExtension, OutputNameWithoutExtension and OutputNameNotImage |
| `FileNames.LastDot` | auto_quality_optimizer-webp.py:68 | the index of the last '.' of the name, or -1 when there is none |
| `FileNames.SplitExt` | auto_quality_optimizer-webp.py:68 | root + extension is the name; the extension is empty or one dotted part after a root that is not all dots; it is empty only when no dot has a non-dot before it |
| `FileNames.SplitExtOf` | auto_quality_optimizer-webp.py:68 | a root that is not all dots followed by one dotted extension splits into exactly that root and that extension |
| `FileNames.OutputNameReplacesExtension` | auto_quality_optimizer-webp.py:68-69 | the output name is the input name with its final extension replaced by ".webp" |
| `FileNames.OutputNameWithoutExtension` | auto_quality_optimizer-webp.py:68-69 | a name with no extension, or only leading dots, gets ".webp" appended to the whole name |
| `FileNames.IsImageFileIgnoresCase` | auto_quality_optimizer-webp.py:64 | the filter gives the same answer for a name and its lower-cased form |
| `FileNames.ImageFileHasExtension` | auto_quality_optimizer-webp.py:63-65 | a file that is processed has .png, .jpg or .jpeg, in some letter case, as a suffix of its name |
| `FileNames.ExtensionMakesImageFile` | auto_quality_optimizer-webp.py:63-65 | a file whose name has .png, .jpg or .jpeg, in any letter case, as a suffix is processed |
| `FileNames.OutputNameNotImage` | auto_quality_optimizer-webp.py:64-69 | no output name passes the extension filter |
| `Batch.OptimizeImage` | auto_quality_optimizer-webp.py:67-113 | definition of one iteration: a trial encode failure, then a final encode failure, then the scratch-name collision, in that order, each end with its error; otherwise the record of the optimized image; properties in OptimizedMatchesImageFiles and BatchSucceeds |
| `Batch.OptimizeListing` | auto_quality_optimizer-webp.py:63-113 | definition of the for loop as a function of the listing: skipped files add nothing, the first error is the result; properties in FailureStopsBatch, OptimizedMatchesImageFiles, BatchSucceeds and AutoOptimizeImages |
| `Batch.FailureStopsBatch` | auto_quality_optimizer-webp.py:84 | a cwebp failure on a prefix of the listing is the failure of the whole batch |
| `Batch.OptimizedMatchesImageFiles` | auto_quality_optimizer-webp.py:63-113 | a successful batch converts exactly the files the filter accepts, in order; each keeps its name and size, gets OutputName as its output (never the scratch name), the quality the search found for that file (so one in range), and the final encode's size at that quality as its optimized size |
| `Batch.BatchSucceeds` | auto_quality_optimizer-webp.py:63-113 | if every file the filter accepts has a search without encoder failure, a successful final encode at the quality found, and an output name other than the scratch file's, the batch succeeds; skipped files and unprobed qualities impose nothing |
| `Batch.BatchSucceedsWhenAllEncode` | auto_quality_optimizer-webp.py:63-113 | the batch succeeds when every accepted file encodes at every quality of the range, both in the search and in the final encode, and none has the scratch output name |
| `Batch.ScratchNameStopsBatch` | auto_quality_optimizer-webp.py:68-70 | a listing holding temp.png never succeeds: its output name is temp.webp, the scratch file that the cleanup at lines 106-107 deletes before its size is read at line 110 |
| `Batch.AutoOptimizeImages` | auto_quality_optimizer-webp.py:49-113 | a missing cwebp stops the run; otherwise the result is the batch function's, including its errors for a cwebp failure and for an output deleted as the scratch file; image_count is the number of accepted files and total_savings is the sum of original minus optimized size over them |

## Left out

- Running `cwebp`, and its flags (`-q`, `-m 6`, `-mt`, `-sharp_yuv`): each encode is an oracle. Trial encodes are the per-image `trial` oracle; the final encode is `finalEncode`, which gives the output size or a failure.
- The SSIM computation (PIL loading, grayscale, Lanczos resize, numpy, skimage): floating-point library code, replaced by the measured score in the oracle.
- Floats: SSIM and TARGET_SSIM are integers on a 1/10000 scale, so scores finer than that are not distinguished.
- The file system: `shutil.which` becomes the `cwebpInstalled` flag, `os.listdir` the given listing, and `os.path.getsize` the given sizes. The model does not capture `os.makedirs`, the contents of the shared `temp.webp` scratch file (only its name, for the collision above), path joining, or listing order (it takes the listing in the order given).
- All console output, the KiB and percentage formatting, and the choice between the summary and the "no images" message (lines 115-128).
- `str.lower` is modelled for the ASCII letters A-Z only; Unicode case mapping is not captured.
- Batch.OptimizeImage, Batch.BatchSucceeds: the output name is compared with `temp.webp` as on a case-sensitive file system. On a case-insensitive one (Windows, macOS by default) `Temp.PNG` or `TEMP.jpg` also yields the scratch file, whose cleanup deletes the output, so such a batch ends with an error there while the model returns success.
- File names are assumed to hold no path separator, as `os.listdir` entries do, so `SplitExt` does not model the separator rule of `os.path.splitext`.
