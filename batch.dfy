/**
 * The batch loop of auto_optimize_images: every listed file that passes the
 * extension filter gets a quality search, a final encode at the best
 * quality found, and its byte savings added to the running totals.
 *
 * The file system and the encoder are parameters: the listing gives each
 * file's name and size, `trials(name)` is the per-image search oracle and
 * `finalEncode(name)(q)` the size of the final encode at quality q, or None
 * when cwebp fails.  Any cwebp failure raises in the source and ends the
 * whole batch, so here it ends it with an Err.  So does an image whose
 * output name is the scratch file's: the scratch cleanup deletes its output
 * and reading the output's size raises.
 */
module Batch {
  import opened Wrappers
  import opened QualitySearch
  import opened FileNames

  /** One entry of the source folder: its name and its size in bytes. */
  datatype SourceFile = SourceFile(name: string, size: nat)

  /** Why the batch stopped. */
  datatype Failure =
    | CwebpMissing                                   // cwebp is not on the PATH
    | TrialEncodeFailed(file: string, quality: int)  // a search encode exited with an error
    | FinalEncodeFailed(file: string, quality: int)  // the final encode exited with an error
    | OutputRemoved(file: string)                    // the output was the scratch file and got deleted

  /** The name of the scratch file every trial encode writes (temp.webp in the output folder). */
  const ScratchName: string := "temp.webp"

  /** One optimized image: where it came from, where it went, at what quality, and the two sizes. */
  datatype Optimized = Optimized(source: string, output: string, quality: int,
                                 originalSize: nat, optimizedSize: nat)

  /** The totals the batch reports: image_count and total_savings. */
  datatype Summary = Summary(imageCount: nat, totalSavings: int)

  function Savings(o: Optimized): int
  {
    o.originalSize - o.optimizedSize
  }

  /** The sum of original_size - optimized_size over the optimized images. */
  function TotalSavings(done: seq<Optimized>): int
  {
    if done == [] then 0 else TotalSavings(done[..|done| - 1]) + Savings(done[|done| - 1])
  }

  /** The files of the listing that the extension filter lets through, in listing order. */
  function ImageFiles(listing: seq<SourceFile>): seq<SourceFile>
  {
    if listing == [] then []
    else
      var last := listing[|listing| - 1];
      ImageFiles(listing[..|listing| - 1]) + (if IsImageFile(last.name) then [last] else [])
  }

  /**
   * Search, final encode and sizes for one image.  When the output name is
   * the scratch file's, the cleanup of the scratch file deletes the output
   * just written and reading its size raises, which ends the batch.
   */
  function OptimizeImage(file: SourceFile, cfg: Config, trials: string -> int -> Trial,
                         finalEncode: string -> int -> Option<nat>): Result<Optimized, Failure>
  {
    match Search(trials(file.name), cfg).result
    case Err(q) => Err(TrialEncodeFailed(file.name, q))
    case Ok(best) =>
      match finalEncode(file.name)(best)
      case None => Err(FinalEncodeFailed(file.name, best))
      case Some(size) =>
        if OutputName(file.name) == ScratchName then Err(OutputRemoved(file.name))
        else Ok(Optimized(file.name, OutputName(file.name), best, file.size, size))
  }

  /**
   * The images optimized from a listing, in order, or the first failure:
   * the batch loop as a function of the listing.
   */
  function OptimizeListing(listing: seq<SourceFile>, cfg: Config, trials: string -> int -> Trial,
                           finalEncode: string -> int -> Option<nat>): Result<seq<Optimized>, Failure>
  {
    if listing == [] then Ok([])
    else
      var last := listing[|listing| - 1];
      match OptimizeListing(listing[..|listing| - 1], cfg, trials, finalEncode)
      case Err(e) => Err(e)
      case Ok(done) =>
        if !IsImageFile(last.name) then Ok(done)
        else
          match OptimizeImage(last, cfg, trials, finalEncode)
          case Err(e) => Err(e)
          case Ok(o) => Ok(done + [o])
  }

  /** A failure on some prefix of the listing is the failure of the whole batch. */
  lemma {:induction false} FailureStopsBatch(listing: seq<SourceFile>, i: nat, cfg: Config,
                                             trials: string -> int -> Trial,
                                             finalEncode: string -> int -> Option<nat>)
    requires i <= |listing|
    requires OptimizeListing(listing[..i], cfg, trials, finalEncode).Err?
    ensures OptimizeListing(listing, cfg, trials, finalEncode)
         == OptimizeListing(listing[..i], cfg, trials, finalEncode)
    decreases |listing| - i
  {
    if i < |listing| {
      assert listing[..i + 1][..i] == listing[..i];
      FailureStopsBatch(listing, i + 1, cfg, trials, finalEncode);
    } else {
      assert listing[..i] == listing;
    }
  }

  /**
   * When the batch succeeds it produced one image per file the filter
   * accepted, in order: same name, an output name from OutputName that is
   * not the scratch file's, the quality the search found for that file
   * (hence in the search range), the file's own size as the original size
   * and the final encode's size at that quality as the optimized size.
   */
  lemma {:induction false} OptimizedMatchesImageFiles(listing: seq<SourceFile>, cfg: Config,
                                                      trials: string -> int -> Trial,
                                                      finalEncode: string -> int -> Option<nat>)
    requires cfg.minQuality <= cfg.maxQuality
    requires OptimizeListing(listing, cfg, trials, finalEncode).Ok?
    ensures var done := OptimizeListing(listing, cfg, trials, finalEncode).value;
      var images := ImageFiles(listing);
      && |done| == |images|
      && forall k :: 0 <= k < |done| ==>
           && done[k].source == images[k].name
           && done[k].output == OutputName(images[k].name)
           && done[k].output != ScratchName
           && Search(trials(images[k].name), cfg).result == Ok(done[k].quality)
           && cfg.minQuality <= done[k].quality <= cfg.maxQuality
           && done[k].originalSize == images[k].size
           && finalEncode(images[k].name)(done[k].quality) == Some(done[k].optimizedSize)
  {
    if listing != [] {
      var init := listing[..|listing| - 1];
      var last := listing[|listing| - 1];
      OptimizedMatchesImageFiles(init, cfg, trials, finalEncode);
      if IsImageFile(last.name) {
        SearchFacts(trials(last.name), cfg);
      }
    }
  }

  /**
   * The batch succeeds exactly as far as the source needs: every file the
   * filter accepts has a search that meets no encoder failure, a final
   * encode that succeeds at the quality found, and an output name other
   * than the scratch file's.  Skipped files are never encoded, and
   * qualities the search does not probe do not matter.
   */
  lemma {:induction false} BatchSucceeds(listing: seq<SourceFile>, cfg: Config,
                                         trials: string -> int -> Trial,
                                         finalEncode: string -> int -> Option<nat>)
    requires forall f :: f in listing && IsImageFile(f.name) ==>
               && Search(trials(f.name), cfg).result.Ok?
               && finalEncode(f.name)(Search(trials(f.name), cfg).result.value).Some?
               && OutputName(f.name) != ScratchName
    ensures OptimizeListing(listing, cfg, trials, finalEncode).Ok?
  {
    if listing != [] {
      var init := listing[..|listing| - 1];
      assert forall f :: f in init ==> f in listing;
      BatchSucceeds(init, cfg, trials, finalEncode);
    }
  }

  /**
   * In particular the batch succeeds when every accepted file encodes at
   * every quality of the range, its final encode succeeds at every quality
   * of the range, and its output name is not the scratch file's.
   */
  lemma BatchSucceedsWhenAllEncode(listing: seq<SourceFile>, cfg: Config,
                                   trials: string -> int -> Trial,
                                   finalEncode: string -> int -> Option<nat>)
    requires cfg.minQuality <= cfg.maxQuality
    requires forall f :: f in listing && IsImageFile(f.name) ==>
               EncodesAll(trials(f.name), cfg.minQuality, cfg.maxQuality)
    requires forall f, q :: f in listing && IsImageFile(f.name) && cfg.minQuality <= q <= cfg.maxQuality ==>
               finalEncode(f.name)(q).Some?
    requires forall f :: f in listing && IsImageFile(f.name) ==> OutputName(f.name) != ScratchName
    ensures OptimizeListing(listing, cfg, trials, finalEncode).Ok?
  {
    forall f | f in listing && IsImageFile(f.name)
      ensures Search(trials(f.name), cfg).result.Ok?
      ensures finalEncode(f.name)(Search(trials(f.name), cfg).result.value).Some?
    {
      SearchFacts(trials(f.name), cfg);
    }
    BatchSucceeds(listing, cfg, trials, finalEncode);
  }

  /**
   * An image named temp.png is converted to temp.webp, the scratch file's
   * name, so no listing holding it succeeds, whatever the encoder does.
   */
  lemma {:induction false} ScratchNameStopsBatch(listing: seq<SourceFile>, i: nat, cfg: Config,
                                                 trials: string -> int -> Trial,
                                                 finalEncode: string -> int -> Option<nat>)
    requires i < |listing| && listing[i].name == "temp.png"
    ensures OptimizeListing(listing, cfg, trials, finalEncode).Err?
  {
    assert "temp"[0] == 't';
    OutputNameReplacesExtension("temp", ".png");
    assert "temp" + ".png" == "temp.png";
    assert "temp.png"[4..] == ".png";
    assert Lower(".png") == ".png";
    ExtensionMakesImageFile("temp.png", 4);
    var prefix := listing[..i + 1];
    assert prefix[..i] == listing[..i];
    assert prefix[i] == listing[i];
    assert OptimizeListing(prefix, cfg, trials, finalEncode).Err?;
    FailureStopsBatch(listing, i + 1, cfg, trials, finalEncode);
  }

  /**
   * auto_optimize_images: stop at once when cwebp is missing; otherwise
   * skip the files the filter rejects, and for each other file run the
   * search, the final encode and add its savings to total_savings and one
   * to image_count.  The first cwebp failure, or an output that the
   * scratch-file cleanup deletes, ends the batch.
   */
  method AutoOptimizeImages(cwebpInstalled: bool, listing: seq<SourceFile>, cfg: Config,
                            trials: string -> int -> Trial,
                            finalEncode: string -> int -> Option<nat>)
    returns (r: Result<Summary, Failure>)
    requires cfg.minQuality <= cfg.maxQuality
    ensures !cwebpInstalled ==> r == Err(CwebpMissing)
    ensures cwebpInstalled ==>
              var batch := OptimizeListing(listing, cfg, trials, finalEncode);
              && (r.Ok? <==> batch.Ok?)
              && (r.Err? ==> r.error == batch.error)
              && (r.Ok? ==> r.value == Summary(|batch.value|, TotalSavings(batch.value)))
    ensures r.Ok? ==> r.value.imageCount == |ImageFiles(listing)|
  {
    if !cwebpInstalled {
      return Err(CwebpMissing);
    }
    var totalSavings := 0;
    var imageCount := 0;
    ghost var done: seq<Optimized> := [];
    for i := 0 to |listing|
      invariant OptimizeListing(listing[..i], cfg, trials, finalEncode) == Ok(done)
      invariant imageCount == |done| && totalSavings == TotalSavings(done)
    {
      var file := listing[i];
      assert listing[..i + 1][..i] == listing[..i];
      if !IsImageFile(file.name) {
        continue;
      }
      var search;
      ghost var probed;
      search, probed := FindBestQuality(trials(file.name), cfg);
      if search.Err? {
        r := Err(TrialEncodeFailed(file.name, search.error));
        FailureStopsBatch(listing, i + 1, cfg, trials, finalEncode);
        return;
      }
      var bestQuality := search.value;
      var finalSize := finalEncode(file.name)(bestQuality);
      if finalSize.None? {
        r := Err(FinalEncodeFailed(file.name, bestQuality));
        FailureStopsBatch(listing, i + 1, cfg, trials, finalEncode);
        return;
      }
      var outputName := OutputName(file.name);
      if outputName == ScratchName {
        r := Err(OutputRemoved(file.name));
        FailureStopsBatch(listing, i + 1, cfg, trials, finalEncode);
        return;
      }
      var savings := file.size - finalSize.value;
      totalSavings := totalSavings + savings;
      imageCount := imageCount + 1;
      ghost var before := done;
      done := done + [Optimized(file.name, outputName, bestQuality, file.size, finalSize.value)];
      assert done[..|done| - 1] == before;
    }
    assert listing[..|listing|] == listing;
    OptimizedMatchesImageFiles(listing, cfg, trials, finalEncode);
    r := Ok(Summary(imageCount, totalSavings));
  }
}
