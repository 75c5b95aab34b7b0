/**
 * The two pure helpers of the batch loop in auto_quality_optimizer-webp.py:
 * the extension filter (`filename.lower().endswith(('.png', '.jpg',
 * '.jpeg'))`) and the output name (`os.path.splitext(filename)[0]` followed
 * by ".webp").  File names come from a directory listing, so they hold no
 * path separator.
 */
module FileNames {

  /** str.lower on one character, for the ASCII letters. */
  function LowerChar(c: char): char
  {
    if 'A' <= c <= 'Z' then (c as int - 'A' as int + 'a' as int) as char else c
  }

  function Lower(s: string): string
  {
    seq(|s|, i requires 0 <= i < |s| => LowerChar(s[i]))
  }

  predicate EndsWith(s: string, suffix: string)
  {
    |suffix| <= |s| && s[|s| - |suffix|..] == suffix
  }

  /** The extensions the batch accepts, as they are compared after lower-casing. */
  const ImageExtensions: seq<string> := [".png", ".jpg", ".jpeg"]

  /** The filter of the batch loop: a file is processed exactly when this holds. */
  predicate IsImageFile(name: string)
  {
    var lower := Lower(name);
    EndsWith(lower, ".png") || EndsWith(lower, ".jpg") || EndsWith(lower, ".jpeg")
  }

  /** The index of the last '.', or -1 when there is none (str.rfind). */
  function LastDot(s: string): (i: int)
    ensures -1 <= i < |s|
    ensures i >= 0 ==> s[i] == '.'
    ensures forall k :: i < k < |s| ==> s[k] != '.'
  {
    if s == [] then -1
    else if s[|s| - 1] == '.' then |s| - 1
    else LastDot(s[..|s| - 1])
  }

  predicate OnlyDots(s: string)
  {
    forall k :: 0 <= k < |s| ==> s[k] == '.'
  }

  /**
   * os.path.splitext on a name without separators: the extension runs from
   * the last '.' to the end, unless everything before that dot is a dot
   * (leading dots, as in ".png", do not start an extension).  The contract
   * says root + ext is the name, the extension is empty or a single dotted
   * part after a root that is not all dots, and it is empty only when no dot
   * of the name has a non-dot before it.
   */
  function SplitExt(p: string): (r: (string, string))
    ensures r.0 + r.1 == p
    ensures r.1 != [] ==>
              && r.1[0] == '.'
              && (forall k :: 0 < k < |r.1| ==> r.1[k] != '.')
              && !OnlyDots(r.0)
    ensures r.1 == [] ==> forall d :: 0 <= d < |p| && p[d] == '.' ==> OnlyDots(p[..d])
  {
    var d := LastDot(p);
    if d >= 0 && !OnlyDots(p[..d]) then (p[..d], p[d..]) else (p, [])
  }

  /** The output file name: the root of the input name with ".webp" appended. */
  function OutputName(filename: string): string
  {
    SplitExt(filename).0 + ".webp"
  }

  /**
   * The split is determined by its contract: a name made of a root that is
   * not all dots and a single dotted extension splits into exactly those.
   */
  lemma SplitExtOf(root: string, ext: string)
    requires !OnlyDots(root)
    requires |ext| > 0 && ext[0] == '.' && forall k :: 0 < k < |ext| ==> ext[k] != '.'
    ensures SplitExt(root + ext) == (root, ext)
  {
    var p := root + ext;
    var r := SplitExt(p);
    assert p[|root|] == '.';
    assert p[..|root|] == root;
    assert r.1 != [];
    assert |r.1| == |ext|;
    assert r.0 == p[..|root|];
  }

  /** A name whose last dot starts its extension loses exactly that extension. */
  lemma OutputNameReplacesExtension(root: string, ext: string)
    requires !OnlyDots(root)
    requires |ext| > 0 && ext[0] == '.' && forall k :: 0 < k < |ext| ==> ext[k] != '.'
    ensures OutputName(root + ext) == root + ".webp"
  {
    SplitExtOf(root, ext);
  }

  /** A name with no extension, or only leading dots, keeps its whole name as the root. */
  lemma OutputNameWithoutExtension(filename: string)
    requires forall d :: 0 <= d < |filename| && filename[d] == '.' ==> OnlyDots(filename[..d])
    ensures OutputName(filename) == filename + ".webp"
  {
  }

  lemma LowerSuffix(s: string, k: nat)
    requires k <= |s|
    ensures Lower(s[k..]) == Lower(s)[k..]
  {
  }

  /** Lower-casing is idempotent, so the filter is blind to letter case. */
  lemma IsImageFileIgnoresCase(name: string)
    ensures IsImageFile(Lower(name)) == IsImageFile(name)
  {
    assert Lower(Lower(name)) == Lower(name);
  }

  /** Ending in ext is having ext as the suffix from |s| - |ext| on. */
  lemma EndsWithSuffix(s: string, ext: string, k: nat)
    requires k <= |s|
    ensures s[k..] == ext ==> EndsWith(s, ext)
    ensures EndsWith(s, ext) && k == |s| - |ext| ==> s[k..] == ext
  {
  }

  /** A processed file has one of the accepted extensions, in some letter case, as a suffix. */
  lemma ImageFileHasExtension(name: string) returns (k: nat)
    requires IsImageFile(name)
    ensures k <= |name| && Lower(name[k..]) in ImageExtensions
  {
    var lower := Lower(name);
    var ext := if EndsWith(lower, ".png") then ".png"
               else if EndsWith(lower, ".jpg") then ".jpg"
               else ".jpeg";
    assert ext in ImageExtensions && EndsWith(lower, ext);
    k := |name| - |ext|;
    LowerSuffix(name, k);
    EndsWithSuffix(lower, ext, k);
  }

  /** A name with one of the accepted extensions, in any letter case, as a suffix is processed. */
  lemma ExtensionMakesImageFile(name: string, k: nat)
    requires k <= |name| && Lower(name[k..]) in ImageExtensions
    ensures IsImageFile(name)
  {
    LowerSuffix(name, k);
    EndsWithSuffix(Lower(name), Lower(name[k..]), k);
  }

  /**
   * Output names are never picked up by the filter: their lower-cased form
   * ends in ".webp", which ends in none of the accepted extensions.
   */
  lemma OutputNameNotImage(filename: string)
    ensures !IsImageFile(OutputName(filename))
  {
    var out := OutputName(filename);
    var n := |out|;
    assert out[n - 4] == 'w';
    var lower := Lower(out);
    assert lower[n - 4] == LowerChar('w') == 'w';
    assert lower[n - 4..][0] == 'w';
    assert lower[n - 5..][1] == 'w';
  }
}
