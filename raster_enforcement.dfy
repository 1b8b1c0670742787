/**
 * Raster file-name classification (`is_rast`) and list filtering
 * (`enf_rastlist`). The filesystem query `os.path.isfile` is a parameter
 * `isFile`: one fixed answer per path.
 */
module RasterEnforcement {

  /** The 22 accepted endings (`rast_types`). */
  const RastTypes: seq<string> :=
    ["bil", "bip", "bmp", "bsq", "dat", "gif", "img", "jpg", "jp2", "png", "tif",
     "BIL", "BIP", "BMP", "BSQ", "DAT", "GIF", "IMG", "JPG", "JP2", "PNG", "TIF"]

  /**
   * Python's `filename[-3:]`: the last three characters, or the whole name when
   * it is shorter than three.
   */
  function Ext(filename: string): (e: string)
    ensures |e| == if |filename| < 3 then |filename| else 3
    ensures filename == filename[..|filename| - |e|] + e
  {
    if |filename| < 3 then filename else filename[|filename| - 3..]
  }

  /**
   * What `is_rast` decides: the file exists and its last three characters are
   * listed. Only existing names of at least three characters qualify.
   */
  predicate IsRaster(isFile: string -> bool, filename: string)
    ensures IsRaster(isFile, filename) ==> isFile(filename) && |filename| >= 3
  {
    isFile(filename) && Ext(filename) in RastTypes
  }

  /**
   * `is_rast`: when the file exists, compare its ending with each listed type
   * in turn and answer true at the first match; otherwise false.
   */
  method IsRast(filename: string, isFile: string -> bool) returns (b: bool)
    ensures b == IsRaster(isFile, filename)
    ensures !isFile(filename) ==> !b
    ensures isFile(filename) ==> (b <==> exists k :: 0 <= k < |RastTypes| && Ext(filename) == RastTypes[k])
  {
    var ext := Ext(filename);
    if isFile(filename) {
      for i := 0 to |RastTypes|
        invariant forall k :: 0 <= k < i ==> ext != RastTypes[k]
      {
        if ext == RastTypes[i] {
          return true;
        }
      }
    }
    return false;
  }

  /** The names of `s` that satisfy `keep`, in their original order, duplicates kept. */
  function Filter(keep: string -> bool, s: seq<string>): (r: seq<string>)
    ensures |r| <= |s|
    ensures forall k :: 0 <= k < |r| ==> keep(r[k])
  {
    if s == [] then []
    else (if keep(s[0]) then [s[0]] else []) + Filter(keep, s[1..])
  }

  /** The order-preserving filter `enf_rastlist` computes: the raster names, duplicates kept. */
  function RastFilter(isFile: string -> bool, files: seq<string>): (r: seq<string>)
    ensures |r| <= |files|
    ensures forall k :: 0 <= k < |r| ==> IsRaster(isFile, r[k])
  {
    Filter(f => IsRaster(isFile, f), files)
  }

  /**
   * `enf_rastlist` (with `core.enf_filelist` as the identity): walks the list
   * in order and appends every name that exists and passes `is_rast`.
   */
  method EnfRastlist(filelist: seq<string>, isFile: string -> bool) returns (newFilelist: seq<string>)
    ensures newFilelist == RastFilter(isFile, filelist)
  {
    newFilelist := [];
    for i := 0 to |filelist|
      invariant newFilelist == RastFilter(isFile, filelist[..i])
    {
      var filename := filelist[i];
      if isFile(filename) {
        var isRaster := IsRast(filename, isFile);
        if isRaster {
          newFilelist := newFilelist + [filename];
        }
      }
      RastFilterAppend(isFile, filelist[..i], [filename]);
      assert filelist[..i + 1] == filelist[..i] + [filename];
    }
    assert filelist[..|filelist|] == filelist;
  }

  /** Filtering distributes over concatenation. */
  lemma {:induction false} FilterAppend(keep: string -> bool, a: seq<string>, b: seq<string>)
    ensures Filter(keep, a + b) == Filter(keep, a) + Filter(keep, b)
  {
    if a == [] {
      assert a + b == b;
    } else {
      assert (a + b)[0] == a[0];
      assert (a + b)[1..] == a[1..] + b;
      FilterAppend(keep, a[1..], b);
    }
  }

  /** Filtering the raster names distributes over concatenation: the step the loop adds per name. */
  lemma RastFilterAppend(isFile: string -> bool, a: seq<string>, b: seq<string>)
    ensures RastFilter(isFile, a + b) == RastFilter(isFile, a) + RastFilter(isFile, b)
  {
    FilterAppend(f => IsRaster(isFile, f), a, b);
  }

  /** Each kept name keeps its multiplicity; every other name has none. */
  lemma {:induction false} FilterCounts(keep: string -> bool, s: seq<string>, x: string)
    ensures multiset(Filter(keep, s))[x] == if keep(x) then multiset(s)[x] else 0
  {
    if s != [] {
      FilterCounts(keep, s[1..], x);
      assert s == [s[0]] + s[1..];
    }
  }

  /**
   * Every name occurs in the output exactly as often as in the input when it is
   * a raster, and not at all otherwise: duplicates are kept, nothing is invented.
   */
  lemma RastFilterCounts(isFile: string -> bool, files: seq<string>, x: string)
    ensures multiset(RastFilter(isFile, files))[x] == if IsRaster(isFile, x) then multiset(files)[x] else 0
  {
    FilterCounts(f => IsRaster(isFile, f), files, x);
  }

  /** A name is in the output if and only if it is in the input and is a raster. */
  lemma RastFilterMembership(isFile: string -> bool, files: seq<string>, x: string)
    ensures x in RastFilter(isFile, files) <==> x in files && IsRaster(isFile, x)
  {
    RastFilterCounts(isFile, files, x);
    assert x in RastFilter(isFile, files) <==> x in multiset(RastFilter(isFile, files));
    assert x in files <==> x in multiset(files);
  }

  /**
   * `idx` picks out `a` from `b` at strictly increasing positions: `a` is a
   * subsequence of `b`.
   */
  predicate IsEmbedding(idx: seq<nat>, a: seq<string>, b: seq<string>)
  {
    |idx| == |a| &&
    (forall k :: 0 <= k < |idx| ==> idx[k] < |b| && a[k] == b[idx[k]]) &&
    (forall k, l :: 0 <= k < l < |idx| ==> idx[k] < idx[l])
  }

  /** Adds one to every position (the positions of `s[1..]` seen from `s`). */
  function ShiftPositions(idx: seq<nat>): (r: seq<nat>)
    ensures |r| == |idx| && forall k :: 0 <= k < |idx| ==> r[k] == idx[k] + 1
  {
    seq(|idx|, k requires 0 <= k < |idx| => idx[k] + 1)
  }

  /** The positions of `s` that the filter keeps, in increasing order. */
  function KeptPositions(keep: string -> bool, s: seq<string>): seq<nat>
  {
    if s == [] then []
    else
      var shifted := ShiftPositions(KeptPositions(keep, s[1..]));
      if keep(s[0]) then [0] + shifted else shifted
  }

  /** An embedding into the tail of `b` shifts to an embedding into `b` itself. */
  lemma ShiftEmbedding(idx: seq<nat>, a: seq<string>, b: seq<string>)
    requires |b| > 0 && IsEmbedding(idx, a, b[1..])
    ensures IsEmbedding(ShiftPositions(idx), a, b)
    ensures forall k :: 0 <= k < |idx| ==> ShiftPositions(idx)[k] > 0
  {
    var shifted := ShiftPositions(idx);
    forall k | 0 <= k < |shifted|
      ensures shifted[k] < |b| && a[k] == b[shifted[k]]
    {
      assert b[shifted[k]] == b[1..][idx[k]];
    }
  }

  /** Keeping the first element of `b` extends an embedding that avoids position 0. */
  lemma ConsEmbedding(idx: seq<nat>, a: seq<string>, b: seq<string>)
    requires |b| > 0 && IsEmbedding(idx, a, b)
    requires forall k :: 0 <= k < |idx| ==> idx[k] > 0
    ensures IsEmbedding([0] + idx, [b[0]] + a, b)
  {
    var idx', a' := [0] + idx, [b[0]] + a;
    forall k | 0 <= k < |idx'|
      ensures idx'[k] < |b| && a'[k] == b[idx'[k]]
    {
      if k > 0 {
        assert idx'[k] == idx[k - 1] && a'[k] == a[k - 1];
      }
    }
    forall k, l | 0 <= k < l < |idx'|
      ensures idx'[k] < idx'[l]
    {
      assert idx'[l] == idx[l - 1];
      if k > 0 {
        assert idx'[k] == idx[k - 1];
      }
    }
  }

  /** The kept positions pick out exactly the filtered output, at strictly increasing indices. */
  lemma {:induction false} KeptPositionsEmbed(keep: string -> bool, s: seq<string>)
    ensures IsEmbedding(KeptPositions(keep, s), Filter(keep, s), s)
  {
    if s != [] {
      var rest := KeptPositions(keep, s[1..]);
      var tail := Filter(keep, s[1..]);
      KeptPositionsEmbed(keep, s[1..]);
      ShiftEmbedding(rest, tail, s);
      if keep(s[0]) {
        ConsEmbedding(ShiftPositions(rest), tail, s);
      }
    }
  }

  /** The output is a subsequence of the input: the same names in the same relative order. */
  lemma RastFilterIsSubsequence(isFile: string -> bool, files: seq<string>)
    ensures exists idx :: IsEmbedding(idx, RastFilter(isFile, files), files)
  {
    var keep := f => IsRaster(isFile, f);
    KeptPositionsEmbed(keep, files);
    assert IsEmbedding(KeptPositions(keep, files), RastFilter(isFile, files), files);
  }

  /** Filtering an already filtered list changes nothing. */
  lemma {:induction false} FilterIdempotent(keep: string -> bool, s: seq<string>)
    ensures Filter(keep, Filter(keep, s)) == Filter(keep, s)
  {
    if s != [] {
      FilterIdempotent(keep, s[1..]);
      var head := if keep(s[0]) then [s[0]] else [];
      FilterAppend(keep, head, Filter(keep, s[1..]));
    }
  }

  /** Filtering the raster names of an already filtered list changes nothing. */
  lemma RastFilterIdempotent(isFile: string -> bool, files: seq<string>)
    ensures RastFilter(isFile, RastFilter(isFile, files)) == RastFilter(isFile, files)
  {
    FilterIdempotent(f => IsRaster(isFile, f), files);
  }

  /** A name that does not exist is never a raster, whatever it is called. */
  lemma MissingFileNeverRaster(isFile: string -> bool, filename: string)
    requires !isFile(filename)
    ensures !IsRaster(isFile, filename)
  {
  }

  /** The table holds 22 entries, all distinct, each three characters long. */
  lemma RastTypesShape()
    ensures |RastTypes| == 22
    ensures forall k :: 0 <= k < |RastTypes| ==> |RastTypes[k]| == 3
    ensures forall k, l :: 0 <= k < l < |RastTypes| ==> RastTypes[k] != RastTypes[l]
  {
  }

  /** A name shorter than three characters is never a raster: every listed ending has three. */
  lemma ShortNameNeverRaster(isFile: string -> bool, filename: string)
    requires |filename| < 3
    ensures !IsRaster(isFile, filename)
  {
    assert forall k :: 0 <= k < |RastTypes| ==> |RastTypes[k]| == 3;
  }

  /** Only the last three characters matter: any prefix, with or without a dot. */
  lemma {:induction false} OnlySuffixMatters(isFile: string -> bool, prefix: string, ending: string)
    requires |ending| == 3
    ensures Ext(prefix + ending) == ending
    ensures IsRaster(isFile, prefix + ending) <==> isFile(prefix + ending) && ending in RastTypes
  {
    assert (prefix + ending)[|prefix + ending| - 3..] == ending;
  }

  /** Endings that are the tails of the four-letter spellings "tiff" and "jpeg" are not listed. */
  lemma FourLetterTailsUnlisted()
    ensures "iff" !in RastTypes && "IFF" !in RastTypes
    ensures "peg" !in RastTypes && "PEG" !in RastTypes
  {
    forall k | 0 <= k < |RastTypes|
      ensures |RastTypes[k]| == 3 && RastTypes[k][1] !in "fFeE"
    {
    }
  }

  /**
   * The four-letter spellings are rejected: "x.tiff" ends in "iff" and "x.jpeg"
   * in "peg", in either case.
   */
  lemma FourLetterSpellingsRejected(isFile: string -> bool, stem: string)
    ensures !IsRaster(isFile, stem + ".tiff") && !IsRaster(isFile, stem + ".TIFF")
    ensures !IsRaster(isFile, stem + ".jpeg") && !IsRaster(isFile, stem + ".JPEG")
  {
    FourLetterTailsUnlisted();
    assert stem + ".tiff" == (stem + ".t") + "iff";
    OnlySuffixMatters(isFile, stem + ".t", "iff");
    assert stem + ".TIFF" == (stem + ".T") + "IFF";
    OnlySuffixMatters(isFile, stem + ".T", "IFF");
    assert stem + ".jpeg" == (stem + ".j") + "peg";
    OnlySuffixMatters(isFile, stem + ".j", "peg");
    assert stem + ".JPEG" == (stem + ".J") + "PEG";
    OnlySuffixMatters(isFile, stem + ".J", "PEG");
  }

  predicate IsLowerLetter(c: char) { 'a' <= c <= 'z' }
  predicate IsUpperLetter(c: char) { 'A' <= c <= 'Z' }

  /** The upper-case form of a character (ASCII letters only). */
  function UpperChar(c: char): char
  {
    if IsLowerLetter(c) then (c as int - 32) as char else c
  }

  /** The upper-case form of a string. */
  function UpperString(s: string): (u: string)
    ensures |u| == |s| && forall i :: 0 <= i < |s| ==> u[i] == UpperChar(s[i])
  {
    seq(|s|, i requires 0 <= i < |s| => UpperChar(s[i]))
  }

  /** No upper-case letter. */
  predicate IsLowerForm(s: string)
  {
    forall i :: 0 <= i < |s| ==> !IsUpperLetter(s[i])
  }

  /** No lower-case letter. */
  predicate IsUpperForm(s: string)
  {
    forall i :: 0 <= i < |s| ==> !IsLowerLetter(s[i])
  }

  /** A string with both an upper-case and a lower-case letter. */
  predicate IsMixedCase(s: string)
  {
    (exists i :: 0 <= i < |s| && IsLowerLetter(s[i])) &&
    (exists j :: 0 <= j < |s| && IsUpperLetter(s[j]))
  }

  /**
   * The table is 11 lower-case endings followed by their upper-case forms, in
   * the same order.
   */
  lemma RastTypesCaseForms()
    ensures forall k :: 0 <= k < 11 ==> IsLowerForm(RastTypes[..11][k]) && RastTypes[11..][k] == UpperString(RastTypes[..11][k])
    ensures forall k :: 0 <= k < |RastTypes| ==> IsLowerForm(RastTypes[k]) || IsUpperForm(RastTypes[k])
  {
    var lower, upper := RastTypes[..11], RastTypes[11..];
    forall k | 0 <= k < 11
      ensures IsLowerForm(lower[k]) && IsUpperForm(upper[k]) && upper[k] == UpperString(lower[k])
    {
    }
  }

  /** An ending that mixes cases, such as "Tif", is rejected. */
  lemma MixedCaseRejected(isFile: string -> bool, filename: string)
    requires IsMixedCase(Ext(filename))
    ensures !IsRaster(isFile, filename)
  {
    RastTypesCaseForms();
  }

  /** "x.Tif" is rejected even when the file exists. */
  lemma TifRejected(isFile: string -> bool, stem: string)
    ensures !IsRaster(isFile, stem + ".Tif")
  {
    assert stem + ".Tif" == (stem + ".") + "Tif";
    OnlySuffixMatters(isFile, stem + ".", "Tif");
    assert IsLowerLetter("Tif"[1]) && IsUpperLetter("Tif"[0]);
    MixedCaseRejected(isFile, stem + ".Tif");
  }
}
