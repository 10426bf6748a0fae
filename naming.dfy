/**
 * The transcript's file name, `Path(audio_file_path).stem + "_transcript.txt"`,
 * under POSIX path rules: the name is the last path component that is neither
 * empty nor ".", and the stem drops the last dot-suffix unless that dot is the
 * first or the last character of the name.
 */
module Naming {
  import opened Text

  const TranscriptSuffix: string := "_transcript.txt"

  /** Every non-'/' character of `t` is a "." standing alone between separators:
      the components of `t` are all empty or ".". */
  predicate OnlyDotParts(t: string) {
    forall j :: 0 <= j < |t| && t[j] != '/' ==>
      t[j] == '.' && (j == 0 || t[j - 1] == '/') && (j + 1 == |t| || t[j + 1] == '/')
  }

  /** `r` sits at index `k` of `p` as a whole component, and every component after it is empty or ".". */
  predicate LastPartAt(p: string, r: string, k: int) {
    0 <= k <= |p| - |r| && p[k..k + |r|] == r &&
    (k == 0 || p[k - 1] == '/') &&
    (k + |r| == |p| || p[k + |r|] == '/') && OnlyDotParts(p[k + |r|..])
  }

  /** `Path(p).name`. */
  function Name(p: string): (r: string)
    ensures forall k :: 0 <= k < |r| ==> r[k] != '/'
    ensures r != "."
    decreases |p|
  {
    var i := LastIndexOf(p, '/');
    if i < 0 then
      if p == "." then "" else p
    else
      var last := p[i + 1..];
      if last == "" || last == "." then Name(p[..i]) else last
  }

  /** Appending an empty or "." component keeps a run of empty-or-"." components. */
  lemma DotPartsExtend(t: string, last: string)
    requires OnlyDotParts(t)
    requires last == "" || last == "."
    ensures OnlyDotParts(t + "/" + last)
  {
  }

  /** A last component of `q` stays the last one when an empty or "." component follows. */
  lemma LastPartExtend(q: string, last: string, r: string, k: int)
    requires LastPartAt(q, r, k)
    requires last == "" || last == "."
    ensures LastPartAt(q + "/" + last, r, k)
  {
    var p := q + "/" + last;
    assert p[k..k + |r|] == q[k..k + |r|];
    assert p[k + |r|..] == q[k + |r|..] + "/" + last;
    DotPartsExtend(q[k + |r|..], last);
  }

  /** The name is the last component of the path that is neither empty nor ".";
      when there is none, the name is empty. */
  lemma {:induction false} NameIsLastPart(p: string)
    ensures Name(p) == [] ==> OnlyDotParts(p)
    ensures Name(p) != [] ==> exists k :: LastPartAt(p, Name(p), k)
    decreases |p|
  {
    var i := LastIndexOf(p, '/');
    if i < 0 {
      if p != "." {
        assert LastPartAt(p, p, 0);
      }
    } else {
      var q, last := p[..i], p[i + 1..];
      assert p == q + "/" + last;
      if last == "" || last == "." {
        NameIsLastPart(q);
        if Name(q) == [] {
          DotPartsExtend(q, last);
        } else {
          var k :| LastPartAt(q, Name(q), k);
          LastPartExtend(q, last, Name(q), k);
        }
      } else {
        assert LastPartAt(p, last, i + 1);
      }
    }
  }

  /** `Path(...).stem` of a name: the name without its last dot-suffix, where a
      suffix needs a character before its dot and one after it. */
  function Stem(name: string): (r: string)
    ensures |r| <= |name| && r == name[..|r|]
    ensures |r| < |name| ==>
              0 < |r| && name[|r|] == '.' && |r| + 1 < |name| &&
              forall k :: |r| < k < |name| ==> name[k] != '.'
    ensures |r| == |name| ==>
              (name != [] && name[|name| - 1] == '.') ||
              forall k :: 0 < k < |name| ==> name[k] != '.'
  {
    var i := LastIndexOf(name, '.');
    if 0 < i < |name| - 1 then name[..i] else name
  }

  /** The file `convert_audio_to_text` writes the transcript to. */
  function OutputFileName(audioFilePath: string): (r: string)
    ensures var n := |r| - |TranscriptSuffix|;
            0 <= n <= |Name(audioFilePath)| &&
            r[n..] == TranscriptSuffix && r[..n] == Name(audioFilePath)[..n]
    ensures forall k :: 0 <= k < |r| ==> r[k] != '/'
    ensures r == Stem(Name(audioFilePath)) + TranscriptSuffix
  {
    var name := Name(audioFilePath);
    var stem := Stem(name);
    assert (stem + TranscriptSuffix)[..|stem|] == stem == name[..|stem|];
    assert (stem + TranscriptSuffix)[|stem|..] == TranscriptSuffix;
    stem + TranscriptSuffix
  }

  /** A path's last component is its name when it is a real component. */
  lemma NameOfLastComponent(dir: string, file: string)
    requires '/' !in file && file != "" && file != "."
    ensures Name(file) == file
    ensures Name(dir + "/" + file) == file
  {
    var p := dir + "/" + file;
    assert p[|dir|] == '/';
    assert p[|dir| + 1..] == file;
  }

  /** A trailing separator, or a trailing "." component, does not change the name. */
  lemma NameIgnoresTrailingParts(q: string)
    ensures Name(q + "/") == Name(q)
    ensures Name(q + "/.") == Name(q)
  {
    assert (q + "/")[..|q|] == q && (q + "/.")[..|q|] == q;
    assert (q + "/.")[|q|] == '/';
  }

  /** The stem of `base.ext` is `base` when `base` is not empty and `ext` holds no dot. */
  lemma StemDropsExtension(base: string, ext: string)
    requires base != "" && ext != "" && '.' !in ext
    ensures Stem(base + "." + ext) == base
  {
    var name := base + "." + ext;
    assert name[|base|] == '.';
    assert name[..|base|] == base;
  }

  /** A name whose only dot leads it (a hidden file) has no suffix to drop. */
  lemma StemKeepsLeadingDot(rest: string)
    requires '.' !in rest
    ensures Stem("." + rest) == "." + rest
  {
    assert ("." + rest)[0] == '.';
  }

  /** A name `base.ext` with a dot-free `ext` and a non-empty `base` gives `base_transcript.txt`. */
  lemma OutputFileNameDropsExtension(p: string, base: string, ext: string)
    requires base != "" && ext != "" && '.' !in ext
    requires Name(p) == base + "." + ext
    ensures OutputFileName(p) == base + TranscriptSuffix
  {
    StemDropsExtension(base, ext);
  }

  /** A hidden-file name `.rest` with a dot-free `rest` is kept whole. */
  lemma OutputFileNameKeepsHiddenName(p: string, rest: string)
    requires '.' !in rest
    requires Name(p) == "." + rest
    ensures OutputFileName(p) == "." + rest + TranscriptSuffix
  {
    StemKeepsLeadingDot(rest);
  }

  /** A path ending in `base.ext` (with or without a directory) gives `base_transcript.txt`. */
  lemma OutputFileNameOfFile(dir: string, base: string, ext: string)
    requires base != "" && ext != "" && '/' !in base && '/' !in ext && '.' !in ext
    ensures OutputFileName(base + "." + ext) == base + TranscriptSuffix
    ensures OutputFileName(dir + "/" + base + "." + ext) == base + TranscriptSuffix
  {
    assert dir + "/" + base + "." + ext == dir + "/" + (base + "." + ext);
    NameOfLastComponent(dir, base + "." + ext);
    OutputFileNameDropsExtension(base + "." + ext, base, ext);
    OutputFileNameDropsExtension(dir + "/" + (base + "." + ext), base, ext);
  }

  /** A path ending in a hidden file `.rest` keeps the whole name. */
  lemma OutputFileNameOfHiddenFile(dir: string, rest: string)
    requires rest != "" && '/' !in rest && '.' !in rest
    ensures OutputFileName(dir + "/" + "." + rest) == "." + rest + TranscriptSuffix
  {
    assert dir + "/" + "." + rest == dir + "/" + ("." + rest);
    NameOfLastComponent(dir, "." + rest);
    OutputFileNameKeepsHiddenName(dir + "/" + ("." + rest), rest);
  }

  /** A name keeps all of itself exactly when it has no dot to cut at: it is empty,
      ends in a dot, or has no dot after its first character. */
  predicate WholeNameKept(name: string) {
    name == [] || name[|name| - 1] == '.' || forall k :: 0 < k < |name| ==> name[k] != '.'
  }

  lemma StemIsWholeName(name: string)
    ensures Stem(name) == name <==> WholeNameKept(name)
  {
    var r := Stem(name);
    if |r| < |name| {
      assert name[|r|] == '.';
    }
  }

  /** The transcript is named after the whole path name exactly when the name has no
      suffix to drop: a dot-free name, a name ending in a dot, or no name at all. */
  lemma OutputFileNameKeepsWholeName(p: string)
    ensures OutputFileName(p) == Name(p) + TranscriptSuffix <==> WholeNameKept(Name(p))
  {
    var name := Name(p);
    var stem := Stem(name);
    StemIsWholeName(name);
    if stem + TranscriptSuffix == name + TranscriptSuffix {
      assert stem == (stem + TranscriptSuffix)[..|stem|];
      assert name == (name + TranscriptSuffix)[..|name|];
    }
  }

  /** A dot-free file name, under any directory, is kept whole. */
  lemma OutputFileNameOfDotFreeFile(dir: string, file: string)
    requires file != "" && '/' !in file && '.' !in file
    ensures OutputFileName(dir + "/" + file) == file + TranscriptSuffix
  {
    NameOfLastComponent(dir, file);
    OutputFileNameKeepsWholeName(dir + "/" + file);
  }

  /** A file name ending in a dot, under any directory, is kept whole, dot included. */
  lemma OutputFileNameOfTrailingDot(dir: string, base: string)
    requires base != "" && '/' !in base
    ensures OutputFileName(dir + "/" + (base + ".")) == base + "." + TranscriptSuffix
  {
    var file := base + ".";
    assert file[|file| - 1] == '.';
    NameOfLastComponent(dir, file);
    OutputFileNameKeepsWholeName(dir + "/" + file);
  }

  /** The root directory has no name, so the transcript is named by the suffix alone. */
  lemma RootExample()
    ensures OutputFileName("/") == TranscriptSuffix
  {
    assert Name("/") == Name("");
    OutputFileNameKeepsWholeName("/");
  }

  lemma PlainFileExample()
    ensures OutputFileName("sample" + "." + "wav") == "sample" + TranscriptSuffix
  {
    OutputFileNameOfFile("", "sample", "wav");
  }

  lemma InnerDotsExample()
    ensures OutputFileName("dir" + "/" + "a.b" + "." + "mp4") == "a.b" + TranscriptSuffix
  {
    OutputFileNameOfFile("dir", "a.b", "mp4");
  }

  lemma HiddenFileExample()
    ensures OutputFileName("/home/u" + "/" + "." + "hidden") == "." + "hidden" + TranscriptSuffix
  {
    OutputFileNameOfHiddenFile("/home/u", "hidden");
  }
}
