/**
 * The POSIX `os.path` operations the presentation generators apply to the
 * PDF path and the output directory.
 */
module Paths {
  import opened Wrappers
  import opened Text

  /** `s.rfind(c)`: the position of the last `c`. */
  function LastIndex(s: string, c: char): (r: Option<nat>)
    ensures r.Some? ==> r.value < |s| && s[r.value] == c
    ensures r.Some? ==> forall j :: r.value < j < |s| ==> s[j] != c
    ensures r.None? ==> NoChar(s, c)
  {
    if |s| == 0 then None
    else if s[|s| - 1] == c then Some(|s| - 1)
    else LastIndex(s[..|s| - 1], c)
  }

  /** The last `c` is where `c` occurs with no `c` after it. */
  lemma {:induction false} LastIndexAt(s: string, c: char, i: nat)
    requires i < |s| && s[i] == c
    requires forall j :: i < j < |s| ==> s[j] != c
    ensures LastIndex(s, c) == Some(i)
    decreases |s|
  {
    if i < |s| - 1 {
      LastIndexAt(s[..|s| - 1], c, i);
    }
  }

  /** `os.path.basename`: everything after the last `/`. */
  function Basename(path: string): (r: string)
    ensures NoChar(r, '/')
    ensures EndsWith(path, r)
    ensures |r| < |path| ==> path[|path| - |r| - 1] == '/'
  {
    match LastIndex(path, '/')
    case None => path
    case Some(i) => path[i + 1..]
  }

  /** Every character of `s` before `d` is a dot. */
  predicate LeadingDots(s: string, d: nat)
    requires d <= |s|
  {
    forall j :: 0 <= j < d ==> s[j] == '.'
  }

  /** `os.path.splitext(name)[0]` for a name without `/`: the text before the
      last dot, unless only dots precede that dot (a hidden file such as
      `.bashrc` has no extension). */
  function Stem(name: string): (r: string)
    ensures StartsWith(name, r)
    ensures |r| < |name| ==> name[|r|] == '.' && NoChar(name[|r| + 1..], '.') && !LeadingDots(name, |r|)
  {
    match LastIndex(name, '.')
    case None => name
    case Some(d) =>
      if LeadingDots(name, d) then name
      else
        NoCharAfter(name, d + 1, '.');
        name[..d]
  }

  /** The presentation title: the PDF's file name without its extension. */
  function Title(pdfPath: string): string
  {
    Stem(Basename(pdfPath))
  }

  /** A path `dir/name.ext` is titled `name` when the name has no `/` and is
      not all dots, and the extension holds neither `/` nor `.`. */
  lemma TitleOfPath(dir: string, name: string, ext: string)
    requires NoChar(name, '/') && NoChar(ext, '/') && NoChar(ext, '.')
    requires !LeadingDots(name, |name|)
    ensures Title(dir + "/" + name + "." + ext) == name
  {
    var file := name + "." + ext;
    assert NoChar(file, '/') by {
      forall j | 0 <= j < |file| ensures file[j] != '/' {
        if j < |name| { assert file[j] == name[j]; }
        else if j > |name| { assert file[j] == ext[j - |name| - 1]; }
      }
    }
    BasenameOfPath(dir, file);
    assert dir + "/" + name + "." + ext == dir + "/" + file;
    StemOfName(name, ext);
  }

  /** The base name of `dir/file` is `file` when the file name has no `/`. */
  lemma BasenameOfPath(dir: string, file: string)
    requires NoChar(file, '/')
    ensures Basename(dir + "/" + file) == file
  {
    var path := dir + "/" + file;
    assert path[|dir|] == '/';
    assert forall j :: |dir| < j < |path| ==> path[j] == file[j - |dir| - 1];
    LastIndexAt(path, '/', |dir|);
    assert path[|dir| + 1..] == file;
  }

  /** The stem of `name.ext` is `name` when the extension has no dot and the
      name is not all dots. */
  lemma StemOfName(name: string, ext: string)
    requires NoChar(ext, '.') && !LeadingDots(name, |name|)
    ensures Stem(name + "." + ext) == name
  {
    var file := name + "." + ext;
    assert forall j :: |name| < j < |file| ==> file[j] == ext[j - |name| - 1];
    LastIndexAt(file, '.', |name|);
    assert !LeadingDots(file, |name|) by {
      var j :| 0 <= j < |name| && name[j] != '.';
      assert file[j] == name[j];
    }
    assert file[..|name|] == name;
  }

  /** `os.path.join(dir, name)`: an absolute `name` replaces `dir`; otherwise
      a `/` goes between them unless `dir` is empty or already ends in one. */
  function Join(dir: string, name: string): (r: string)
    ensures EndsWith(r, name)
    ensures |name| > 0 && name[0] == '/' ==> r == name
    ensures !(|name| > 0 && name[0] == '/') ==> StartsWith(r, dir)
    ensures !(|name| > 0 && name[0] == '/') ==> |r| == |dir| + |name| || (|r| == |dir| + 1 + |name| && r[|dir|] == '/')
    ensures !(|name| > 0 && name[0] == '/') ==> (|r| == |dir| + |name| <==> |dir| == 0 || dir[|dir| - 1] == '/')
  {
    if |name| > 0 && name[0] == '/' then name
    else if |dir| == 0 || dir[|dir| - 1] == '/' then dir + name
    else dir + "/" + name
  }

  /** A string made of `/` only. */
  predicate AllSlashes(s: string)
  {
    forall j :: 0 <= j < |s| ==> s[j] == '/'
  }

  /** `s.rstrip("/")`. */
  function TrimSlashes(s: string): (r: string)
    ensures StartsWith(s, r)
    ensures |r| == 0 || r[|r| - 1] != '/'
    ensures forall j :: |r| <= j < |s| ==> s[j] == '/'
  {
    if |s| > 0 && s[|s| - 1] == '/' then TrimSlashes(s[..|s| - 1]) else s
  }

  /** `os.path.dirname`: everything up to the last `/`, without the trailing
      slashes unless it is slashes only. */
  function Dirname(path: string): (r: string)
    ensures StartsWith(path, r)
    ensures NoChar(path, '/') ==> r == ""
    ensures |r| > 0 && !AllSlashes(r) ==> r[|r| - 1] != '/'
  {
    match LastIndex(path, '/')
    case None => ""
    case Some(i) =>
      var head := path[..i + 1];
      if AllSlashes(head) then head else TrimSlashes(head)
  }

  /** The directory of `dir/name` is `dir` when the name has no `/` and `dir`
      does not end in one; `Join` then rebuilds the path. */
  lemma DirnameOfPath(dir: string, name: string)
    requires NoChar(name, '/') && |dir| > 0 && dir[|dir| - 1] != '/'
    ensures Dirname(dir + "/" + name) == dir
    ensures Join(Dirname(dir + "/" + name), name) == dir + "/" + name
  {
    var path := dir + "/" + name;
    assert path[|dir|] == '/';
    assert forall j :: |dir| < j < |path| ==> path[j] == name[j - |dir| - 1];
    LastIndexAt(path, '/', |dir|);
    var head := path[..|dir| + 1];
    assert head == dir + "/";
    assert !AllSlashes(head) by {
      assert head[|dir| - 1] == dir[|dir| - 1];
    }
    assert head[..|dir|] == dir;
    assert TrimSlashes(head) == TrimSlashes(dir);
  }
}
