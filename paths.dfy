/**
 * The parts of `System.IO.Path` the locator uses on the paths that
 * `Directory.GetFiles` returns: `GetFileName`, `GetFileNameWithoutExtension`
 * and `GetDirectoryName`, for paths whose directories are separated by `\` or `/`.
 */
module Paths {

  predicate IsSeparator(c: char)
  {
    c == '\\' || c == '/'
  }

  predicate IsDot(c: char)
  {
    c == '.'
  }

  /** The index of the last character of `s` that satisfies `p`, or -1 when there is none. */
  function LastIndexWhere(s: string, p: char -> bool): (k: int)
    ensures -1 <= k < |s|
  {
    if |s| == 0 then -1
    else if p(s[|s| - 1]) then |s| - 1
    else LastIndexWhere(s[..|s| - 1], p)
  }

  /** The index found is that of the last character satisfying `p`. */
  lemma {:induction false} LastIndexWhereIsLast(s: string, p: char -> bool)
    ensures var k := LastIndexWhere(s, p);
      (k >= 0 ==> p(s[k])) && forall j :: k < j < |s| ==> !p(s[j])
  {
    if |s| > 0 && !p(s[|s| - 1]) {
      LastIndexWhereIsLast(s[..|s| - 1], p);
    }
  }

  /** `Path.GetFileName`: what follows the last directory separator. */
  function FileName(path: string): string
  {
    path[LastIndexWhere(path, IsSeparator) + 1..]
  }

  /** `Path.GetFileNameWithoutExtension`: the file name up to, not including, its last dot. */
  function Stem(path: string): string
  {
    var name := FileName(path);
    var dot := LastIndexWhere(name, IsDot);
    if dot < 0 then name else name[..dot]
  }

  /** `Path.GetDirectoryName`: what precedes the last directory separator. */
  function DirName(path: string): string
  {
    var k := LastIndexWhere(path, IsSeparator);
    if k < 0 then "" else path[..k]
  }

  /** The path `Directory.GetFiles` reports for file `name` in directory `dir`. */
  function Combine(dir: string, name: string): string
  {
    dir + "\\" + name
  }

  predicate NoSeparator(s: string)
  {
    forall i :: 0 <= i < |s| ==> !IsSeparator(s[i])
  }

  /** The directory and the file name of a combined path are the parts it was combined from. */
  lemma CombineSplits(dir: string, name: string)
    requires NoSeparator(name)
    ensures DirName(Combine(dir, name)) == dir
    ensures FileName(Combine(dir, name)) == name
  {
    var path := Combine(dir, name);
    var k := LastIndexWhere(path, IsSeparator);
    LastIndexWhereIsLast(path, IsSeparator);
    assert path[|dir|] == '\\';
    assert forall j :: |dir| < j < |path| ==> path[j] == name[j - |dir| - 1];
    assert k == |dir|;
    assert path[..k] == dir;
    assert path[k + 1..] == name;
  }

  /**
   * The stem of `dir\stem.ext` is `stem` whatever the extension is, as long as the extension
   * holds no dot: the stem itself may hold dots (`a.b.txt` has stem `a.b`).
   */
  lemma StemOfCombined(dir: string, stem: string, ext: string)
    requires NoSeparator(stem) && NoSeparator(ext)
    requires forall i :: 0 <= i < |ext| ==> !IsDot(ext[i])
    ensures Stem(Combine(dir, stem + "." + ext)) == stem
  {
    var name := stem + "." + ext;
    assert NoSeparator(name) by {
      forall i | 0 <= i < |name|
        ensures !IsSeparator(name[i])
      {
        if i < |stem| { assert name[i] == stem[i]; }
        else if i > |stem| { assert name[i] == ext[i - |stem| - 1]; }
      }
    }
    CombineSplits(dir, name);
    var dot := LastIndexWhere(name, IsDot);
    LastIndexWhereIsLast(name, IsDot);
    assert name[|stem|] == '.';
    assert forall j :: |stem| < j < |name| ==> name[j] == ext[j - |stem| - 1];
    assert dot == |stem|;
    assert name[..dot] == stem;
  }
}
