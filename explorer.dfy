/**
 * `FindExplorerWindow`: among the shell's open windows, the first whose
 * `file:///` location names the target folder, compared after both sides are
 * normalised (trailing `\` trimmed, case folded).
 */
module Explorer {
  import opened Wrappers
  import opened Text

  const FILE_SCHEME: string := "file:///"

  /**
   * What reading one shell window's `LocationURL` yields. `Unreadable` stands for a window whose
   * property read throws (it closed while being enumerated); a null URL reads as `Url("")`.
   */
  datatype LocationUrl = Unreadable | Url(text: string)

  /** The target folder as it is compared: trailing backslashes trimmed, case folded. */
  function NormalizeTarget(target: string): string
  {
    Lower(TrimEnd(target, '\\'))
  }

  /** The folder a `file:///` URL shows, normalised like the target. */
  function WindowPath(url: string): string
  {
    Lower(TrimEnd(ReplaceChar(ReplaceAll(url, FILE_SCHEME, ""), '/', '\\'), '\\'))
  }

  /** Whether a window is a file-system window showing the target folder. */
  predicate ShowsFolder(w: LocationUrl, target: string)
  {
    && w.Url?
    && w.text != ""
    && StartsWith(w.text, FILE_SCHEME)
    && WindowPath(w.text) == NormalizeTarget(target)
  }

  /** The index of the first window showing the target folder, if any window does. */
  function FirstWindowFor(windows: seq<LocationUrl>, target: string): (r: Option<nat>)
    ensures r.Some? ==> r.value < |windows| && ShowsFolder(windows[r.value], target)
    ensures r.Some? ==> forall j :: 0 <= j < r.value ==> !ShowsFolder(windows[j], target)
    ensures r.None? ==> forall j :: 0 <= j < |windows| ==> !ShowsFolder(windows[j], target)
  {
    if windows == [] then None
    else if ShowsFolder(windows[0], target) then Some(0)
    else match FirstWindowFor(windows[1..], target)
      case None => None
      case Some(k) => Some(k + 1)
  }

  /** The lookup as a whole: no window at all when the shell cannot be created. */
  function FindWindow(shell: Option<seq<LocationUrl>>, target: string): Option<nat>
  {
    if shell.None? then None else FirstWindowFor(shell.value, target)
  }

  /**
   * The enumeration loop: windows that cannot be read, have no URL or are not `file:///`
   * windows are skipped; the first window whose normalised path equals the normalised target is
   * returned, and nothing when none does. `shell` is `None` when `Shell.Application` cannot be
   * created.
   */
  method FindExplorerWindow(shell: Option<seq<LocationUrl>>, targetPath: string) returns (found: Option<nat>)
    ensures found == FindWindow(shell, targetPath)
  {
    if shell.None? {
      return None;
    }
    var windows := shell.value;
    var normalizedTarget := Lower(TrimEnd(targetPath, '\\'));
    var i := 0;
    while i < |windows|
      invariant 0 <= i <= |windows|
      invariant forall j :: 0 <= j < i ==> !ShowsFolder(windows[j], targetPath)
    {
      var window := windows[i];
      if window.Url? && window.text != "" && StartsWith(window.text, FILE_SCHEME) {
        var windowPath := Lower(TrimEnd(ReplaceChar(ReplaceAll(window.text, FILE_SCHEME, ""), '/', '\\'), '\\'));
        if windowPath == normalizedTarget {
          return Some(i);
        }
      }
      i := i + 1;
    }
    return None;
  }

  /** The URL a file-system window shows for folder `folder`. */
  function FolderUrl(folder: string): string
  {
    FILE_SCHEME + ReplaceChar(folder, '\\', '/')
  }

  /**
   * A window showing a folder is recognised as showing it: its URL normalises back to the
   * folder. The folder must not itself hold `/` or, once its separators are turned into `/`,
   * the text `file:///`, because `Replace` removes every occurrence of the scheme.
   */
  lemma WindowOfFolderShowsIt(folder: string)
    requires forall i :: 0 <= i < |folder| ==> folder[i] != '/'
    requires !Contains(ReplaceChar(folder, '\\', '/'), FILE_SCHEME)
    ensures ShowsFolder(Url(FolderUrl(folder)), folder)
  {
    var rest := ReplaceChar(folder, '\\', '/');
    var url := FolderUrl(folder);
    assert url[..|FILE_SCHEME|] == FILE_SCHEME;
    assert url[|FILE_SCHEME|..] == rest;
    ReplaceAllAbsent(rest, FILE_SCHEME, "");
    assert ReplaceAll(url, FILE_SCHEME, "") == rest;
    assert ReplaceChar(rest, '/', '\\') == folder;
  }

  /** Normalisation forgets trailing backslashes and the case of letters. */
  lemma {:induction false} NormalizeTargetForgets(target: string)
    ensures NormalizeTarget(target + "\\") == NormalizeTarget(target)
    ensures NormalizeTarget(Lower(target)) == NormalizeTarget(target)
  {
    TrimEndOfAppended(target, '\\');
    LowerTrimEnd(target, '\\');
    LowerTrimEnd(Lower(target), '\\');
    LowerIdempotent(target);
    LowerIdempotent(TrimEnd(Lower(target), '\\'));
  }

  /** So the lookup finds the same window for the folder written with a trailing `\` or in other case. */
  lemma FindWindowIgnoresSpelling(shell: Option<seq<LocationUrl>>, target: string)
    ensures FindWindow(shell, target + "\\") == FindWindow(shell, target)
    ensures FindWindow(shell, Lower(target)) == FindWindow(shell, target)
  {
    NormalizeTargetForgets(target);
    if shell.Some? {
      SameNormalFormSameWindow(shell.value, target, target + "\\");
      SameNormalFormSameWindow(shell.value, target, Lower(target));
    }
  }

  lemma SameNormalFormSameWindow(windows: seq<LocationUrl>, t1: string, t2: string)
    requires NormalizeTarget(t1) == NormalizeTarget(t2)
    ensures FirstWindowFor(windows, t1) == FirstWindowFor(windows, t2)
  {
    var r1, r2 := FirstWindowFor(windows, t1), FirstWindowFor(windows, t2);
    assert forall j :: 0 <= j < |windows| ==> (ShowsFolder(windows[j], t1) <==> ShowsFolder(windows[j], t2));
    if r1.Some? && r2.Some? {
      assert !(r1.value < r2.value) && !(r2.value < r1.value);
    }
  }
}
