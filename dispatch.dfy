/**
 * `SelectMultipleFilesInExplorer`: the matched files are grouped by their
 * parent directory (LINQ `GroupBy`, which lists groups in the order their keys
 * first appear and keeps each group's files in order), and for each group one
 * Explorer action is issued, aimed at the group's first file: activate the
 * window already showing the folder, or open a new window when there is none.
 */
module Dispatch {
  import opened Wrappers
  import opened Paths
  import opened Matcher
  import opened Explorer

  /** The position of the first occurrence of `x` in `s`. */
  function IndexOf(s: seq<string>, x: string): (k: nat)
    requires x in s
    ensures k < |s| && s[k] == x
    ensures forall j :: 0 <= j < k ==> s[j] != x
  {
    if s[0] == x then 0 else 1 + IndexOf(s[1..], x)
  }

  /** The distinct elements of `s`, in the order of their first occurrence. */
  function Dedup(s: seq<string>): seq<string>
  {
    if s == [] then []
    else
      var d := Dedup(s[..|s| - 1]);
      if s[|s| - 1] in d then d else d + [s[|s| - 1]]
  }

  predicate Distinct(s: seq<string>)
  {
    forall i, j :: 0 <= i < j < |s| ==> s[i] != s[j]
  }

  /**
   * Deduplication keeps every element once and nothing else, and lists the elements in the order
   * of their first occurrence.
   */
  lemma {:induction false} DedupSpec(s: seq<string>)
    ensures forall x :: x in Dedup(s) <==> x in s
    ensures Distinct(Dedup(s))
    ensures forall i, j :: 0 <= i < j < |Dedup(s)| ==> IndexOf(s, Dedup(s)[i]) < IndexOf(s, Dedup(s)[j])
  {
    if s != [] {
      var p, x := s[..|s| - 1], s[|s| - 1];
      assert s == p + [x];
      DedupSpec(p);
      var d := Dedup(p);
      forall y | y in p
        ensures IndexOf(s, y) == IndexOf(p, y)
      {
        var k := IndexOf(p, y);
        assert s[k] == y;
      }
      if x !in d {
        assert x !in p;
        assert IndexOf(s, x) == |s| - 1;
        assert Dedup(s) == d + [x];
        forall i, j | 0 <= i < j < |Dedup(s)|
          ensures IndexOf(s, Dedup(s)[i]) < IndexOf(s, Dedup(s)[j])
        {
          assert Dedup(s)[i] == d[i] && d[i] in d;
          if j < |d| {
            assert Dedup(s)[j] == d[j] && d[j] in d;
          }
        }
      } else {
        forall i, j | 0 <= i < j < |Dedup(s)|
          ensures IndexOf(s, Dedup(s)[i]) < IndexOf(s, Dedup(s)[j])
        {
          assert d[i] in d && d[j] in d;
        }
      }
    }
  }

  /** The parent directory of each matched file. */
  function DirsOf(files: seq<string>): seq<string>
  {
    seq(|files|, i requires 0 <= i < |files| => DirName(files[i]))
  }

  /** The group keys, in first-appearance order. */
  function Folders(files: seq<string>): seq<string>
  {
    Dedup(DirsOf(files))
  }

  /** The files of one group, in their order among the matches. */
  function InFolder(files: seq<string>, folder: string): seq<string>
  {
    Where(files, f => DirName(f) == folder)
  }

  /** The first matched file in `folder`. */
  function FirstInFolder(files: seq<string>, folder: string): string
    requires folder in DirsOf(files)
  {
    files[IndexOf(DirsOf(files), folder)]
  }

  /** A folder that some file lies in has a group that starts with that folder's first file. */
  lemma {:induction false} InFolderStartsWithFirst(files: seq<string>, folder: string)
    requires folder in DirsOf(files)
    ensures InFolder(files, folder) != []
    ensures InFolder(files, folder)[0] == FirstInFolder(files, folder)
  {
    var dirs := DirsOf(files);
    if DirName(files[0]) != folder {
      assert dirs[0] != folder;
      assert DirsOf(files[1..]) == dirs[1..];
      assert folder in dirs[1..] by {
        var k := IndexOf(dirs, folder);
        assert dirs[1..][k - 1] == folder;
      }
      InFolderStartsWithFirst(files[1..], folder);
      assert InFolder(files, folder) == InFolder(files[1..], folder);
    }
  }

  datatype Group = Group(folder: string, files: seq<string>)

  /** LINQ `GroupBy(Path.GetDirectoryName)` over the matched files. */
  function GroupByFolder(files: seq<string>): (groups: seq<Group>)
    ensures |groups| == |Folders(files)|
    ensures forall i :: 0 <= i < |groups| ==> groups[i].files != []
  {
    var folders := Folders(files);
    DedupSpec(DirsOf(files));
    forall d | d in folders
      ensures InFolder(files, d) != []
    {
      InFolderStartsWithFirst(files, d);
    }
    seq(|folders|, i requires 0 <= i < |folders| => Group(folders[i], InFolder(files, folders[i])))
  }

  /**
   * The grouping partitions the matches: group folders are distinct and listed in the order they
   * first appear, every file lies in the group of its own directory and in no other, files keep
   * their order within a group, and each group starts with the first file of its folder.
   */
  lemma GroupByFolderSpec(files: seq<string>)
    ensures var groups := GroupByFolder(files);
      && (forall i :: 0 <= i < |groups| ==> groups[i].folder in DirsOf(files))
      && (forall i, j :: 0 <= i < j < |groups| ==> groups[i].folder != groups[j].folder)
      && (forall i, j :: 0 <= i < j < |groups| ==>
            IndexOf(DirsOf(files), groups[i].folder) < IndexOf(DirsOf(files), groups[j].folder))
      && (forall f :: f in files ==> exists i :: 0 <= i < |groups| && groups[i].folder == DirName(f))
      && (forall i, f :: 0 <= i < |groups| && f in groups[i].files <==>
            0 <= i < |groups| && f in files && DirName(f) == groups[i].folder)
      && (forall i :: 0 <= i < |groups| ==> IsSubsequence(groups[i].files, files))
      && (forall i :: 0 <= i < |groups| ==> groups[i].files[0] == FirstInFolder(files, groups[i].folder))
  {
    var groups := GroupByFolder(files);
    DedupSpec(DirsOf(files));
    GroupsCoverFiles(files);
    forall i | 0 <= i < |groups|
      ensures forall f :: f in groups[i].files <==> f in files && DirName(f) == groups[i].folder
      ensures IsSubsequence(groups[i].files, files)
      ensures groups[i].folder in DirsOf(files) && groups[i].files[0] == FirstInFolder(files, groups[i].folder)
    {
      GroupContents(files, i);
    }
  }

  lemma GroupsCoverFiles(files: seq<string>)
    ensures forall f :: f in files ==>
      exists i :: 0 <= i < |GroupByFolder(files)| && GroupByFolder(files)[i].folder == DirName(f)
  {
    var groups := GroupByFolder(files);
    var dirs := DirsOf(files);
    DedupSpec(dirs);
    forall f | f in files
      ensures exists i :: 0 <= i < |groups| && groups[i].folder == DirName(f)
    {
      var k :| 0 <= k < |files| && files[k] == f;
      assert dirs[k] == DirName(f);
      var i := IndexOf(Folders(files), DirName(f));
      assert groups[i].folder == DirName(f);
    }
  }

  lemma GroupContents(files: seq<string>, i: int)
    requires 0 <= i < |GroupByFolder(files)|
    ensures var g := GroupByFolder(files)[i];
      && (forall f :: f in g.files <==> f in files && DirName(f) == g.folder)
      && IsSubsequence(g.files, files)
      && g.folder in DirsOf(files)
      && g.files[0] == FirstInFolder(files, g.folder)
  {
    var d := GroupByFolder(files)[i].folder;
    DedupSpec(DirsOf(files));
    WhereMembership(files, f => DirName(f) == d);
    WhereIsSubsequence(files, f => DirName(f) == d);
    assert d in Folders(files);
    InFolderStartsWithFirst(files, d);
  }

  /** What Explorer is asked to do for one folder. */
  datatype ExplorerAction =
    | Activate(window: nat, file: string)   // bring the open window forward and select the file
    | OpenNew(file: string)                 // `explorer.exe /select,"file"`

  /** The action for one group: aimed at its first file, through the open window if there is one. */
  function ActionFor(group: Group, shell: Option<seq<LocationUrl>>): ExplorerAction
    requires group.files != []
  {
    match FindWindow(shell, group.folder)
    case Some(w) => Activate(w, group.files[0])
    case None => OpenNew(group.files[0])
  }

  /** One action per group, in group order. */
  function PlannedActions(groups: seq<Group>, shell: Option<seq<LocationUrl>>): seq<ExplorerAction>
    requires forall i :: 0 <= i < |groups| ==> groups[i].files != []
  {
    seq(|groups|, i requires 0 <= i < |groups| => ActionFor(groups[i], shell))
  }

  /** The `foreach` over the groups, each step looking up the folder's window afresh. */
  method SelectMultipleFilesInExplorer(files: seq<string>, shell: Option<seq<LocationUrl>>)
    returns (actions: seq<ExplorerAction>)
    ensures actions == PlannedActions(GroupByFolder(files), shell)
  {
    var filesByFolder := GroupByFolder(files);
    actions := [];
    var i := 0;
    while i < |filesByFolder|
      invariant 0 <= i <= |filesByFolder|
      invariant |actions| == i
      invariant forall k :: 0 <= k < i ==> actions[k] == ActionFor(filesByFolder[k], shell)
    {
      var folderGroup := filesByFolder[i];
      var explorerWindow := FindExplorerWindow(shell, folderGroup.folder);
      if explorerWindow.Some? {
        actions := actions + [Activate(explorerWindow.value, folderGroup.files[0])];
      } else {
        actions := actions + [OpenNew(folderGroup.files[0])];
      }
      i := i + 1;
    }
  }

  /**
   * Exactly one action per distinct parent directory, in first-appearance order, each aimed at
   * the first matched file of its directory; the action activates a window exactly when the
   * lookup found one, and that window.
   */
  lemma OneActionPerFolder(files: seq<string>, shell: Option<seq<LocationUrl>>)
    ensures var actions := PlannedActions(GroupByFolder(files), shell);
      && |actions| == |Folders(files)|
      && Distinct(Folders(files))
      && (forall d :: d in Folders(files) <==> d in DirsOf(files))
      && forall i :: 0 <= i < |actions| ==>
           && Folders(files)[i] in DirsOf(files)
           && actions[i].file == FirstInFolder(files, Folders(files)[i])
           && (actions[i].Activate? <==> FindWindow(shell, Folders(files)[i]).Some?)
           && (actions[i].Activate? ==> actions[i].window == FindWindow(shell, Folders(files)[i]).value)
  {
    GroupByFolderSpec(files);
    DedupSpec(DirsOf(files));
  }
}
