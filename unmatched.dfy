/**
 * The unmatched registry: the `HashSet<string>` keyed by
 * `StringComparer.OrdinalIgnoreCase` that collects the cell texts for which no
 * file was found, its sorted text rendering (`OrderBy` then `string.Join`),
 * the clipboard export and the clearing on confirmation.
 */
module Unmatched {
  import opened Text

  /**
   * Ordinal string order: lexicographic on character codes, a string before its extensions. It
   * stands for the comparer `OrderBy` uses.
   */
  predicate Leq(a: string, b: string)
  {
    if a == [] then true
    else if b == [] then false
    else if a[0] != b[0] then a[0] < b[0]
    else Leq(a[1..], b[1..])
  }

  lemma {:induction false} LeqTotal(a: string, b: string)
    ensures Leq(a, b) || Leq(b, a)
  {
    if a != [] && b != [] && a[0] == b[0] {
      LeqTotal(a[1..], b[1..]);
    }
  }

  lemma {:induction false} LeqAntisymmetric(a: string, b: string)
    requires Leq(a, b) && Leq(b, a)
    ensures a == b
  {
    if a != [] && b != [] {
      LeqAntisymmetric(a[1..], b[1..]);
      assert a == [a[0]] + a[1..] && b == [b[0]] + b[1..];
    }
  }

  lemma {:induction false} LeqTransitive(a: string, b: string, c: string)
    requires Leq(a, b) && Leq(b, c)
    ensures Leq(a, c)
  {
    if a != [] && b != [] && c != [] && a[0] == b[0] && b[0] == c[0] {
      LeqTransitive(a[1..], b[1..], c[1..]);
    }
  }

  lemma {:induction false} LeqReflexive(a: string)
    ensures Leq(a, a)
  {
    if a != [] {
      LeqReflexive(a[1..]);
    }
  }

  predicate Sorted(s: seq<string>)
  {
    forall i, j :: 0 <= i < j < |s| ==> Leq(s[i], s[j])
  }

  function Insert(x: string, s: seq<string>): seq<string>
  {
    if s == [] then [x]
    else if Leq(x, s[0]) then [x] + s
    else [s[0]] + Insert(x, s[1..])
  }

  /** `OrderBy(f => f)`: the strings in ascending order. */
  function OrderBy(s: seq<string>): seq<string>
  {
    if s == [] then [] else Insert(s[0], OrderBy(s[1..]))
  }

  lemma {:induction false} InsertMembers(x: string, s: seq<string>)
    ensures multiset(Insert(x, s)) == multiset(s) + multiset{x}
  {
    if s != [] && !Leq(x, s[0]) {
      InsertMembers(x, s[1..]);
      assert s == [s[0]] + s[1..];
    }
  }

  lemma {:induction false} InsertSorted(x: string, s: seq<string>)
    requires Sorted(s)
    ensures Sorted(Insert(x, s))
  {
    if s == [] {
    } else if Leq(x, s[0]) {
      forall j | 1 <= j < |s| + 1
        ensures Leq(x, ([x] + s)[j])
      {
        if j > 1 {
          LeqTransitive(x, s[0], s[j - 1]);
        }
      }
    } else {
      InsertSorted(x, s[1..]);
      InsertMembers(x, s[1..]);
      LeqTotal(x, s[0]);
      var r := Insert(x, s[1..]);
      forall j | 0 <= j < |r|
        ensures Leq(s[0], r[j])
      {
        assert r[j] in multiset(r);
        if r[j] != x {
          assert r[j] in multiset(s[1..]);
          var k :| 0 <= k < |s[1..]| && s[1..][k] == r[j];
          assert s[k + 1] == r[j];
        }
      }
      assert Insert(x, s) == [s[0]] + r;
    }
  }

  /** Ordering yields a sorted permutation of its input. */
  lemma {:induction false} OrderBySpec(s: seq<string>)
    ensures Sorted(OrderBy(s))
    ensures multiset(OrderBy(s)) == multiset(s)
  {
    if s != [] {
      OrderBySpec(s[1..]);
      InsertSorted(s[0], OrderBy(s[1..]));
      InsertMembers(s[0], OrderBy(s[1..]));
      assert s == [s[0]] + s[1..];
    }
  }

  lemma SortedHeadsEqual(a: seq<string>, b: seq<string>)
    requires a != [] && b != []
    requires Sorted(a) && Sorted(b) && multiset(a) == multiset(b)
    ensures a[0] == b[0]
  {
    assert a[0] in multiset(b) && b[0] in multiset(a);
    var i :| 0 <= i < |b| && b[i] == a[0];
    var j :| 0 <= j < |a| && a[j] == b[0];
    LeqReflexive(a[0]);
    assert Leq(b[0], a[0]) by { if i > 0 { assert Leq(b[0], b[i]); } }
    assert Leq(a[0], b[0]) by { if j > 0 { assert Leq(a[0], a[j]); } }
    LeqAntisymmetric(a[0], b[0]);
  }

  lemma TailsSameMultiset(a: seq<string>, b: seq<string>)
    requires a != [] && b != [] && a[0] == b[0] && multiset(a) == multiset(b)
    ensures multiset(a[1..]) == multiset(b[1..])
  {
    assert a == [a[0]] + a[1..] && b == [b[0]] + b[1..];
    assert multiset(a) == multiset{a[0]} + multiset(a[1..]);
    assert multiset(b) == multiset{a[0]} + multiset(b[1..]);
    forall e
      ensures multiset(a[1..])[e] == multiset(b[1..])[e]
    {
      assert multiset(a)[e] == multiset{a[0]}[e] + multiset(a[1..])[e];
      assert multiset(b)[e] == multiset{a[0]}[e] + multiset(b[1..])[e];
    }
  }

  /** Two sorted sequences holding the same strings are the same sequence. */
  lemma {:induction false} SortedUnique(a: seq<string>, b: seq<string>)
    requires Sorted(a) && Sorted(b) && multiset(a) == multiset(b)
    ensures a == b
  {
    assert |a| == |b| by { assert |multiset(a)| == |multiset(b)|; }
    if a != [] {
      SortedHeadsEqual(a, b);
      TailsSameMultiset(a, b);
      SortedUnique(a[1..], b[1..]);
      assert a == [a[0]] + a[1..] && b == [b[0]] + b[1..];
    }
  }

  /**
   * The export depends only on which strings are stored, not on the order a hash set happens to
   * enumerate them in.
   */
  lemma OrderByIgnoresEnumerationOrder(a: seq<string>, b: seq<string>)
    requires multiset(a) == multiset(b)
    ensures OrderBy(a) == OrderBy(b)
  {
    OrderBySpec(a);
    OrderBySpec(b);
    SortedUnique(OrderBy(a), OrderBy(b));
  }

  /** The case-insensitive keys of the stored strings. */
  function FoldKeys(s: seq<string>): set<string>
  {
    set e | e in s :: Lower(e)
  }

  /** No two stored strings are equal ignoring case. */
  predicate NoFoldDuplicates(s: seq<string>)
  {
    forall i, j :: 0 <= i < j < |s| ==> Lower(s[i]) != Lower(s[j])
  }

  lemma {:induction false} FoldKeysCount(s: seq<string>)
    requires NoFoldDuplicates(s)
    ensures |FoldKeys(s)| == |s|
  {
    if s != [] {
      var p := s[..|s| - 1];
      FoldKeysCount(p);
      assert s == p + [s[|s| - 1]];
      assert FoldKeys(s) == FoldKeys(p) + {Lower(s[|s| - 1])};
      assert Lower(s[|s| - 1]) !in FoldKeys(p);
    }
  }

  /** `string.Join(Environment.NewLine, set.OrderBy(f => f))`. */
  function ListText(entries: seq<string>): string
  {
    Join(OrderBy(entries), NEW_LINE)
  }

  /**
   * The rendered list has one line per stored string, as long as no stored string holds a line
   * break itself (a cell text entered with Alt+Enter would span several lines).
   */
  lemma ListTextLineCount(entries: seq<string>)
    requires entries != []
    requires forall i :: 0 <= i < |entries| ==> CountChar(entries[i], '\n') == 0
    ensures CountChar(ListText(entries), '\n') == |entries| - 1
  {
    var lines := OrderBy(entries);
    OrderBySpec(entries);
    assert |lines| == |entries| by { assert |multiset(lines)| == |multiset(entries)|; }
    forall i | 0 <= i < |lines|
      ensures CountChar(lines[i], '\n') == 0
    {
      assert lines[i] in multiset(entries);
    }
    JoinLineCount(lines);
  }

  /** The outcome of `CopyUnmatched_Click`. */
  datatype CopyResult =
    | NothingToCopy                      // the "record is empty" notice
    | Copied(text: string, count: nat)   // clipboard text and the count reported

  class UnmatchedRegistry {
    /** The stored strings, each in the spelling first inserted. */
    var entries: seq<string>
    /** The set's keys: the stored strings up to case. */
    ghost var Keys: set<string>
    /** The text of the unmatched-files box. */
    var shown: string

    ghost predicate Valid()
      reads this
    {
      Keys == FoldKeys(entries) && NoFoldDuplicates(entries)
    }

    /** The box shows the current contents. */
    predicate DisplayCurrent()
      reads this
    {
      shown == ListText(entries)
    }

    constructor ()
      ensures Valid() && DisplayCurrent()
      ensures entries == [] && Keys == {}
    {
      entries := [];
      Keys := {};
      shown := "";
    }

    /** `HashSet.Add`: true exactly when no string equal ignoring case was stored. */
    method Add(term: string) returns (added: bool)
      requires Valid()
      modifies this`entries, this`Keys
      ensures Valid()
      ensures added <==> Lower(term) !in old(Keys)
      ensures Keys == old(Keys) + {Lower(term)}
      ensures entries == if added then old(entries) + [term] else old(entries)
    {
      added := forall i | 0 <= i < |entries| :: Lower(entries[i]) != Lower(term);
      if added {
        entries := entries + [term];
        Keys := Keys + {Lower(term)};
      }
    }

    /** `UpdateUnmatchedFilesDisplay`. */
    method UpdateDisplay()
      modifies this`shown
      ensures DisplayCurrent()
    {
      shown := Join(OrderBy(entries), NEW_LINE);
    }

    /** `AddUnmatchedFile`: record the term; the box is redrawn only when the set grew. */
    method AddUnmatchedFile(fileName: string) returns (added: bool)
      requires Valid() && DisplayCurrent()
      modifies this
      ensures Valid() && DisplayCurrent()
      ensures added <==> Lower(fileName) !in old(Keys)
      ensures Keys == old(Keys) + {Lower(fileName)}
      ensures entries == if added then old(entries) + [fileName] else old(entries)
      ensures !added ==> shown == old(shown)
    {
      added := Add(fileName);
      if added {
        UpdateDisplay();
      }
    }

    /** `HashSet.Clear` followed by clearing the box. */
    method ClearRecords()
      requires Valid()
      modifies this
      ensures Valid() && DisplayCurrent()
      ensures entries == [] && Keys == {} && shown == ""
    {
      entries := [];
      Keys := {};
      shown := "";
    }

    /**
     * The stored strings in ascending order: each key of the set is there exactly once, and the
     * number of lines is the size of the set.
     */
    function Export(): (lines: seq<string>)
      reads this
      requires Valid()
      ensures Sorted(lines)
      ensures multiset(lines) == multiset(entries)
      ensures FoldKeys(lines) == Keys
      ensures |lines| == |Keys|
    {
      OrderBySpec(entries);
      FoldKeysCount(entries);
      assert forall e :: e in OrderBy(entries) <==> e in entries by {
        forall e ensures e in OrderBy(entries) <==> e in entries {
          assert e in OrderBy(entries) <==> e in multiset(OrderBy(entries));
        }
      }
      assert |OrderBy(entries)| == |entries| by {
        assert |multiset(OrderBy(entries))| == |multiset(entries)|;
      }
      OrderBy(entries)
    }

    /** `CopyUnmatched_Click`: nothing to copy for an empty set, else the sorted list and its size. */
    function CopyUnmatched(): (r: CopyResult)
      reads this
      requires Valid()
      ensures r.NothingToCopy? <==> Keys == {}
      ensures r.Copied? ==> r.count == |Keys| && r.text == Join(Export(), NEW_LINE)
    {
      FoldKeysCount(entries);
      if |entries| == 0 then NothingToCopy
      else Copied(Join(OrderBy(entries), NEW_LINE), |entries|)
    }
  }
}
