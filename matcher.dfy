/**
 * The file filter of `SearchAndSelectFile`: of the paths `Directory.GetFiles`
 * enumerates, keep those whose file name without extension equals the cell
 * text under ordinal case-insensitive comparison, in enumeration order.
 */
module Matcher {
  import opened Text
  import opened Paths

  /** LINQ `Where` followed by `ToList`: the elements `keep` accepts, in their order. */
  function Where(s: seq<string>, keep: string -> bool): seq<string>
  {
    if s == [] then []
    else (if keep(s[0]) then [s[0]] else []) + Where(s[1..], keep)
  }

  /** `sub` is obtained from `s` by deleting elements, without reordering the rest. */
  predicate IsSubsequence(sub: seq<string>, s: seq<string>)
  {
    if sub == [] then true
    else if s == [] then false
    else if sub[0] == s[0] then IsSubsequence(sub[1..], s[1..])
    else IsSubsequence(sub, s[1..])
  }

  lemma {:induction false} WhereMembership(s: seq<string>, keep: string -> bool)
    ensures forall x :: x in Where(s, keep) <==> x in s && keep(x)
  {
    if s != [] {
      WhereMembership(s[1..], keep);
      assert s == [s[0]] + s[1..];
    }
  }

  lemma {:induction false} WhereOccurrences(s: seq<string>, keep: string -> bool)
    ensures forall x :: multiset(Where(s, keep))[x] == if keep(x) then multiset(s)[x] else 0
  {
    if s != [] {
      WhereOccurrences(s[1..], keep);
      assert s == [s[0]] + s[1..];
    }
  }

  lemma {:induction false} WhereIsSubsequence(s: seq<string>, keep: string -> bool)
    ensures IsSubsequence(Where(s, keep), s)
  {
    if s != [] {
      WhereIsSubsequence(s[1..], keep);
      var rest := Where(s[1..], keep);
      if keep(s[0]) {
        assert ([s[0]] + rest)[1..] == rest;
      } else if rest != [] {
        WhereMembership(s[1..], keep);
        assert rest[0] in rest;
        assert Where(s, keep) == rest;
      }
    }
  }

  lemma {:induction false} WhereCongruent(s: seq<string>, p: string -> bool, q: string -> bool)
    requires forall x :: x in s ==> p(x) == q(x)
    ensures Where(s, p) == Where(s, q)
  {
    if s != [] {
      WhereCongruent(s[1..], p, q);
    }
  }

  /** Whether the file at `path` is a match for the search term. */
  predicate StemMatches(path: string, term: string)
  {
    EqualsIgnoreCase(Stem(path), term)
  }

  /** The matches among the enumerated files, in enumeration order. */
  function MatchFiles(listing: seq<string>, term: string): seq<string>
  {
    Where(listing, f => StemMatches(f, term))
  }

  /**
   * The matches are exactly the enumerated files whose stem matches the term: every occurrence
   * of such a path is kept, nothing else is, and the enumeration order is preserved.
   */
  lemma MatchIsStemFilter(listing: seq<string>, term: string)
    ensures forall f :: f in MatchFiles(listing, term) <==> f in listing && StemMatches(f, term)
    ensures forall f :: multiset(MatchFiles(listing, term))[f]
                     == if StemMatches(f, term) then multiset(listing)[f] else 0
    ensures IsSubsequence(MatchFiles(listing, term), listing)
  {
    WhereMembership(listing, f => StemMatches(f, term));
    WhereOccurrences(listing, f => StemMatches(f, term));
    WhereIsSubsequence(listing, f => StemMatches(f, term));
  }

  /** Changing the case of the search term changes nothing. */
  lemma MatchIgnoresTermCase(listing: seq<string>, term: string, other: string)
    requires EqualsIgnoreCase(term, other)
    ensures MatchFiles(listing, term) == MatchFiles(listing, other)
  {
    WhereCongruent(listing, f => StemMatches(f, term), f => StemMatches(f, other));
  }

  /** Two files of one stem in one directory match or fail together, whatever their extensions. */
  lemma ExtensionIrrelevant(dir: string, stem: string, ext1: string, ext2: string, term: string)
    requires NoSeparator(stem) && NoSeparator(ext1) && NoSeparator(ext2)
    requires forall i :: 0 <= i < |ext1| ==> !IsDot(ext1[i])
    requires forall i :: 0 <= i < |ext2| ==> !IsDot(ext2[i])
    ensures StemMatches(Combine(dir, stem + "." + ext1), term)
        <==> StemMatches(Combine(dir, stem + "." + ext2), term)
    ensures StemMatches(Combine(dir, stem + "." + ext1), term) <==> EqualsIgnoreCase(stem, term)
  {
    StemOfCombined(dir, stem, ext1);
    StemOfCombined(dir, stem, ext2);
  }
}
