/**
 * String operations the locator relies on from the .NET base library,
 * written out over `seq<char>`: ASCII case folding (standing in for
 * `ToLower` and `StringComparison.OrdinalIgnoreCase`), `Char.IsWhiteSpace`,
 * `TrimEnd`, `StartsWith`, `Replace` and `string.Join`.
 */
module Text {

  /** `Environment.NewLine` on Windows. */
  const NEW_LINE: string := "\r\n"

  function LowerChar(c: char): char
  {
    if 'A' <= c <= 'Z' then (c as int + 32) as char else c
  }

  /** Case folding of a whole string, one character at a time. */
  function Lower(s: string): string
  {
    seq(|s|, i requires 0 <= i < |s| => LowerChar(s[i]))
  }

  /** Ordinal comparison ignoring case. */
  predicate EqualsIgnoreCase(a: string, b: string)
  {
    Lower(a) == Lower(b)
  }

  lemma LowerIdempotent(s: string)
    ensures Lower(Lower(s)) == Lower(s)
  {
  }

  /** The characters `Char.IsWhiteSpace` accepts (Unicode category Zs, Zl, Zp and the control
      characters TAB, LF, VT, FF, CR, NEL). */
  predicate IsWhiteSpace(c: char)
  {
    var n := c as int;
    (0x09 <= n <= 0x0D) || n == 0x20 || n == 0x85 || n == 0xA0 || n == 0x1680
    || (0x2000 <= n <= 0x200A) || n == 0x2028 || n == 0x2029 || n == 0x202F
    || n == 0x205F || n == 0x3000
  }

  /** `string.IsNullOrWhiteSpace` for a non-null string: true also of the empty string. */
  predicate IsBlank(s: string)
  {
    forall i :: 0 <= i < |s| ==> IsWhiteSpace(s[i])
  }

  /** `s.TrimEnd(c)`: removes every trailing occurrence of `c`. */
  function TrimEnd(s: string, c: char): string
  {
    if |s| > 0 && s[|s| - 1] == c then TrimEnd(s[..|s| - 1], c) else s
  }

  lemma TrimEndOfAppended(s: string, c: char)
    ensures TrimEnd(s + [c], c) == TrimEnd(s, c)
  {
    assert (s + [c])[..|s|] == s;
  }

  /** Trimming a separator commutes with case folding, because the separator is not a letter. */
  lemma {:induction false} LowerTrimEnd(s: string, c: char)
    requires LowerChar(c) == c && !('a' <= c <= 'z')
    ensures Lower(TrimEnd(s, c)) == TrimEnd(Lower(s), c)
  {
    if |s| > 0 && s[|s| - 1] == c {
      assert Lower(s)[..|s| - 1] == Lower(s[..|s| - 1]);
      LowerTrimEnd(s[..|s| - 1], c);
    } else if |s| > 0 {
      assert Lower(s)[|s| - 1] != c;
    }
  }

  /** Ordinal `s.StartsWith(p)`. */
  predicate StartsWith(s: string, p: string)
  {
    |p| <= |s| && s[..|p|] == p
  }

  predicate OccursAt(s: string, pat: string, k: int)
  {
    0 <= k <= |s| - |pat| && s[k..k + |pat|] == pat
  }

  /** Whether `pat` occurs anywhere in `s`. */
  predicate Contains(s: string, pat: string)
  {
    exists k | 0 <= k <= |s| - |pat| :: OccursAt(s, pat, k)
  }

  /** `s.Replace(pat, rep)`: every non-overlapping occurrence of `pat`, scanning left to right. */
  function ReplaceAll(s: string, pat: string, rep: string): string
    requires |pat| > 0
    decreases |s|
  {
    if |s| < |pat| then s
    else if s[..|pat|] == pat then rep + ReplaceAll(s[|pat|..], pat, rep)
    else [s[0]] + ReplaceAll(s[1..], pat, rep)
  }

  /** A string in which the pattern does not occur is left as it is. */
  lemma {:induction false} ReplaceAllAbsent(s: string, pat: string, rep: string)
    requires |pat| > 0 && !Contains(s, pat)
    ensures ReplaceAll(s, pat, rep) == s
  {
    if |s| >= |pat| {
      assert !OccursAt(s, pat, 0);
      assert !Contains(s[1..], pat) by {
        forall k | OccursAt(s[1..], pat, k)
          ensures false
        {
          assert s[1..][k..k + |pat|] == s[k + 1..k + 1 + |pat|];
          assert OccursAt(s, pat, k + 1);
        }
      }
      ReplaceAllAbsent(s[1..], pat, rep);
    }
  }

  /** `s.Replace(a, b)` for characters. */
  function ReplaceChar(s: string, a: char, b: char): string
  {
    seq(|s|, i requires 0 <= i < |s| => if s[i] == a then b else s[i])
  }

  /** `string.Join(sep, lines)`. */
  function Join(lines: seq<string>, sep: string): string
  {
    if |lines| == 0 then ""
    else if |lines| == 1 then lines[0]
    else lines[0] + sep + Join(lines[1..], sep)
  }

  function CountChar(s: string, c: char): nat
  {
    if |s| == 0 then 0 else (if s[0] == c then 1 else 0) + CountChar(s[1..], c)
  }

  lemma {:induction false} CountCharAppend(a: string, b: string, c: char)
    ensures CountChar(a + b, c) == CountChar(a, c) + CountChar(b, c)
  {
    if |a| > 0 {
      assert (a + b)[1..] == a[1..] + b;
      CountCharAppend(a[1..], b, c);
    } else {
      assert a + b == b;
    }
  }

  /**
   * Joining lines that hold no line feed with `Environment.NewLine` gives a text of exactly
   * `|lines|` lines: one line feed between each pair of neighbours and none elsewhere.
   */
  lemma {:induction false} JoinLineCount(lines: seq<string>)
    requires |lines| > 0
    requires forall i :: 0 <= i < |lines| ==> CountChar(lines[i], '\n') == 0
    ensures CountChar(Join(lines, NEW_LINE), '\n') == |lines| - 1
  {
    if |lines| > 1 {
      JoinLineCount(lines[1..]);
      CountCharAppend(lines[0] + NEW_LINE, Join(lines[1..], NEW_LINE), '\n');
      CountCharAppend(lines[0], NEW_LINE, '\n');
    }
  }
}
