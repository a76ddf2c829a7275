/** String operations with the meaning of the JavaScript built-ins the client
    relies on: `includes`, `indexOf`, `lastIndexOf`, `split`, `join`, `trim`,
    the `\s` character class and (for ASCII letters) `toLowerCase`. */
module Text {
  import opened Wrappers

  /** `pat` occurs in `s` starting at position `j`. */
  predicate OccursAt(s: string, pat: string, j: int)
  {
    0 <= j && j + |pat| <= |s| && s[j..j + |pat|] == pat
  }

  /** Occurrences in `s[1..]` are the occurrences in `s` shifted by one. */
  lemma OccursAtShift(s: string, pat: string)
    requires |s| > 0
    ensures forall k :: 1 <= k ==> (OccursAt(s, pat, k) <==> OccursAt(s[1..], pat, k - 1))
  {
    forall k | 1 <= k
      ensures OccursAt(s, pat, k) <==> OccursAt(s[1..], pat, k - 1)
    {
      if k + |pat| <= |s| {
        assert s[1..][k - 1..k - 1 + |pat|] == s[k..k + |pat|];
      }
    }
  }

  /** Occurrences in a prefix of `s` are the occurrences in `s` that end inside it. */
  lemma OccursAtPrefix(s: string, pat: string, n: nat)
    requires n <= |s|
    ensures forall j :: OccursAt(s[..n], pat, j) <==> (OccursAt(s, pat, j) && j + |pat| <= n)
  {
    forall j
      ensures OccursAt(s[..n], pat, j) <==> (OccursAt(s, pat, j) && j + |pat| <= n)
    {
      if 0 <= j && j + |pat| <= n {
        assert s[..n][j..j + |pat|] == s[j..j + |pat|];
      }
    }
  }

  /** Occurrences in a suffix of `s` are occurrences in `s`, shifted by where the suffix starts. */
  lemma OccursAtSuffix(s: string, pat: string, n: nat)
    requires n <= |s|
    ensures forall j :: OccursAt(s[n..], pat, j) ==> OccursAt(s, pat, j + n)
  {
    forall j | OccursAt(s[n..], pat, j)
      ensures OccursAt(s, pat, j + n)
    {
      assert s[n..][j..j + |pat|] == s[j + n..j + n + |pat|];
    }
  }

  /** `s.indexOf(pat)`: the first occurrence, `None` standing for -1. */
  function IndexOf(s: string, pat: string): (r: Option<nat>)
    ensures r.Some? ==> OccursAt(s, pat, r.value)
    ensures r.Some? ==> forall j :: 0 <= j < r.value ==> !OccursAt(s, pat, j)
    ensures r.None? ==> forall j :: !OccursAt(s, pat, j)
    decreases |s|
  {
    if |s| < |pat| then None
    else if s[..|pat|] == pat then Some(0)
    else
      OccursAtShift(s, pat);
      match IndexOf(s[1..], pat)
      case None => None
      case Some(i) => Some(i + 1)
  }

  /** `s.lastIndexOf(pat)`: the last occurrence, `None` standing for -1. */
  function LastIndexOf(s: string, pat: string): (r: Option<nat>)
    ensures r.Some? ==> OccursAt(s, pat, r.value)
    ensures r.Some? ==> forall j :: r.value < j ==> !OccursAt(s, pat, j)
    ensures r.None? ==> forall j :: !OccursAt(s, pat, j)
    decreases |s|
  {
    if |s| < |pat| then None
    else if s[|s| - |pat|..] == pat then Some(|s| - |pat|)
    else
      OccursAtPrefix(s, pat, |s| - 1);
      LastIndexOf(s[..|s| - 1], pat)
  }

  /** `s.includes(pat)`: `pat` occurs somewhere in `s`. */
  predicate Contains(s: string, pat: string)
  {
    exists j :: 0 <= j <= |s| && OccursAt(s, pat, j)
  }

  /** `includes` and `indexOf` agree: there is an occurrence exactly when the
      search finds one. */
  lemma ContainsIff(s: string, pat: string, j: int)
    ensures Contains(s, pat) <==> IndexOf(s, pat).Some?
    ensures OccursAt(s, pat, j) ==> Contains(s, pat)
  {
  }

  /** `parts.join(sep)`. */
  function Join(parts: seq<string>, sep: string): string
    decreases |parts|
  {
    if |parts| == 0 then ""
    else if |parts| == 1 then parts[0]
    else parts[0] + sep + Join(parts[1..], sep)
  }

  lemma {:induction false} JoinAppend(parts: seq<string>, last: string, sep: string)
    requires |parts| > 0
    ensures Join(parts + [last], sep) == Join(parts, sep) + sep + last
    decreases |parts|
  {
    if |parts| == 1 {
      assert parts + [last] == [parts[0], last];
      assert [parts[0], last][1..] == [last];
    } else {
      assert (parts + [last])[1..] == parts[1..] + [last];
      JoinAppend(parts[1..], last, sep);
    }
  }

  /** `s.split(sep)` for a non-empty separator: the pieces between successive
      non-overlapping occurrences, searched from left to right. Joining the
      pieces back with the separator gives `s` again, and the first piece ends
      where the FIRST occurrence starts (the later pieces are the split of what
      follows it). */
  function Split(s: string, sep: string): (parts: seq<string>)
    requires |sep| > 0
    ensures |parts| >= 1
    ensures Join(parts, sep) == s
    ensures |parts| >= 2 <==> Contains(s, sep)
    ensures forall k :: 0 <= k < |parts| ==> !Contains(parts[k], sep)
    ensures IndexOf(s, sep) == if |parts| == 1 then None else Some(|parts[0]|)
    decreases |s|
  {
    match IndexOf(s, sep)
    case None => [s]
    case Some(i) =>
      var rest := Split(s[i + |sep|..], sep);
      var parts := [s[..i]] + rest;
      OccursAtPrefix(s, sep, i);
      assert !Contains(s[..i], sep);
      assert parts[1..] == rest;
      assert s == s[..i] + sep + s[i + |sep|..];
      parts
  }

  // ---- whitespace, trimming and case ----

  /** The characters of JavaScript's `\s` class, which are also the ones
      `String.prototype.trim` removes: WhiteSpace and LineTerminator. */
  predicate IsSpace(c: char)
  {
    || c == ' ' || c == '\t' || c == '\n' || c == '\r'
    || c == '\U{000B}' || c == '\U{000C}' || c == '\U{00A0}' || c == '\U{1680}'
    || ('\U{2000}' <= c <= '\U{200A}')
    || c == '\U{2028}' || c == '\U{2029}' || c == '\U{202F}' || c == '\U{205F}'
    || c == '\U{3000}' || c == '\U{FEFF}'
  }

  predicate AllSpace(s: string)
  {
    forall i :: 0 <= i < |s| ==> IsSpace(s[i])
  }

  /** The end of the run of white space that starts at `i`. */
  function SpaceRunEnd(s: string, i: nat): (n: nat)
    requires i <= |s|
    ensures i <= n <= |s|
    ensures forall k :: i <= k < n ==> IsSpace(s[k])
    ensures n == |s| || !IsSpace(s[n])
    decreases |s| - i
  {
    if i < |s| && IsSpace(s[i]) then SpaceRunEnd(s, i + 1) else i
  }

  /** The start of the run of white space that ends at `j`. */
  function SpaceRunStart(s: string, j: nat): (n: nat)
    requires j <= |s|
    ensures n <= j
    ensures forall k :: n <= k < j ==> IsSpace(s[k])
    ensures n == 0 || !IsSpace(s[n - 1])
  {
    if j > 0 && IsSpace(s[j - 1]) then SpaceRunStart(s, j - 1) else j
  }

  /** The suffix of `s` left after dropping its leading white space. */
  function TrimStart(s: string): (r: string)
    ensures |r| <= |s| && r == s[|s| - |r|..]
    ensures AllSpace(s[..|s| - |r|])
    ensures r == [] || !IsSpace(r[0])
  {
    s[SpaceRunEnd(s, 0)..]
  }

  /** The prefix of `s` left after dropping its trailing white space. */
  function TrimEnd(s: string): (r: string)
    ensures |r| <= |s| && r == s[..|r|]
    ensures AllSpace(s[|r|..])
    ensures r == [] || !IsSpace(r[|r| - 1])
  {
    s[..SpaceRunStart(s, |s|)]
  }

  /** `s.trim()`. */
  function Trim(s: string): string
  {
    TrimEnd(TrimStart(s))
  }

  /** `!s.trim()`: nothing but white space. */
  predicate IsBlank(s: string)
  {
    AllSpace(s)
  }

  /** `!s.trim()` holds exactly for the blank strings: trimming empties a
      string exactly when every one of its characters is white space. */
  lemma BlankIffTrimEmpty(s: string)
    ensures IsBlank(s) <==> Trim(s) == ""
  {
    var t := TrimStart(s);
    if Trim(s) == "" {
      assert AllSpace(t[0..]);
      assert s == s[..|s| - |t|] + t;
    }
  }

  /** Trimming leaves a string that is empty or starts and ends with a
      non-space character. */
  lemma TrimEnds(s: string)
    ensures Trim(s) == [] || (!IsSpace(Trim(s)[0]) && !IsSpace(Trim(s)[|Trim(s)| - 1]))
  {
    var t := TrimStart(s);
    var r := TrimEnd(t);
    if r != [] {
      assert r[0] == t[0];
    }
  }

  /** The trimmed string sits in `s` right after the leading white space. */
  lemma TrimIsSlice(s: string)
    ensures |s| - |TrimStart(s)| + |Trim(s)| <= |s|
    ensures Trim(s) == s[|s| - |TrimStart(s)|..|s| - |TrimStart(s)| + |Trim(s)|]
  {
    var t := TrimStart(s);
    var a := |s| - |t|;
    assert t == s[a..] && Trim(s) == t[..|Trim(s)|];
    assert s[a..][..|Trim(s)|] == s[a..a + |Trim(s)|];
  }

  /** What follows the trimmed string in `s` is white space. */
  lemma TrimRightMargin(s: string)
    ensures |s| - |TrimStart(s)| + |Trim(s)| <= |s|
    ensures AllSpace(s[|s| - |TrimStart(s)| + |Trim(s)|..])
  {
    var t := TrimStart(s);
    var a := |s| - |t|;
    assert t == s[a..] && AllSpace(t[|Trim(s)|..]);
    assert s[a + |Trim(s)|..] == t[|Trim(s)|..];
  }

  /** Trimming leaves the part of the string between two white-space margins. */
  lemma TrimWithin(s: string)
    ensures var a := |s| - |TrimStart(s)|;
      a + |Trim(s)| <= |s| && Trim(s) == s[a..a + |Trim(s)|]
      && AllSpace(s[..a]) && AllSpace(s[a + |Trim(s)|..])
  {
    TrimIsSlice(s);
    TrimRightMargin(s);
  }

  /** `toLowerCase` restricted to ASCII letters; every other character is kept. */
  function LowerAscii(c: char): (d: char)
    ensures !('A' <= d <= 'Z')
    ensures 'A' <= c <= 'Z' ==> d as int == c as int + 32
    ensures !('A' <= c <= 'Z') ==> d == c
  {
    if 'A' <= c <= 'Z' then (c as int + 32) as char else c
  }
}
