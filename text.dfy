/** The Python string operations the orchestrator relies on: str.strip(),
    str.upper(), str.lower(), str.endswith(), the `in` substring test,
    os.path.basename() and str.rstrip("/"). Case mapping and whitespace are the
    ASCII ones. */
module Text {

  /** str.isspace() on the ASCII range: tab, line feed, vertical tab, form
      feed, carriage return, the four separators 0x1C..0x1F, and space. */
  predicate IsSpace(c: char)
  {
    c == ' ' || ('\t' <= c <= '\r') || ('\U{1C}' <= c <= '\U{1F}')
  }

  /** How many whitespace characters s starts with. */
  function LeadingSpaces(s: string): (n: nat)
    ensures n <= |s|
    ensures forall i :: 0 <= i < n ==> IsSpace(s[i])
    ensures n == |s| || !IsSpace(s[n])
  {
    if |s| > 0 && IsSpace(s[0]) then 1 + LeadingSpaces(s[1..]) else 0
  }

  /** How many whitespace characters s ends with. */
  function TrailingSpaces(s: string): (n: nat)
    ensures n <= |s|
    ensures forall i :: |s| - n <= i < |s| ==> IsSpace(s[i])
    ensures n == |s| || !IsSpace(s[|s| - n - 1])
  {
    if |s| > 0 && IsSpace(s[|s| - 1]) then 1 + TrailingSpaces(s[..|s| - 1]) else 0
  }

  /** str.lstrip() */
  function TrimStart(s: string): string
  {
    s[LeadingSpaces(s)..]
  }

  /** str.rstrip() */
  function TrimEnd(s: string): string
  {
    s[..|s| - TrailingSpaces(s)]
  }

  /** str.strip(): drop leading and trailing whitespace. */
  function Strip(s: string): string
  {
    TrimEnd(TrimStart(s))
  }

  /** Strip keeps a contiguous run of s that starts and ends with a
      non-space character, and removes only whitespace around it. */
  lemma StripSpec(s: string)
    ensures var k := LeadingSpaces(s);
      k + |Strip(s)| <= |s| && Strip(s) == s[k..k + |Strip(s)|]
    ensures Strip(s) == [] || (!IsSpace(Strip(s)[0]) && !IsSpace(Strip(s)[|Strip(s)| - 1]))
    ensures forall i :: 0 <= i < LeadingSpaces(s) ==> IsSpace(s[i])
    ensures forall i :: LeadingSpaces(s) + |Strip(s)| <= i < |s| ==> IsSpace(s[i])
  {
    var k := LeadingSpaces(s);
    var t := s[k..];
    var m := TrailingSpaces(t);
    StripIsSlice(s, k, t, m);
    StripEdges(s, k, t, m);
    StripDropsOnlySpace(s, k, t, m);
  }

  /** What Strip keeps is the slice of s after the leading whitespace. */
  lemma StripIsSlice(s: string, k: nat, t: string, m: nat)
    requires k == LeadingSpaces(s) && t == s[k..] && m == TrailingSpaces(t)
    ensures k + |t| - m <= |s| && |Strip(s)| == |t| - m && Strip(s) == s[k..k + |t| - m]
  {
    PrefixOfSuffix(s, k, |t| - m);
  }

  /** What Strip keeps neither starts nor ends with whitespace. */
  lemma StripEdges(s: string, k: nat, t: string, m: nat)
    requires k == LeadingSpaces(s) && t == s[k..] && m == TrailingSpaces(t)
    ensures Strip(s) == [] || (!IsSpace(Strip(s)[0]) && !IsSpace(Strip(s)[|Strip(s)| - 1]))
  {
    var r := t[..|t| - m];
    if r != [] {
      assert r[0] == s[k];
      assert r[|r| - 1] == t[|t| - m - 1];
    }
  }

  /** What Strip drops at the end is whitespace. */
  lemma StripDropsOnlySpace(s: string, k: nat, t: string, m: nat)
    requires k == LeadingSpaces(s) && t == s[k..] && m == TrailingSpaces(t)
    ensures forall i :: k + |t| - m <= i < |s| ==> IsSpace(s[i])
  {
    SpaceTailOfSuffix(s, k, m);
  }

  /** Whitespace at the end of the suffix s[k..] is whitespace at the end of s. */
  lemma SpaceTailOfSuffix(s: string, k: nat, m: nat)
    requires k + m <= |s|
    requires forall j :: |s| - k - m <= j < |s| - k ==> IsSpace(s[k..][j])
    ensures forall i :: |s| - m <= i < |s| ==> IsSpace(s[i])
  {
    forall i | |s| - m <= i < |s|
      ensures IsSpace(s[i])
    {
      assert s[i] == s[k..][i - k];
    }
  }

  /** Taking n characters of the suffix that starts at k is the slice [k, k + n). */
  lemma PrefixOfSuffix(s: string, k: int, n: int)
    requires 0 <= k && 0 <= n && k + n <= |s|
    ensures s[k..][..n] == s[k..k + n]
  {
  }

  /** Stripping twice is stripping once. */
  lemma StripIdempotent(s: string)
    ensures Strip(Strip(s)) == Strip(s)
  {
    StripSpec(s);
    StripOfTrimmed(Strip(s));
  }

  /** A string without whitespace at either end is its own strip. */
  lemma StripOfTrimmed(w: string)
    requires w == [] || (!IsSpace(w[0]) && !IsSpace(w[|w| - 1]))
    ensures Strip(w) == w
  {
    if w != [] {
      assert LeadingSpaces(w) == 0;
      assert TrailingSpaces(w) == 0;
    }
  }

  function UpperChar(c: char): char
  {
    if 'a' <= c <= 'z' then (c as int - 32) as char else c
  }

  function LowerChar(c: char): char
  {
    if 'A' <= c <= 'Z' then (c as int + 32) as char else c
  }

  /** str.upper() */
  function Upper(s: string): string
  {
    seq(|s|, i requires 0 <= i < |s| => UpperChar(s[i]))
  }

  /** str.lower() */
  function Lower(s: string): string
  {
    seq(|s|, i requires 0 <= i < |s| => LowerChar(s[i]))
  }

  /** A keyword of capital letters only. */
  predicate IsUpperWord(w: string)
  {
    forall i :: 0 <= i < |w| ==> 'A' <= w[i] <= 'Z'
  }

  /** Comparing Upper(s) with a capital keyword is a case-insensitive
      comparison: each character is the keyword's letter in either case. */
  lemma {:induction false} UpperEqualsWord(s: string, w: string)
    requires IsUpperWord(w)
    ensures Upper(s) == w <==>
      |s| == |w| && forall i :: 0 <= i < |s| ==> s[i] == w[i] || s[i] == LowerChar(w[i])
  {
    if Upper(s) == w {
      forall i | 0 <= i < |s|
        ensures s[i] == w[i] || s[i] == LowerChar(w[i])
      {
        assert UpperChar(s[i]) == w[i];
      }
    }
    if |s| == |w| && forall i :: 0 <= i < |s| ==> s[i] == w[i] || s[i] == LowerChar(w[i]) {
      forall i | 0 <= i < |s|
        ensures Upper(s)[i] == w[i]
      {
        assert s[i] == w[i] || s[i] == LowerChar(w[i]);
      }
    }
  }

  /** str.endswith(suffix) */
  predicate EndsWith(s: string, suffix: string)
  {
    |suffix| <= |s| && s[|s| - |suffix|..] == suffix
  }

  /** `sub in s` for strings: sub occurs somewhere in s. */
  predicate Contains(s: string, sub: string)
  {
    sub <= s || (|s| > 0 && Contains(s[1..], sub))
  }

  /** sub occurs in s starting at index k. */
  predicate OccursAt(s: string, sub: string, k: int)
  {
    0 <= k && k + |sub| <= |s| && s[k..k + |sub|] == sub
  }

  /** Contains is the usual substring relation. */
  lemma ContainsSpec(s: string, sub: string)
    ensures Contains(s, sub) <==> exists k :: OccursAt(s, sub, k)
  {
    if Contains(s, sub) {
      var k := ContainsWitness(s, sub);
    }
    if exists k :: OccursAt(s, sub, k) {
      var k :| OccursAt(s, sub, k);
      OccurrenceIsContained(s, sub, k);
    }
  }

  /** Where Contains finds sub: the first position it occurs at. */
  lemma {:induction false} ContainsWitness(s: string, sub: string) returns (k: int)
    requires Contains(s, sub)
    ensures OccursAt(s, sub, k)
    decreases |s|
  {
    if sub <= s {
      k := 0;
      assert s[..|sub|] == sub;
    } else {
      var j := ContainsWitness(s[1..], sub);
      SliceOfTail(s, j, |sub|);
      k := j + 1;
    }
  }

  /** A slice of s[1..] is the slice of s one position later. */
  lemma SliceOfTail(s: string, j: int, n: int)
    requires |s| > 0 && 0 <= j && 0 <= n && j + n <= |s| - 1
    ensures s[1..][j..j + n] == s[j + 1..j + 1 + n]
  {
  }

  /** Any occurrence of sub makes Contains true. */
  lemma {:induction false} OccurrenceIsContained(s: string, sub: string, k: int)
    requires OccursAt(s, sub, k)
    ensures Contains(s, sub)
    decreases k
  {
    if k == 0 {
      assert s[..|sub|] == sub;
    } else {
      SliceOfTail(s, k - 1, |sub|);
      OccurrenceIsContained(s[1..], sub, k - 1);
    }
  }

  /** os.path.basename(): the part after the last '/'. */
  function Basename(p: string): (r: string)
    ensures '/' !in r
    ensures EndsWith(p, r)
    ensures |r| < |p| ==> p[|p| - |r| - 1] == '/'
  {
    if |p| == 0 then ""
    else if p[|p| - 1] == '/' then ""
    else Basename(p[..|p| - 1]) + [p[|p| - 1]]
  }

  /** str.rstrip("/") */
  function RStripSlash(s: string): (r: string)
    ensures |r| <= |s| && r == s[..|r|]
    ensures r == [] || r[|r| - 1] != '/'
    ensures forall i :: |r| <= i < |s| ==> s[i] == '/'
  {
    if |s| > 0 && s[|s| - 1] == '/' then RStripSlash(s[..|s| - 1]) else s
  }

  /** f"{base_url.rstrip('/')}/static/{os.path.basename(path)}": where the
      app's static mount serves a file of the temporary directory. */
  function PublicUrl(baseUrl: string, path: string): string
  {
    RStripSlash(baseUrl) + "/static/" + Basename(path)
  }

  /** The public URL always names the file itself and is never empty. */
  lemma PublicUrlShape(baseUrl: string, path: string)
    ensures PublicUrl(baseUrl, path) != ""
    ensures EndsWith(PublicUrl(baseUrl, path), Basename(path))
    ensures EndsWith(path, Basename(path))
  {
  }

  /** Leading whitespace is dropped one character at a time. */
  lemma TrimStartSkipsSpace(c: char, w: string)
    requires IsSpace(c)
    ensures TrimStart([c] + w) == TrimStart(w)
  {
    assert ([c] + w)[1..] == w;
    assert LeadingSpaces([c] + w) == 1 + LeadingSpaces(w);
  }

  /** Trailing whitespace is dropped one character at a time. */
  lemma TrimEndSkipsSpace(w: string, c: char)
    requires IsSpace(c)
    ensures TrimEnd(w + [c]) == TrimEnd(w)
  {
    assert (w + [c])[..|w|] == w;
    assert TrailingSpaces(w + [c]) == 1 + TrailingSpaces(w);
  }

  /** Blanks around a word are stripped: " Post " and "Post" give the
      same command. */
  lemma PaddingIsStripped(w: string)
    requires w != [] && !IsSpace(w[0]) && !IsSpace(w[|w| - 1])
    ensures Strip([' '] + w + [' ']) == w
  {
    assert [' '] + w + [' '] == [' '] + (w + [' ']);
    TrimStartSkipsSpace(' ', w + [' ']);
    assert LeadingSpaces(w + [' ']) == 0;
    TrimEndSkipsSpace(w, ' ');
    assert TrailingSpaces(w) == 0;
  }

  /** "post" strips and upper-cases to the publish keyword. */
  lemma LowerPostIsPublish()
    ensures Upper(Strip("post")) == "POST"
  {
    StripOfTrimmed("post");
    UpperEqualsWord("post", "POST");
  }

  /** "Cancel" followed by a newline is the English cancel keyword. */
  lemma MixedCaseCancel()
    ensures Upper(Strip("Cancel\n")) == "CANCEL"
  {
    assert "Cancel\n" == "Cancel" + ['\n'];
    assert LeadingSpaces("Cancel\n") == 0;
    TrimEndSkipsSpace("Cancel", '\n');
    assert TrailingSpaces("Cancel") == 0;
    UpperEqualsWord("Cancel", "CANCEL");
  }
}
