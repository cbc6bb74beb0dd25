/** The .NET string operations the core uses, on `seq<char>`: the ordinal
    suffix test, `Trim`/`TrimStart`/`TrimEnd` of one character, `OrdinalIgnoreCase`
    comparison as equality after an ASCII case fold, `ToUpper` on ASCII letters,
    ordinal `Replace`, and string interpolation of a possibly-null value. */
module Text {
  import opened Wrappers

  /** `$"{x}"`: a null `x` renders as the empty string. */
  function Interpolated(x: Option<string>): string {
    x.GetOr("")
  }

  /** Ordinal `s.EndsWith(suffix)`. */
  predicate EndsWith(s: string, suffix: string) {
    |suffix| <= |s| && s[|s| - |suffix|..] == suffix
  }

  /** `pat` occurs in `s` starting at index `i`. */
  predicate MatchAt(s: string, i: nat, pat: string) {
    i + |pat| <= |s| && s[i..i + |pat|] == pat
  }

  // ---------------------------------------------------------------------------
  // Trimming one character

  /** `s.TrimStart(c)`: the longest suffix of `s` that does not start with `c`,
      obtained by removing only copies of `c`. */
  function TrimStart(s: string, c: char): (r: string)
    ensures |r| <= |s| && r == s[|s| - |r|..]
    ensures r == [] || r[0] != c
    ensures forall i :: 0 <= i < |s| - |r| ==> s[i] == c
    decreases |s|
  {
    if |s| > 0 && s[0] == c then TrimStart(s[1..], c) else s
  }

  /** `s.TrimEnd(c)`: the longest prefix of `s` that does not end with `c`,
      obtained by removing only copies of `c`. */
  function TrimEnd(s: string, c: char): (r: string)
    ensures |r| <= |s| && r == s[..|r|]
    ensures r == [] || r[|r| - 1] != c
    ensures forall i :: |r| <= i < |s| ==> s[i] == c
    decreases |s|
  {
    if |s| > 0 && s[|s| - 1] == c then TrimEnd(s[..|s| - 1], c) else s
  }

  /** `s.Trim(c)`: the slice of `s` left when copies of `c` are removed at both ends. */
  function Trim(s: string, c: char): (r: string)
    ensures |r| <= |s|
    ensures r == [] || (r[0] != c && r[|r| - 1] != c)
    ensures exists k :: TrimmedAt(s, c, r, k)
  {
    var t := TrimStart(s, c);
    var r := TrimEnd(t, c);
    assert TrimmedAt(s, c, r, |s| - |t|);
    r
  }

  /** `r` is the slice of `s` starting at `k`, and every character of `s` outside it is `c`. */
  predicate TrimmedAt(s: string, c: char, r: string, k: nat) {
    && k + |r| <= |s| && r == s[k..k + |r|]
    && (forall i :: 0 <= i < k ==> s[i] == c)
    && (forall i :: k + |r| <= i < |s| ==> s[i] == c)
  }

  /** A string that does not end with `c` is left alone by `TrimEnd`. */
  lemma TrimEndKeeps(s: string, c: char)
    requires s == [] || s[|s| - 1] != c
    ensures TrimEnd(s, c) == s
  {
  }

  /** A string that does not start with `c` is left alone by `TrimStart`. */
  lemma TrimStartKeeps(s: string, c: char)
    requires s == [] || s[0] != c
    ensures TrimStart(s, c) == s
  {
  }

  /** Trimming the front of a concatenation: once the first part has a character
      other than `c`, the second part is kept whole. */
  lemma {:induction false} TrimStartConcat(a: string, b: string, c: char)
    ensures TrimStart(a + b, c) == if TrimStart(a, c) == [] then TrimStart(b, c) else TrimStart(a, c) + b
    decreases |a|
  {
    if a == [] {
      assert a + b == b;
    } else if a[0] == c {
      assert (a + b)[1..] == a[1..] + b;
      TrimStartConcat(a[1..], b, c);
    }
  }

  /** One extra `c` at the end of the input does not change `TrimEnd`. */
  lemma TrimEndExtra(s: string, c: char)
    ensures TrimEnd(s + [c], c) == TrimEnd(s, c)
  {
  }

  /** `Trim` does not see copies of `c` added around its input. */
  lemma TrimIgnoresSurrounding(s: string, c: char)
    ensures Trim([c] + s + [c], c) == Trim(s, c)
  {
    assert ([c] + s + [c])[1..] == s + [c];
    TrimStartConcat(s, [c], c);
    if TrimStart(s, c) != [] {
      TrimEndExtra(TrimStart(s, c), c);
    }
  }

  // ---------------------------------------------------------------------------
  // Case

  /** ASCII lower-casing of one character. */
  function FoldChar(ch: char): char {
    if 'A' <= ch <= 'Z' then (ch as int - 'A' as int + 'a' as int) as char else ch
  }

  /** ASCII upper-casing of one character. */
  function UpperChar(ch: char): char {
    if 'a' <= ch <= 'z' then (ch as int - 'a' as int + 'A' as int) as char else ch
  }

  /** The case-folded form of `s`, the key of an `OrdinalIgnoreCase` comparison. */
  function Fold(s: string): string {
    seq(|s|, i requires 0 <= i < |s| => FoldChar(s[i]))
  }

  /** `s.ToUpper()` on ASCII letters. */
  function ToUpperAscii(s: string): string {
    seq(|s|, i requires 0 <= i < |s| => UpperChar(s[i]))
  }

  /** `string.Equals(a, b, StringComparison.OrdinalIgnoreCase)`. */
  predicate EqualsIgnoreCase(a: string, b: string) {
    Fold(a) == Fold(b)
  }

  /** `s.StartsWith(prefix, StringComparison.OrdinalIgnoreCase)`. */
  predicate StartsWithIgnoreCase(s: string, prefix: string) {
    |prefix| <= |s| && EqualsIgnoreCase(s[..|prefix|], prefix)
  }

  /** Case-insensitive equality is equality of lengths and of every folded character. */
  lemma EqualsIgnoreCaseCharwise(a: string, b: string)
    ensures EqualsIgnoreCase(a, b) <==> |a| == |b| && forall i :: 0 <= i < |a| ==> FoldChar(a[i]) == FoldChar(b[i])
  {
    if |a| == |b| && forall i :: 0 <= i < |a| ==> FoldChar(a[i]) == FoldChar(b[i]) {
      assert forall i :: 0 <= i < |a| ==> Fold(a)[i] == Fold(b)[i];
    }
    if EqualsIgnoreCase(a, b) {
      assert |Fold(a)| == |a| && |Fold(b)| == |b|;
      assert forall i :: 0 <= i < |a| ==> Fold(a)[i] == FoldChar(a[i]);
    }
  }

  // ---------------------------------------------------------------------------
  // Replace

  /** Ordinal `s.Replace(pat, rep)`: every occurrence of `pat`, found left to right
      without overlaps, is replaced by `rep`. */
  function ReplaceAll(s: string, pat: string, rep: string): (r: string)
    requires |pat| > 0
    ensures (forall i :: 0 <= i < |s| ==> !MatchAt(s, i, pat)) ==> r == s
    decreases |s|
  {
    if |s| < |pat| then s
    else if s[..|pat|] == pat then
      assert MatchAt(s, 0, pat);
      rep + ReplaceAll(s[|pat|..], pat, rep)
    else
      assert forall i :: 0 <= i < |s| - 1 ==> MatchAt(s[1..], i, pat) == MatchAt(s, i + 1, pat);
      [s[0]] + ReplaceAll(s[1..], pat, rep)
  }

  /** Occurrences in the tail of a string are the occurrences one position further on. */
  lemma MatchAtTail(u: string, i: nat, pat: string)
    requires |u| > 0
    ensures MatchAt(u[1..], i, pat) == MatchAt(u, i + 1, pat)
  {
  }

  /** Where no occurrence starts at the front, the first character is copied. */
  lemma ReplaceAllCopiesFirst(u: string, pat: string, rep: string)
    requires |pat| > 0 && |u| >= |pat| && !MatchAt(u, 0, pat)
    ensures ReplaceAll(u, pat, rep) == [u[0]] + ReplaceAll(u[1..], pat, rep)
  {
    assert u[0..|pat|] == u[..|pat|];
  }

  /** A prefix in which no occurrence of `pat` starts passes through `ReplaceAll` unchanged. */
  lemma {:induction false} ReplaceAllAfterCleanPrefix(s: string, t: string, pat: string, rep: string)
    requires |pat| > 0
    requires forall i :: 0 <= i < |s| ==> !MatchAt(s + t, i, pat)
    ensures ReplaceAll(s + t, pat, rep) == s + ReplaceAll(t, pat, rep)
    decreases |s|
  {
    var u := s + t;
    if s == [] {
      assert u == t;
    } else if |u| < |pat| {
      assert ReplaceAll(t, pat, rep) == t;
    } else {
      ReplaceAllCopiesFirst(u, pat, rep);
      assert u[1..] == s[1..] + t;
      forall i | 0 <= i < |s| - 1
        ensures !MatchAt(s[1..] + t, i, pat)
      {
        MatchAtTail(u, i, pat);
      }
      ReplaceAllAfterCleanPrefix(s[1..], t, pat, rep);
      assert s == [u[0]] + s[1..];
    }
  }

  /** The first occurrence, found left to right, is replaced, and scanning resumes after
      it: an occurrence that overlaps the replaced one is not replaced. */
  lemma ReplaceAllFirstOccurrence(a: string, b: string, pat: string, rep: string)
    requires |pat| > 0
    requires forall i :: 0 <= i < |a| ==> !MatchAt(a + pat + b, i, pat)
    ensures ReplaceAll(a + pat + b, pat, rep) == a + rep + ReplaceAll(b, pat, rep)
  {
    assert a + pat + b == a + (pat + b);
    ReplaceAllAfterCleanPrefix(a, pat + b, pat, rep);
    assert (pat + b)[..|pat|] == pat && (pat + b)[|pat|..] == b;
  }

  // ---------------------------------------------------------------------------
  // Separated segments (used to state the structure of connection strings)

  /** `parts` each followed by `sep`, concatenated. */
  function Terminated(parts: seq<string>, sep: char): string
    decreases |parts|
  {
    if parts == [] then "" else parts[0] + [sep] + Terminated(parts[1..], sep)
  }

  /** One part, terminated. */
  lemma TerminatedSingle(p: string, sep: char)
    ensures Terminated([p], sep) == p + [sep]
  {
  }

  /** Terminating two lists of parts one after the other. */
  lemma {:induction false} TerminatedConcat(a: seq<string>, b: seq<string>, sep: char)
    ensures Terminated(a + b, sep) == Terminated(a, sep) + Terminated(b, sep)
    decreases |a|
  {
    if a == [] {
      assert a + b == b;
    } else {
      assert (a + b)[1..] == a[1..] + b;
      TerminatedConcat(a[1..], b, sep);
    }
  }

  /** Terminating a part that holds `sep` is terminating its two halves. */
  lemma TerminatedSplitPart(pre: seq<string>, p: string, q: string, post: seq<string>, sep: char)
    ensures Terminated(pre + [p + [sep] + q] + post, sep) == Terminated(pre + [p, q] + post, sep)
  {
    var x := p + [sep] + q;
    TerminatedConcat(pre + [x], post, sep);
    TerminatedConcat(pre, [x], sep);
    TerminatedConcat(pre + [p, q], post, sep);
    TerminatedConcat(pre, [p, q], sep);
    TerminatedSingle(x, sep);
    assert [p, q] == [p] + [q];
    TerminatedConcat([p], [q], sep);
    TerminatedSingle(p, sep);
    TerminatedSingle(q, sep);
  }

  /** `s.Split(sep)`: the maximal pieces between occurrences of `sep`. */
  function SplitOn(s: string, sep: char): (r: seq<string>)
    ensures |r| >= 1
    ensures forall k :: 0 <= k < |r| ==> sep !in r[k]
    decreases |s|
  {
    if s == [] then [[]]
    else
      var rest := SplitOn(s[1..], sep);
      if s[0] == sep then [[]] + rest else [[s[0]] + rest[0]] + rest[1..]
  }

  /** A string free of `sep` is one piece. */
  lemma {:induction false} SplitOnNoSep(s: string, sep: char)
    requires sep !in s
    ensures SplitOn(s, sep) == [s]
    decreases |s|
  {
    if s != [] {
      SplitOnNoSep(s[1..], sep);
      assert [s[0]] + s[1..] == s;
    }
  }

  /** Splitting at one occurrence of `sep`. */
  lemma {:induction false} SplitOnConcat(a: string, b: string, sep: char)
    ensures SplitOn(a + [sep] + b, sep) == SplitOn(a, sep) + SplitOn(b, sep)
    decreases |a|
  {
    if a == [] {
      assert a + [sep] + b == [sep] + b;
      assert ([sep] + b)[1..] == b;
    } else {
      assert (a + [sep] + b)[1..] == a[1..] + [sep] + b;
      SplitOnConcat(a[1..], b, sep);
    }
  }

  /** Splitting a terminated list recovers the parts, plus the empty piece after the
      last `sep`, exactly when no part contains `sep`. */
  lemma {:induction false} SplitTerminated(parts: seq<string>, sep: char)
    requires forall k :: 0 <= k < |parts| ==> sep !in parts[k]
    ensures SplitOn(Terminated(parts, sep), sep) == parts + [""]
    decreases |parts|
  {
    if parts != [] {
      SplitTerminated(parts[1..], sep);
      SplitOnConcat(parts[0], Terminated(parts[1..], sep), sep);
      SplitOnNoSep(parts[0], sep);
      assert parts == [parts[0]] + parts[1..];
    }
  }
}
