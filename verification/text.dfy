/** String helpers with the meaning JavaScript gives them: the `\s` character class,
    `String.prototype.trim`, `split(/\s+/)` and `Array.prototype.join`, together with
    independent reference definitions (`Words`, `Unjoin`) that the lemmas relate them to. */
module Text {

  /** JavaScript's `\s`: the WhiteSpace and LineTerminator code points of ECMAScript 2015+.
      `trim` removes exactly the same set. */
  predicate IsSpace(c: char) {
    || c == '\t' || c == '\n' || c == '\U{000B}' || c == '\U{000C}' || c == '\r' || c == ' '
    || c == '\U{00A0}' || c == '\U{1680}' || ('\U{2000}' <= c <= '\U{200A}')
    || c == '\U{2028}' || c == '\U{2029}' || c == '\U{202F}' || c == '\U{205F}'
    || c == '\U{3000}' || c == '\U{FEFF}'
  }

  predicate NoSpace(s: string) {
    forall i :: 0 <= i < |s| ==> !IsSpace(s[i])
  }

  predicate AllSpace(s: string) {
    forall i :: 0 <= i < |s| ==> IsSpace(s[i])
  }

  /** Length of the maximal run of whitespace at the start of `s`. */
  function LeadingSpaces(s: string): (n: nat)
    ensures n <= |s|
    ensures AllSpace(s[..n])
    ensures n < |s| ==> !IsSpace(s[n])
  {
    if s == [] || !IsSpace(s[0]) then 0 else 1 + LeadingSpaces(s[1..])
  }

  /** Length of the maximal run of whitespace at the end of `s`. */
  function TrailingSpaces(s: string): (n: nat)
    ensures n <= |s|
    ensures AllSpace(s[|s| - n..])
    ensures n < |s| ==> !IsSpace(s[|s| - n - 1])
  {
    SpacesBefore(s, |s|)
  }

  /** Length of the maximal run of whitespace ending just before index `e`. */
  function SpacesBefore(s: string, e: nat): (n: nat)
    requires e <= |s|
    ensures n <= e
    ensures forall i :: e - n <= i < e ==> IsSpace(s[i])
    ensures n < e ==> !IsSpace(s[e - n - 1])
    decreases e
  {
    if e == 0 || !IsSpace(s[e - 1]) then 0 else 1 + SpacesBefore(s, e - 1)
  }

  /** Length of the maximal whitespace-free prefix of `s`: the index of its first whitespace. */
  function NonSpacePrefix(s: string): (n: nat)
    ensures n <= |s|
    ensures NoSpace(s[..n])
    ensures n < |s| ==> IsSpace(s[n])
  {
    if s == [] || IsSpace(s[0]) then 0 else 1 + NonSpacePrefix(s[1..])
  }

  /** `String.prototype.trim`: whitespace removed from both ends. */
  function Trim(s: string): (r: string)
    ensures r == [] <==> AllSpace(s)
    ensures r != [] ==> !IsSpace(r[0]) && !IsSpace(r[|r| - 1])
  {
    var t := TrimStart(s);
    TrimEnd(t)
  }

  /** `String.prototype.trimStart`. */
  function TrimStart(s: string): (r: string)
    ensures r == [] <==> AllSpace(s)
    ensures r != [] ==> !IsSpace(r[0])
  {
    var a := LeadingSpaces(s);
    assert s == s[..a] + s[a..];
    s[a..]
  }

  /** `String.prototype.trimEnd`. */
  function TrimEnd(s: string): (r: string)
    ensures r == [] <==> AllSpace(s)
    ensures r != [] ==> r[0] == s[0] && !IsSpace(r[|r| - 1])
  {
    s[..|s| - TrailingSpaces(s)]
  }

  /** `s.split(/\s+/)`: the pieces between maximal whitespace runs. Leading or trailing
      whitespace produces an empty first or last piece, and the empty string gives `[""]`. */
  function SplitOnSpaceRuns(s: string): seq<string>
    decreases |s|
  {
    if NonSpacePrefix(s) == |s| then [s]
    else [FirstPiece(s)] + SplitOnSpaceRuns(AfterFirstRun(s))
  }

  /** The text before the first whitespace character. */
  function FirstPiece(s: string): string {
    s[..NonSpacePrefix(s)]
  }

  /** The text after the first whitespace run. */
  function AfterFirstRun(s: string): (r: string)
    requires NonSpacePrefix(s) < |s|
    ensures |r| < |s|
  {
    var i := NonSpacePrefix(s);
    s[i + LeadingSpaces(s[i..])..]
  }

  /** Reference definition: the whitespace-separated words of `s`, in order. */
  function Words(s: string): (r: seq<string>)
    ensures forall k :: 0 <= k < |r| ==> r[k] != [] && NoSpace(r[k])
    decreases |s|
  {
    if s == [] then []
    else if IsSpace(s[0]) then Words(s[1..])
    else
      var k := NonSpacePrefix(s);
      [s[..k]] + Words(s[k..])
  }

  /** `Array.prototype.join` on strings. */
  function Join(parts: seq<string>, sep: string): string {
    if |parts| == 0 then ""
    else if |parts| == 1 then parts[0]
    else parts[0] + sep + Join(parts[1..], sep)
  }

  /** Index of the first occurrence of `c` in `s`, or `|s|` when it does not occur. */
  function IndexOf(s: string, c: char): (n: nat)
    ensures n <= |s|
    ensures n < |s| ==> s[n] == c
    ensures c !in s[..n]
    ensures n == |s| <==> c !in s
  {
    if s == [] then 0
    else if s[0] == c then 0
    else 1 + IndexOf(s[1..], c)
  }

  /** Splits `s` at each occurrence of `sep`, locating occurrences by the marker
      character `sep[m]`; the inverse of `Join` for parts free of that marker. */
  function Unjoin(s: string, sep: string, m: nat): seq<string>
    requires m < |sep|
    decreases |s|
  {
    var i := IndexOf(s, sep[m]);
    if i == |s| || i < m || i - m + |sep| > |s| || s[i - m..i - m + |sep|] != sep then [s]
    else [s[..i - m]] + Unjoin(s[i - m + |sep|..], sep, m)
  }

  /** Whitespace before the first word does not change the words. */
  lemma {:induction false} WordsSkipSpaces(s: string, n: nat)
    requires n <= |s| && AllSpace(s[..n])
    ensures Words(s) == Words(s[n..])
    decreases n
  {
    if n > 0 {
      assert IsSpace(s[..n][0]);
      assert s[1..][..n - 1] == s[..n][1..];
      WordsSkipSpaces(s[1..], n - 1);
      assert s[1..][n - 1..] == s[n..];
    }
  }

  lemma {:induction false} NonSpacePrefixAppendSpaces(s: string, w: string)
    requires AllSpace(w)
    ensures NonSpacePrefix(s + w) == NonSpacePrefix(s)
    decreases |s|
  {
    if s == [] {
      if w != [] {
        assert (s + w)[0] == w[0];
      }
    } else {
      assert (s + w)[0] == s[0];
      if !IsSpace(s[0]) {
        assert (s + w)[1..] == s[1..] + w;
        NonSpacePrefixAppendSpaces(s[1..], w);
      }
    }
  }

  /** Whitespace after the last word does not change the words. */
  lemma {:induction false} WordsAppendSpaces(s: string, w: string)
    requires AllSpace(w)
    ensures Words(s + w) == Words(s)
    decreases |s| + |w|
  {
    if s == [] {
      assert s + w == w;
      if w != [] {
        assert IsSpace(w[0]);
        WordsAppendSpaces(s, w[1..]);
        assert s + w[1..] == w[1..];
      }
    } else {
      assert (s + w)[0] == s[0];
      if IsSpace(s[0]) {
        assert (s + w)[1..] == s[1..] + w;
        WordsAppendSpaces(s[1..], w);
      } else {
        var k := NonSpacePrefix(s);
        NonSpacePrefixAppendSpaces(s, w);
        assert (s + w)[..k] == s[..k];
        assert (s + w)[k..] == s[k..] + w;
        WordsAppendSpaces(s[k..], w);
      }
    }
  }

  /** Trimming does not change the words. */
  lemma WordsOfTrim(s: string)
    ensures Words(Trim(s)) == Words(s)
  {
    WordsOfTrimStart(s);
    WordsOfTrimEnd(TrimStart(s));
  }

  lemma WordsOfTrimStart(s: string)
    ensures Words(TrimStart(s)) == Words(s)
  {
    WordsSkipSpaces(s, LeadingSpaces(s));
  }

  lemma WordsOfTrimEnd(s: string)
    ensures Words(TrimEnd(s)) == Words(s)
  {
    var n := |s| - TrailingSpaces(s);
    assert s == s[..n] + s[n..];
    WordsAppendSpaces(s[..n], s[n..]);
  }

  /** On a string without surrounding whitespace, `split(/\s+/)` yields exactly its words. */
  lemma {:induction false} SplitOnSpaceRunsIsWords(s: string)
    requires s != [] && !IsSpace(s[0]) && !IsSpace(s[|s| - 1])
    ensures SplitOnSpaceRuns(s) == Words(s)
    decreases |s|
  {
    if NonSpacePrefix(s) == |s| {
      assert s[..|s|] == s;
      assert s[|s|..] == [];
    } else {
      SplitStep(s);
      SplitOnSpaceRunsIsWords(AfterFirstRun(s));
    }
  }

  /** Inside a string that ends in a non-space character, what follows the first whitespace
      run is again such a string, and has the same words as the rest after the first word. */
  lemma SplitStep(s: string)
    requires s != [] && !IsSpace(s[0]) && !IsSpace(s[|s| - 1])
    requires NonSpacePrefix(s) < |s|
    ensures var t := AfterFirstRun(s); t != [] && !IsSpace(t[0]) && !IsSpace(t[|t| - 1])
    ensures Words(s) == [FirstPiece(s)] + Words(AfterFirstRun(s))
  {
    AfterFirstRunBounds(s);
    WordsAfterFirstRun(s);
  }

  lemma AfterFirstRunBounds(s: string)
    requires NonSpacePrefix(s) < |s| && !IsSpace(s[|s| - 1])
    ensures var t := AfterFirstRun(s); t != [] && !IsSpace(t[0]) && !IsSpace(t[|t| - 1])
  {
    var i := NonSpacePrefix(s);
    var u := s[i..];
    var l := LeadingSpaces(u);
    DropDrop(s, i, l);
    assert u[|u| - 1] == s[|s| - 1];
  }

  lemma WordsAfterFirstRun(s: string)
    requires s != [] && !IsSpace(s[0]) && NonSpacePrefix(s) < |s|
    ensures Words(s) == [FirstPiece(s)] + Words(AfterFirstRun(s))
  {
    var i := NonSpacePrefix(s);
    var u := s[i..];
    var l := LeadingSpaces(u);
    WordsFirst(s);
    assert Words(s) == [FirstPiece(s)] + Words(u);
    WordsSkipSpaces(u, l);
    DropDrop(s, i, l);
    assert u[l..] == AfterFirstRun(s);
  }

  /** Dropping `i` elements and then `j` more drops `i + j`. */
  lemma DropDrop<T>(s: seq<T>, i: nat, j: nat)
    requires i <= |s| && j <= |s| - i
    ensures s[i..][j..] == s[i + j..]
  {
  }

  /** The words of a string that starts with a non-space character: its first word, then
      the words of the rest. */
  lemma WordsFirst(s: string)
    requires s != [] && !IsSpace(s[0])
    ensures Words(s) == [s[..NonSpacePrefix(s)]] + Words(s[NonSpacePrefix(s)..])
  {
  }

  /** A non-empty string that starts with a non-space character has a first word. */
  lemma WordsNonEmpty(t: string)
    requires t != [] && !IsSpace(t[0])
    ensures Words(t) != []
  {
    assert Words(t) == [t[..NonSpacePrefix(t)]] + Words(t[NonSpacePrefix(t)..]);
  }

  lemma SplitOfEmpty()
    ensures SplitOnSpaceRuns("") == [""]
  {
  }

  /** `split(/\s+/)` of a trimmed string: its words, or `[""]` when there are none. */
  lemma {:induction false} SplitTrimmed(s: string)
    ensures SplitOnSpaceRuns(Trim(s)) == if Words(s) == [] then [""] else Words(s)
  {
    var t := Trim(s);
    WordsOfTrim(s);
    assert Words(t) == Words(s);
    if t == [] {
      assert Words(s) == [];
      SplitOfEmpty();
      assert SplitOnSpaceRuns(t) == [""];
    } else {
      WordsNonEmpty(t);
      SplitOnSpaceRunsIsWords(t);
    }
  }

  lemma {:induction false} IndexOfAppend(a: string, b: string, c: char)
    requires c !in a
    ensures IndexOf(a + b, c) == |a| + IndexOf(b, c)
    decreases |a|
  {
    if a == [] {
      assert a + b == b;
    } else {
      assert (a + b)[0] == a[0];
      assert (a + b)[1..] == a[1..] + b;
      IndexOfAppend(a[1..], b, c);
    }
  }

  /** In `p + sep + rest`, with the marker absent from `p` and from the separator before it,
      the first marker is the separator's. */
  lemma MarkerIndex(p: string, sep: string, m: nat, rest: string)
    requires m < |sep|
    requires sep[m] !in sep[..m]
    requires sep[m] !in p
    ensures IndexOf(p + sep + rest, sep[m]) == |p| + m
  {
    var c := sep[m];
    assert p + sep + rest == p + (sep + rest);
    IndexOfAppend(p, sep + rest, c);
    assert sep + rest == sep[..m] + (sep[m..] + rest);
    IndexOfAppend(sep[..m], sep[m..] + rest, c);
    assert (sep[m..] + rest)[0] == c;
  }

  /** One step of `Unjoin`: a leading part free of the marker is split off. */
  lemma UnjoinStep(p: string, sep: string, m: nat, rest: string)
    requires m < |sep|
    requires sep[m] !in sep[..m]
    requires sep[m] !in p
    ensures Unjoin(p + sep + rest, sep, m) == [p] + Unjoin(rest, sep, m)
  {
    var s := p + sep + rest;
    MarkerIndex(p, sep, m, rest);
    assert s[..|p|] == p;
    assert s[|p|..|p| + |sep|] == sep;
    assert s[|p| + |sep|..] == rest;
  }

  /** `Unjoin` recovers the parts `Join` glued together, provided the separator's marker
      character occurs once in the separator and in none of the parts. */
  lemma {:induction false} UnjoinJoin(parts: seq<string>, sep: string, m: nat)
    requires m < |sep|
    requires sep[m] !in sep[..m]
    requires |parts| >= 1
    requires forall k :: 0 <= k < |parts| ==> sep[m] !in parts[k]
    ensures Unjoin(Join(parts, sep), sep, m) == parts
    decreases |parts|
  {
    var c := sep[m];
    assert c !in parts[0];
    if |parts| == 1 {
      assert IndexOf(parts[0], c) == |parts[0]|;
    } else {
      var rest := Join(parts[1..], sep);
      assert Join(parts, sep) == parts[0] + sep + rest;
      UnjoinStep(parts[0], sep, m, rest);
      UnjoinJoin(parts[1..], sep, m);
      assert parts == [parts[0]] + parts[1..];
    }
  }

  /** A join of non-empty parts is empty exactly when there are no parts. */
  lemma {:induction false} JoinEmptyIff(parts: seq<string>, sep: string)
    requires forall k :: 0 <= k < |parts| ==> parts[k] != []
    ensures Join(parts, sep) == [] <==> parts == []
    decreases |parts|
  {
    if |parts| > 1 {
      JoinEmptyIff(parts[1..], sep);
    }
  }

  lemma {:induction false} JoinKeepsAbsence(parts: seq<string>, sep: string, c: char)
    requires c !in sep
    requires forall k :: 0 <= k < |parts| ==> c !in parts[k]
    ensures c !in Join(parts, sep)
    decreases |parts|
  {
    if |parts| > 1 {
      JoinKeepsAbsence(parts[1..], sep, c);
    }
  }

  lemma {:induction false} JoinStartsWithFirst(parts: seq<string>, sep: string)
    requires |parts| >= 1
    ensures |parts[0]| <= |Join(parts, sep)| && Join(parts, sep)[..|parts[0]|] == parts[0]
  {
  }

  lemma {:induction false} JoinEndsWithLast(parts: seq<string>, sep: string)
    requires |parts| >= 1
    ensures var j := Join(parts, sep); var l := parts[|parts| - 1];
      |l| <= |j| && j[|j| - |l|..] == l
    decreases |parts|
  {
    if |parts| > 1 {
      JoinEndsWithLast(parts[1..], sep);
    }
  }

  /** Concatenation is associative; the proofs that regroup a concatenation call this. */
  lemma AppendAssoc<T>(p: seq<T>, q: seq<T>, r: seq<T>)
    ensures (p + q) + r == p + (q + r)
  {
  }
}
