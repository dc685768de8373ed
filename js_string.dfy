/** The string built-ins of JavaScript that the merge script relies on:
    `trim`, `replace` with a string pattern (first occurrence only) and the
    global line-break replacement applied to names. */
module JsString {
  import opened Options

  /** WhiteSpace or LineTerminator code points of ECMAScript: what `trim()`
      removes and what `parseFloat` skips before the number. */
  predicate IsWhitespace(c: char) {
    c == '\t' || c == '\n' || c == '\U{B}' || c == '\U{C}' || c == '\r' || c == ' '
    || c == '\U{A0}' || c == '\U{1680}' || ('\U{2000}' <= c <= '\U{200A}')
    || c == '\U{2028}' || c == '\U{2029}' || c == '\U{202F}' || c == '\U{205F}'
    || c == '\U{3000}' || c == '\U{FEFF}'
  }

  predicate AllWhitespace(s: string) {
    forall k :: 0 <= k < |s| ==> IsWhitespace(s[k])
  }

  /** `r` occurs in `s` starting at index `i`. */
  predicate InfixAt(r: string, s: string, i: int) {
    0 <= i && i + |r| <= |s| && s[i..i + |r|] == r
  }

  /** Each character of an infix is the character of the whole at the same offset. */
  lemma InfixChars(r: string, s: string, i: int)
    requires InfixAt(r, s, i)
    ensures forall k :: 0 <= k < |r| ==> r[k] == s[i + k]
  {
    forall k | 0 <= k < |r|
      ensures r[k] == s[i + k]
    {
      assert s[i..i + |r|][k] == s[i + k];
    }
  }

  /** Neither end of `s` is whitespace. */
  predicate IsTrimmed(s: string) {
    s == [] || (!IsWhitespace(s[0]) && !IsWhitespace(s[|s| - 1]))
  }

  /** `String.prototype.trimStart`: `s` without its leading whitespace. */
  function TrimStart(s: string): (r: string)
    ensures |r| <= |s|
    ensures r != [] ==> !IsWhitespace(r[0])
  {
    if s != [] && IsWhitespace(s[0]) then TrimStart(s[1..]) else s
  }

  /** What `trimStart` keeps is a suffix, and all it drops is whitespace. */
  lemma {:induction false} TrimStartSuffix(s: string)
    ensures TrimStart(s) == s[|s| - |TrimStart(s)|..]
    ensures AllWhitespace(s[..|s| - |TrimStart(s)|])
  {
    if s != [] && IsWhitespace(s[0]) {
      TrimStartSuffix(s[1..]);
      assert s[1..][|s| - 1 - |TrimStart(s)|..] == s[|s| - |TrimStart(s)|..];
      assert forall k :: 1 <= k < |s| - |TrimStart(s)| ==> s[k] == s[1..][k - 1];
    }
  }

  /** `String.prototype.trimEnd`: `s` without its trailing whitespace. */
  function TrimEnd(s: string): (r: string)
    ensures |r| <= |s|
    ensures r != [] ==> !IsWhitespace(r[|r| - 1])
  {
    if s != [] && IsWhitespace(s[|s| - 1]) then TrimEnd(s[..|s| - 1]) else s
  }

  /** What `trimEnd` keeps is a prefix, and all it drops is whitespace. */
  lemma {:induction false} TrimEndPrefix(s: string)
    ensures TrimEnd(s) == s[..|TrimEnd(s)|]
    ensures AllWhitespace(s[|TrimEnd(s)|..])
  {
    if s != [] && IsWhitespace(s[|s| - 1]) {
      TrimEndPrefix(s[..|s| - 1]);
      assert s[..|s| - 1][..|TrimEnd(s)|] == s[..|TrimEnd(s)|];
      assert forall k :: |TrimEnd(s)| <= k < |s| - 1 ==> s[k] == s[..|s| - 1][k];
    }
  }

  /** `String.prototype.trim`: `s` without its leading and trailing whitespace. */
  function Trim(s: string): (r: string)
    ensures IsTrimmed(r) && |r| <= |s|
    ensures InfixAt(r, s, |s| - |TrimStart(s)|)
    ensures AllWhitespace(s[..|s| - |TrimStart(s)|]) && AllWhitespace(s[|s| - |TrimStart(s)| + |r|..])
    ensures r == [] <==> AllWhitespace(s)
  {
    var t := TrimStart(s);
    var r := TrimEnd(t);
    TrimStartSuffix(s);
    TrimEndPrefix(t);
    assert s[|s| - |t| + |r|..] == t[|r|..];
    assert r == [] ==> AllWhitespace(s) by {
      if r == [] {
        AllWhitespaceConcat(s[..|s| - |t|], t);
        assert s == s[..|s| - |t|] + t;
      }
    }
    assert r != [] ==> !AllWhitespace(s) by {
      if r != [] {
        assert s[|s| - |t|] == r[0];
      }
    }
    r
  }

  lemma AllWhitespaceConcat(a: string, b: string)
    requires AllWhitespace(a) && AllWhitespace(b)
    ensures AllWhitespace(a + b)
  {
  }

  /** A string that is already trimmed is left as it is. */
  lemma TrimTrimmed(s: string)
    requires IsTrimmed(s)
    ensures Trim(s) == s
  {
  }

  /** Trimming twice is trimming once. */
  lemma TrimIdempotent(s: string)
    ensures Trim(Trim(s)) == Trim(s)
  {
    TrimTrimmed(Trim(s));
  }

  /** Index of the first occurrence of `pat` in `s` at position `k` or later. */
  function IndexOfFrom(s: string, pat: string, k: nat): (r: Option<nat>)
    decreases |s| - k
    ensures r.Some? ==> k <= r.value && InfixAt(pat, s, r.value)
    ensures r.Some? ==> forall j :: k <= j < r.value ==> !InfixAt(pat, s, j)
    ensures r.None? ==> forall j :: k <= j ==> !InfixAt(pat, s, j)
  {
    if k + |pat| > |s| then None
    else if s[k..k + |pat|] == pat then Some(k)
    else IndexOfFrom(s, pat, k + 1)
  }

  /** `s.indexOf(pat)`, as an option. */
  function IndexOf(s: string, pat: string): Option<nat> {
    IndexOfFrom(s, pat, 0)
  }

  /** `s.replace(pat, rep)` with a string pattern: only the first occurrence is replaced. */
  function ReplaceFirst(s: string, pat: string, rep: string): (r: string)
    ensures IndexOf(s, pat).None? ==> r == s
    ensures IndexOf(s, pat).Some? ==>
      var i := IndexOf(s, pat).value;
      r == s[..i] + rep + s[i + |pat|..] && |r| == |s| - |pat| + |rep|
  {
    match IndexOf(s, pat)
    case None => s
    case Some(i) => s[..i] + rep + s[i + |pat|..]
  }

  /** The first occurrence found is the one at `i` when `pat` occurs at `i` and nowhere before. */
  lemma {:induction false} IndexOfFromFirst(s: string, pat: string, k: nat, i: nat)
    requires k <= i && InfixAt(pat, s, i)
    requires forall j :: k <= j < i ==> !InfixAt(pat, s, j)
    ensures IndexOfFrom(s, pat, k) == Some(i)
    decreases i - k
  {
    if k < i {
      assert !InfixAt(pat, s, k);
      IndexOfFromFirst(s, pat, k + 1, i);
    }
  }

  /** Replacing the first ',' by '.' touches that comma only: every later comma stays. */
  lemma ReplaceFirstComma(a: string, b: string)
    requires ',' !in a
    ensures ReplaceFirst(a + [','] + b, ",", ".") == a + ['.'] + b
  {
    var s := a + [','] + b;
    forall j | 0 <= j < |a|
      ensures !InfixAt(",", s, j)
    {
      assert s[j..j + 1] == [a[j]];
    }
    assert s[|a|..|a| + 1] == ",";
    IndexOfFromFirst(s, ",", 0, |a|);
    assert s[..|a|] == a;
    assert s[|a| + 1..] == b;
  }

  /** No occurrence of `pat` anywhere: `indexOf` finds nothing. */
  lemma {:induction false} IndexOfFromNone(s: string, pat: string, k: nat)
    requires forall j :: k <= j ==> !InfixAt(pat, s, j)
    ensures IndexOfFrom(s, pat, k).None?
    decreases |s| - k
  {
    if k + |pat| <= |s| {
      assert !InfixAt(pat, s, k);
      IndexOfFromNone(s, pat, k + 1);
    }
  }

  /** A pattern that occurs nowhere in `s` leaves `s` as it is. */
  lemma ReplaceFirstAbsent(s: string, pat: string, rep: string)
    requires forall j :: 0 <= j ==> !InfixAt(pat, s, j)
    ensures ReplaceFirst(s, pat, rep) == s
  {
    IndexOfFromNone(s, pat, 0);
  }

  /** A one-character pattern that is not a character of `s` leaves `s` as it is. */
  lemma ReplaceFirstCharAbsent(s: string, c: char, rep: string)
    requires c !in s
    ensures ReplaceFirst(s, [c], rep) == s
  {
    forall j | 0 <= j
      ensures !InfixAt([c], s, j)
    {
      if j + 1 <= |s| {
        assert s[j..j + 1] == [s[j]];
      }
    }
    ReplaceFirstAbsent(s, [c], rep);
  }

  /** A string without ',' is not changed by replacing the first ','. */
  lemma ReplaceFirstNoComma(s: string)
    requires ',' !in s
    ensures ReplaceFirst(s, ",", ".") == s
  {
    ReplaceFirstCharAbsent(s, ',', ".");
  }

  predicate IsLineBreak(c: char) {
    c == '\r' || c == '\n'
  }

  /** `s` holds no CR and no LF. */
  predicate NoLineBreaks(s: string) {
    forall k :: 0 <= k < |s| ==> !IsLineBreak(s[k])
  }

  /** An infix of a string without line breaks has none either. */
  lemma InfixNoLineBreaks(r: string, s: string, i: int)
    requires InfixAt(r, s, i) && NoLineBreaks(s)
    ensures NoLineBreaks(r)
  {
    InfixChars(r, s, i);
  }

  /** `s.replace(/\r?\n|\r/g, " ")`: each CRLF, LF or CR becomes one space. */
  function ReplaceLineBreaks(s: string): (r: string)
    ensures NoLineBreaks(r)
    ensures |r| <= |s| && (r == [] <==> s == [])
    ensures s != [] && !IsLineBreak(s[0]) ==> r[0] == s[0]
    ensures s != [] && !IsLineBreak(s[|s| - 1]) ==> r[|r| - 1] == s[|s| - 1]
  {
    if s == [] then []
    else if s[0] == '\r' && |s| > 1 && s[1] == '\n' then " " + ReplaceLineBreaks(s[2..])
    else if IsLineBreak(s[0]) then " " + ReplaceLineBreaks(s[1..])
    else [s[0]] + ReplaceLineBreaks(s[1..])
  }

  /** A string without line breaks is left as it is. */
  lemma {:induction false} ReplaceLineBreaksNone(s: string)
    requires NoLineBreaks(s)
    ensures ReplaceLineBreaks(s) == s
  {
    if s != [] {
      ReplaceLineBreaksNone(s[1..]);
    }
  }

  /** One CRLF, LF or CR between two pieces without line breaks becomes exactly one
      space: nothing is dropped and a CRLF is not two breaks. */
  lemma {:induction false} ReplaceLineBreaksJoin(a: string, sep: string, b: string)
    requires NoLineBreaks(a) && NoLineBreaks(b)
    requires sep == "\r\n" || sep == "\n" || sep == "\r"
    ensures ReplaceLineBreaks(a + sep + b) == a + " " + b
  {
    assert a + sep + b == a + (sep + b);
    ReplaceLineBreaksPrefix(a, sep + b);
    ReplaceLineBreaksSeparator(sep, b);
    assert a + (" " + b) == a + " " + b;
  }

  /** A single CRLF, LF or CR in front of a piece without line breaks becomes one space. */
  lemma ReplaceLineBreaksSeparator(sep: string, b: string)
    requires NoLineBreaks(b)
    requires sep == "\r\n" || sep == "\n" || sep == "\r"
    ensures ReplaceLineBreaks(sep + b) == " " + b
  {
    var s := sep + b;
    ReplaceLineBreaksNone(b);
    if sep == "\r\n" {
      assert s[0] == '\r' && s[1] == '\n' && s[2..] == b;
    } else if sep == "\n" {
      assert s[0] == '\n' && s[1..] == b;
    } else {
      assert s[0] == '\r' && s[1..] == b;
      assert |s| > 1 ==> s[1] == b[0] && !IsLineBreak(b[0]);
    }
  }

  /** Every break counts: the text up to the first CRLF, LF or CR is kept, that break
      becomes one space, and the rest is replaced in its turn. A CR followed by LF is
      one break, so a lone CR is one whose next character is not LF. */
  lemma ReplaceLineBreaksBreak(a: string, sep: string, t: string)
    requires NoLineBreaks(a)
    requires sep == "\r\n" || sep == "\n" || sep == "\r"
    requires sep == "\r" && t != [] ==> t[0] != '\n'
    ensures ReplaceLineBreaks(a + sep + t) == a + " " + ReplaceLineBreaks(t)
  {
    var s := sep + t;
    calc {
      ReplaceLineBreaks(a + sep + t);
      { assert a + sep + t == a + s; }
      ReplaceLineBreaks(a + s);
      { ReplaceLineBreaksPrefix(a, s); }
      a + ReplaceLineBreaks(s);
      { SeparatorThenRest(sep, t); }
      a + (" " + ReplaceLineBreaks(t));
      a + " " + ReplaceLineBreaks(t);
    }
  }

  /** A leading CRLF, LF or CR becomes one space in front of the rest's replacement. */
  lemma SeparatorThenRest(sep: string, t: string)
    requires sep == "\r\n" || sep == "\n" || sep == "\r"
    requires sep == "\r" && t != [] ==> t[0] != '\n'
    ensures ReplaceLineBreaks(sep + t) == " " + ReplaceLineBreaks(t)
  {
    var s := sep + t;
    if sep == "\r\n" {
      assert s[0] == '\r' && s[1] == '\n' && s[2..] == t;
    } else if sep == "\n" {
      assert s[0] == '\n' && s[1..] == t;
    } else {
      assert s[0] == '\r' && s[1..] == t;
      assert |s| > 1 ==> s[1] == t[0];
    }
  }

  /** Two breaks between three pieces without line breaks become two spaces. */
  lemma ReplaceLineBreaksTwo(a: string, sep1: string, b: string, sep2: string, c: string)
    requires NoLineBreaks(a) && NoLineBreaks(b) && NoLineBreaks(c) && b != []
    requires sep1 == "\r\n" || sep1 == "\n" || sep1 == "\r"
    requires sep2 == "\r\n" || sep2 == "\n" || sep2 == "\r"
    ensures ReplaceLineBreaks(a + sep1 + b + sep2 + c) == a + " " + b + " " + c
  {
    var t := b + sep2 + c;
    calc {
      ReplaceLineBreaks(a + sep1 + b + sep2 + c);
      { assert a + sep1 + b + sep2 + c == a + sep1 + t; }
      ReplaceLineBreaks(a + sep1 + t);
      { assert t[0] == b[0] && !IsLineBreak(b[0]);
        ReplaceLineBreaksBreak(a, sep1, t); }
      a + " " + ReplaceLineBreaks(t);
      { ReplaceLineBreaksJoin(b, sep2, c); }
      a + " " + (b + " " + c);
      a + " " + b + " " + c;
    }
  }

  /** A prefix without line breaks is copied as it is. */
  lemma {:induction false} ReplaceLineBreaksPrefix(a: string, t: string)
    requires NoLineBreaks(a)
    ensures ReplaceLineBreaks(a + t) == a + ReplaceLineBreaks(t)
  {
    if a != [] {
      var s := a + t;
      assert s[0] == a[0] && !IsLineBreak(a[0]);
      assert ReplaceLineBreaks(s) == [a[0]] + ReplaceLineBreaks(s[1..]);
      assert s[1..] == a[1..] + t;
      ReplaceLineBreaksPrefix(a[1..], t);
      assert [a[0]] + (a[1..] + ReplaceLineBreaks(t)) == a + ReplaceLineBreaks(t);
    } else {
      assert a + t == t;
    }
  }

  /** Replacing line breaks in a blank string leaves it blank. */
  lemma {:induction false} ReplaceLineBreaksBlank(s: string)
    requires AllWhitespace(s)
    ensures AllWhitespace(ReplaceLineBreaks(s))
  {
    if s != [] {
      if s[0] == '\r' && |s| > 1 && s[1] == '\n' {
        ReplaceLineBreaksBlank(s[2..]);
      } else {
        ReplaceLineBreaksBlank(s[1..]);
      }
    }
  }
}
