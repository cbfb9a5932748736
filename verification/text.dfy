/** The handful of `java.lang.String` operations the client relies on, over
    `seq<char>`: `trim`, `startsWith`, `indexOf`, `contains`, ASCII case
    folding, and the `replaceAll("/$", "")` used to normalise base URLs.
 */
module Text {
  import opened Wrappers

  // ---------------------------------------------------------------------
  // String.trim: strips every char whose code is at most U+0020 from both
  // ends.
  // ---------------------------------------------------------------------

  predicate IsTrimmable(c: char) {
    c <= ' '
  }

  /** A string `trim` leaves unchanged: empty, or non-trimmable at both ends. */
  predicate IsTrimmed(s: string) {
    |s| == 0 || (!IsTrimmable(s[0]) && !IsTrimmable(s[|s| - 1]))
  }

  predicate AllTrimmable(s: string) {
    forall i :: 0 <= i < |s| ==> IsTrimmable(s[i])
  }

  function TrimStart(s: string): (r: string)
    ensures |r| <= |s| && r == s[|s| - |r|..]
    ensures |r| == 0 || !IsTrimmable(r[0])
    ensures AllTrimmable(s[..|s| - |r|])
  {
    if |s| > 0 && IsTrimmable(s[0]) then
      var r := TrimStart(s[1..]);
      assert s[1..][..|s| - 1 - |r|] == s[1..|s| - |r|];
      r
    else
      s
  }

  function TrimEnd(s: string): (r: string)
    ensures |r| <= |s| && r == s[..|r|]
    ensures |r| == 0 || !IsTrimmable(r[|r| - 1])
    ensures AllTrimmable(s[|r|..])
  {
    if |s| > 0 && IsTrimmable(s[|s| - 1]) then
      var r := TrimEnd(s[..|s| - 1]);
      assert s[|r|..] == s[..|s| - 1][|r|..] + [s[|s| - 1]];
      r
    else
      s
  }

  /** Java's `String.trim()`: the longest middle part of `s` that neither
      starts nor ends with a char at or below U+0020. */
  function Trim(s: string): (r: string)
    ensures IsTrimmed(r)
    ensures |r| <= |s|
    ensures |r| == 0 <==> AllTrimmable(s)
  {
    var a := TrimStart(s);
    var r := TrimEnd(a);
    if |r| == 0 then
      assert s == s[..|s| - |a|] + a;
      assert a == a[..0] + a[0..];
      r
    else
      r
  }

  lemma TrimStartOfTrimmed(s: string)
    requires IsTrimmed(s)
    ensures TrimStart(s) == s
  {
  }

  lemma TrimEndOfTrimmed(s: string)
    requires IsTrimmed(s)
    ensures TrimEnd(s) == s
  {
  }

  /** `trim` is the identity exactly on trimmed strings. */
  lemma TrimIdentity(s: string)
    ensures Trim(s) == s <==> IsTrimmed(s)
  {
    if IsTrimmed(s) {
      TrimStartOfTrimmed(s);
      TrimEndOfTrimmed(s);
    }
  }

  /** Leading padding is removed: `(pad + t).trim() == t` for trimmed `t`. */
  lemma {:induction false} TrimAfterPadding(pad: string, t: string)
    requires AllTrimmable(pad)
    requires IsTrimmed(t)
    ensures Trim(pad + t) == t
  {
    if |pad| == 0 {
      assert pad + t == t;
      TrimIdentity(t);
    } else {
      assert (pad + t)[1..] == pad[1..] + t;
      TrimAfterPadding(pad[1..], t);
      if |t| == 0 {
        assert AllTrimmable(pad + t);
      } else {
        assert TrimStart(pad + t) == TrimStart(pad[1..] + t);
      }
    }
  }

  // ---------------------------------------------------------------------
  // Character classes
  // ---------------------------------------------------------------------

  /** `Character.isWhitespace` on a UTF-16 code unit: the ASCII controls TAB
      through CR and FS through US, and the Unicode space, line and paragraph
      separators other than the three no-break spaces. */
  predicate IsJavaWhitespace(c: char) {
    || ('\t' <= c <= '\r')
    || ('\U{001C}' <= c <= ' ')
    || c == '\U{1680}'
    || ('\U{2000}' <= c <= '\U{2006}')
    || ('\U{2008}' <= c <= '\U{200A}')
    || c == '\U{2028}' || c == '\U{2029}' || c == '\U{205F}' || c == '\U{3000}'
  }

  predicate IsDigit(c: char) {
    '0' <= c <= '9'
  }

  predicate AllDigits(s: string) {
    forall i :: 0 <= i < |s| ==> IsDigit(s[i])
  }

  /** A line terminator as `java.util.regex` sees it (without UNIX_LINES). */
  predicate IsLineTerminator(c: char) {
    c == '\n' || c == '\r' || c == '\U{0085}' || c == '\U{2028}' || c == '\U{2029}'
  }

  // ---------------------------------------------------------------------
  // Searching
  // ---------------------------------------------------------------------

  predicate StartsWith(s: string, prefix: string) {
    |prefix| <= |s| && s[..|prefix|] == prefix
  }

  predicate OccursAt(s: string, pat: string, i: nat) {
    i + |pat| <= |s| && s[i..i + |pat|] == pat
  }

  /** `s.indexOf(pat, from)` with `None` for -1: the first occurrence of
      `pat` at or after `from`. */
  function IndexOf(s: string, pat: string, from: nat): (r: Option<nat>)
    decreases |s| - from
    ensures r.Some? ==> from <= r.value && OccursAt(s, pat, r.value)
    ensures r.Some? ==> forall j :: from <= j < r.value ==> !OccursAt(s, pat, j)
    ensures r.None? ==> forall j :: from <= j ==> !OccursAt(s, pat, j)
  {
    if from + |pat| > |s| then None
    else if OccursAt(s, pat, from) then Some(from)
    else IndexOf(s, pat, from + 1)
  }

  /** An occurrence with nothing earlier is the one `indexOf` reports. */
  lemma {:induction false} IndexOfFirst(s: string, pat: string, from: nat, i: nat)
    requires from <= i && OccursAt(s, pat, i)
    requires forall j :: from <= j < i ==> !OccursAt(s, pat, j)
    ensures IndexOf(s, pat, from) == Some(i)
    decreases i - from
  {
    if from < i {
      assert !OccursAt(s, pat, from);
      IndexOfFirst(s, pat, from + 1, i);
    }
  }

  predicate Contains(s: string, pat: string) {
    exists i: nat | i <= |s| :: OccursAt(s, pat, i)
  }

  /** A pattern does not occur where its first char is missing: if no
      position that leaves room for `pat` holds `pat[0]`, `pat` is absent. */
  lemma AbsentFirstChar(s: string, pat: string)
    requires |pat| > 0
    requires forall i :: 0 <= i && i + |pat| <= |s| ==> s[i] != pat[0]
    ensures !Contains(s, pat)
  {
    forall i: nat | i <= |s|
      ensures !OccursAt(s, pat, i)
    {
      if i + |pat| <= |s| {
        assert s[i..i + |pat|][0] == s[i];
      }
    }
  }

  /** `s.contains(pat)`, computed by search. */
  function ContainsText(s: string, pat: string): (b: bool)
    ensures b <==> Contains(s, pat)
  {
    IndexOf(s, pat, 0).Some?
  }

  // ---------------------------------------------------------------------
  // Case
  // ---------------------------------------------------------------------

  function LowerChar(c: char): char {
    if 'A' <= c <= 'Z' then (c as int + 32) as char else c
  }

  /** `toLowerCase()` restricted to ASCII letters. */
  function ToLower(s: string): (r: string)
    ensures |r| == |s|
    ensures forall i :: 0 <= i < |s| ==> r[i] == LowerChar(s[i])
  {
    seq(|s|, i requires 0 <= i < |s| => LowerChar(s[i]))
  }

  /** `a.equalsIgnoreCase(b)` for ASCII case folding. */
  predicate EqualsIgnoreCase(a: string, b: string) {
    ToLower(a) == ToLower(b)
  }

  // ---------------------------------------------------------------------
  // replaceAll("/$", "")
  // ---------------------------------------------------------------------

  /** True when the regex `/$` matches the slash at index `j`: the slash is the
      last char, or only a final line terminator (one char, or CR LF) follows. */
  predicate SlashAtRegexEnd(s: string, j: nat) {
    && j < |s| && s[j] == '/'
    && (|| j + 1 == |s|
        || (j + 2 == |s| && IsLineTerminator(s[j + 1]))
        || (j + 3 == |s| && s[j + 1] == '\r' && s[j + 2] == '\n'))
  }

  /** `s.replaceAll("/$", "")`: removes the one slash the pattern can match,
      if any, and keeps a final line terminator after it. */
  function StripTrailingSlash(s: string): (r: string)
    ensures |r| == |s| || |r| == |s| - 1
    ensures |r| == |s| - 1 <==> exists j: nat :: SlashAtRegexEnd(s, j)
    ensures forall j: nat :: SlashAtRegexEnd(s, j) ==> r == s[..j] + s[j + 1..]
    ensures (forall j: nat :: !SlashAtRegexEnd(s, j)) ==> r == s
  {
    var n := |s|;
    if n >= 1 && s[n - 1] == '/' then
      assert SlashAtRegexEnd(s, n - 1);
      s[..n - 1]
    else if n >= 2 && s[n - 2] == '/' && IsLineTerminator(s[n - 1]) then
      assert SlashAtRegexEnd(s, n - 2);
      s[..n - 2] + s[n - 1..]
    else if n >= 3 && s[n - 3] == '/' && s[n - 2] == '\r' && s[n - 1] == '\n' then
      assert SlashAtRegexEnd(s, n - 3);
      s[..n - 3] + s[n - 2..]
    else
      s
  }

  /** No regex-end slash: nothing for `replaceAll("/$", "")` to remove. */
  predicate HasNoTrailingSlash(s: string) {
    && (|s| == 0 || (s[|s| - 1] != '/' && !IsLineTerminator(s[|s| - 1])))
  }

  /** Appending one slash to a clean base and normalising gives the base back. */
  lemma StripAppendedSlash(base: string)
    requires HasNoTrailingSlash(base)
    ensures StripTrailingSlash(base + "/") == base
  {
    assert (base + "/")[..|base|] == base;
  }

  /** A clean base is left alone. */
  lemma StripCleanBase(base: string)
    requires HasNoTrailingSlash(base)
    ensures StripTrailingSlash(base) == base
  {
  }

  /** Only one slash goes: `"x//"` becomes `"x/"`, not `"x"`. */
  lemma StripRemovesOnlyOneSlash(base: string)
    requires HasNoTrailingSlash(base)
    ensures StripTrailingSlash(base + "//") == base + "/"
  {
    assert (base + "//")[..|base| + 1] == base + "/";
  }
}
