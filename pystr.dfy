/** The two pieces of Python `str` behaviour the chat policy relies on:
    the substring test `needle in hay` and `strip()` with no argument.
    A Python `str` is a sequence of code points; here it is a `string`,
    a sequence of Unicode scalar values. */
module PyStr {

  /** Python's `str.isspace()` for a single code point: the characters whose
      bidirectional class is WS, B or S, or whose general category is Zs. */
  predicate IsSpace(c: char) {
    ('\t' <= c <= '\r')                      // \t \n \v \f \r
    || ('\U{1C}' <= c <= '\U{1F}')           // file, group, record and unit separators
    || c == ' '
    || c == '\U{85}'                         // next line
    || c == '\U{A0}'                         // no-break space
    || c == '\U{1680}'                       // Ogham space mark
    || ('\U{2000}' <= c <= '\U{200A}')       // en quad .. hair space
    || c == '\U{2028}' || c == '\U{2029}'    // line and paragraph separators
    || c == '\U{202F}' || c == '\U{205F}' || c == '\U{3000}'
  }

  /** Every character of `s` is white space. */
  ghost predicate AllSpace(s: string) {
    forall k :: 0 <= k < |s| ==> IsSpace(s[k])
  }

  /** `needle` occurs in `hay` starting at index `i`. */
  ghost predicate OccursAt(hay: string, needle: string, i: int) {
    0 <= i && i + |needle| <= |hay| && hay[i..i + |needle|] == needle
  }

  /** The meaning of Python's `needle in hay` on strings. */
  ghost predicate IsSubstring(needle: string, hay: string) {
    exists i :: OccursAt(hay, needle, i)
  }

  /** `needle in hay`, computed by scanning `hay` from the left. */
  function Contains(hay: string, needle: string): bool
    decreases |hay|
  {
    if |needle| <= |hay| && hay[..|needle|] == needle then true
    else if hay == [] then false
    else Contains(hay[1..], needle)
  }

  lemma {:induction false} ContainsSpec(hay: string, needle: string)
    ensures Contains(hay, needle) <==> IsSubstring(needle, hay)
    decreases |hay|
  {
    if |needle| <= |hay| && hay[..|needle|] == needle {
      assert OccursAt(hay, needle, 0);
    } else if hay == [] {
    } else {
      ContainsSpec(hay[1..], needle);
      if IsSubstring(needle, hay) {
        var i :| OccursAt(hay, needle, i);
        assert i != 0;
        assert hay[1..][i - 1..i - 1 + |needle|] == hay[i..i + |needle|];
        assert OccursAt(hay[1..], needle, i - 1);
      }
      if IsSubstring(needle, hay[1..]) {
        var i :| OccursAt(hay[1..], needle, i);
        assert hay[1..][i..i + |needle|] == hay[i + 1..i + 1 + |needle|];
        assert OccursAt(hay, needle, i + 1);
      }
    }
  }

  /** `str.lstrip()` with no argument. */
  function StripStart(s: string): string {
    if s != [] && IsSpace(s[0]) then StripStart(s[1..]) else s
  }

  /** `str.rstrip()` with no argument. */
  function StripEnd(s: string): string {
    if s != [] && IsSpace(s[|s| - 1]) then StripEnd(s[..|s| - 1]) else s
  }

  /** `str.strip()` with no argument. */
  function Strip(s: string): string {
    StripEnd(StripStart(s))
  }

  /** `t` is `s` with its leading and trailing white space removed: a
      contiguous slice of `s`, everything cut away is white space, and `t`
      neither starts nor ends with white space. */
  ghost predicate IsStripOf(t: string, s: string) {
    exists i, j :: 0 <= i <= j <= |s| && t == s[i..j]
      && AllSpace(s[..i]) && AllSpace(s[j..])
      && (t != [] ==> !IsSpace(t[0]) && !IsSpace(t[|t| - 1]))
  }

  /** `lstrip()` drops the `i` leading characters, all of them white space,
      and stops at a character that is not. */
  lemma {:induction false} StripStartSpec(s: string) returns (i: nat)
    ensures i <= |s| && StripStart(s) == s[i..] && AllSpace(s[..i])
    ensures StripStart(s) != [] ==> !IsSpace(StripStart(s)[0])
  {
    if s != [] && IsSpace(s[0]) {
      var i' := StripStartSpec(s[1..]);
      i := i' + 1;
      assert s[1..][i'..] == s[i..];
      assert forall k :: 1 <= k < i ==> s[k] == s[1..][..i'][k - 1];
    } else {
      i := 0;
      assert s[0..] == s;
    }
  }

  /** `rstrip()` keeps the first `j` characters, drops only white space, and
      stops at a character that is not. */
  lemma {:induction false} StripEndSpec(s: string) returns (j: nat)
    ensures j <= |s| && StripEnd(s) == s[..j] && AllSpace(s[j..])
    ensures StripEnd(s) != [] ==> !IsSpace(StripEnd(s)[|StripEnd(s)| - 1])
  {
    if s != [] && IsSpace(s[|s| - 1]) {
      var u := s[..|s| - 1];
      j := StripEndSpec(u);
      assert u[..j] == s[..j];
      assert forall k :: j <= k < |s| - 1 ==> s[k] == u[j..][k - j];
    } else {
      j := |s|;
      assert s[..|s|] == s;
    }
  }

  lemma StripOfSlice(t: string, s: string, i: int, j: int)
    requires 0 <= i <= j <= |s| && t == s[i..j]
    requires AllSpace(s[..i]) && AllSpace(s[j..])
    requires t != [] ==> !IsSpace(t[0]) && !IsSpace(t[|t| - 1])
    ensures IsStripOf(t, s)
  {
  }

  lemma StripSpec(s: string)
    ensures IsStripOf(Strip(s), s)
  {
    var i := StripStartSpec(s);
    var u := s[i..];
    var j := StripEndSpec(u);
    var t := Strip(s);
    assert t == u[..j] == s[i..i + j];
    assert u[j..] == s[i + j..];
    assert t != [] ==> t[0] == u[0];
    StripOfSlice(t, s, i, i + j);
  }

  /** Stripping never lengthens a string. */
  lemma StripShorter(s: string)
    ensures |Strip(s)| <= |s|
  {
    StripSpec(s);
  }

  /** A string that neither starts nor ends with white space is its own strip. */
  lemma StripUnpadded(s: string)
    requires s != [] && !IsSpace(s[0]) && !IsSpace(s[|s| - 1])
    ensures Strip(s) == s
  {
  }
}
