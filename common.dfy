/** Small shared vocabulary: optional values and the text operations the
    trading code applies to outcome names and market descriptions. */
module Common {

  datatype Option<T> = None | Some(value: T)

  /** Python's `str.upper`, restricted to ASCII letters. */
  function UpperChar(c: char): char
  {
    if 'a' <= c <= 'z' then (c as int - 32) as char else c
  }

  function Upper(s: string): string
  {
    seq(|s|, i requires 0 <= i < |s| => UpperChar(s[i]))
  }

  /** `str(a).upper() == b.upper()`: the comparison used for outcome names. */
  predicate SameWord(a: string, b: string)
  {
    Upper(a) == Upper(b)
  }

  lemma SameWordIgnoresCase()
    ensures SameWord("yes", "YES") && SameWord("No", "NO")
    ensures !SameWord("YES", "NO") && !SameWord("Maybe", "YES")
  {
    assert Upper("YES")[1] != Upper("NO")[1];
    assert |Upper("Maybe")| != |Upper("YES")|;
  }

  /** The characters Python's `str.strip()` removes: those `str.isspace()`
      holds for. These are tab to carriage return (U+0009-U+000D), the
      separators U+001C-U+001F, the space, U+0085, the no-break space, and
      the Unicode space separators and line and paragraph separators. */
  predicate IsSpace(c: char)
  {
    ('\U{9}' <= c <= '\U{D}') || ('\U{1C}' <= c <= '\U{20}')
    || c == '\U{85}' || c == '\U{A0}' || c == '\U{1680}'
    || ('\U{2000}' <= c <= '\U{200A}') || c == '\U{2028}' || c == '\U{2029}'
    || c == '\U{202F}' || c == '\U{205F}' || c == '\U{3000}'
  }

  /** The separator U+001C and the no-break space are stripped like the
      space; a letter is not. */
  lemma StripSeparators()
    ensures Strip("\U{1C}a\U{A0}") == "a"
  {
    var s := "\U{1C}a\U{A0}";
    var t := "a\U{A0}";
    assert IsSpace(s[0]) && s[1..] == t;
    assert !IsSpace(t[0]);
    assert TrimStart(s) == t;
    assert IsSpace(t[1]) && t[..1] == "a";
    assert TrimEnd("a") == "a";
  }

  function TrimStart(s: string): (r: string)
    ensures |r| <= |s| && r == s[|s| - |r|..]
    ensures r == [] || !IsSpace(r[0])
    ensures forall i :: 0 <= i < |s| - |r| ==> IsSpace(s[i])
  {
    if s != [] && IsSpace(s[0]) then TrimStart(s[1..]) else s
  }

  function TrimEnd(s: string): (r: string)
    ensures |r| <= |s| && r == s[..|r|]
    ensures r == [] || !IsSpace(r[|r| - 1])
    ensures forall i :: |r| <= i < |s| ==> IsSpace(s[i])
  {
    if s != [] && IsSpace(s[|s| - 1]) then TrimEnd(s[..|s| - 1]) else s
  }

  /** `r` is `s` with some whitespace removed from each end. */
  ghost predicate TrimmedFrom(r: string, s: string)
  {
    exists i, j :: 0 <= i <= j <= |s| && r == s[i..j]
      && (forall k :: 0 <= k < i ==> IsSpace(s[k]))
      && (forall k :: j <= k < |s| ==> IsSpace(s[k]))
  }

  /** Removing the leading then the trailing whitespace trims `s`. */
  lemma TrimBothEnds(s: string)
    ensures TrimmedFrom(TrimEnd(TrimStart(s)), s)
  {
    var t := TrimStart(s);
    var r := TrimEnd(t);
    var i := |s| - |t|;
    var j := i + |r|;
    assert r == s[i..j];
    forall k | j <= k < |s|
      ensures IsSpace(s[k])
    {
      assert s[k] == t[k - i];
    }
  }

  /** `str.strip()`: the infix left after removing the whitespace at both
      ends, which then starts and ends with a non-whitespace character. */
  function Strip(s: string): (r: string)
    ensures TrimmedFrom(r, s)
    ensures r == [] || (!IsSpace(r[0]) && !IsSpace(r[|r| - 1]))
  {
    TrimBothEnds(s);
    TrimEnd(TrimStart(s))
  }
}
