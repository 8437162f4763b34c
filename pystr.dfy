/**
 * The Python `str` methods the loader calls (`strip`, `title`, `replace('_',
 * ' ')`) and the character classes of the regular expression `\b\d{6}\b`,
 * over ASCII letters and digits.
 */
module PyStr {

  /** `str.isspace` for one character: the whole set Python treats as whitespace. */
  predicate IsSpace(c: char) {
    var k := c as int;
    (9 <= k <= 13) || (28 <= k <= 32) || k == 0x85 || k == 0xA0 || k == 0x1680
    || (0x2000 <= k <= 0x200A) || k == 0x2028 || k == 0x2029 || k == 0x202F
    || k == 0x205F || k == 0x3000
  }

  predicate IsLowerLetter(c: char) { 'a' <= c <= 'z' }
  predicate IsUpperLetter(c: char) { 'A' <= c <= 'Z' }

  /** A cased character in the sense of `str.title`: a letter. */
  predicate IsCased(c: char) { IsLowerLetter(c) || IsUpperLetter(c) }

  function Upper(c: char): (r: char)
    ensures IsCased(r) == IsCased(c)
    ensures !IsCased(c) ==> r == c
  {
    if IsLowerLetter(c) then (c as int - 32) as char else c
  }

  function Lower(c: char): (r: char)
    ensures IsCased(r) == IsCased(c)
    ensures !IsCased(c) ==> r == c
  {
    if IsUpperLetter(c) then (c as int + 32) as char else c
  }

  predicate IsDigit(c: char) { '0' <= c <= '9' }

  /** A character of the regular-expression class `\w`. */
  predicate IsWordChar(c: char) { IsCased(c) || IsDigit(c) || c == '_' }

  /** `s.lstrip()`. */
  function StripLeft(s: string): (r: string)
    ensures |r| <= |s| && r == s[|s| - |r|..]
    ensures r == [] || !IsSpace(r[0])
    ensures forall i :: 0 <= i < |s| - |r| ==> IsSpace(s[i])
  {
    if s != [] && IsSpace(s[0]) then StripLeft(s[1..]) else s
  }

  /** `s.rstrip()`. */
  function StripRight(s: string): (r: string)
    ensures |r| <= |s| && r == s[..|r|]
    ensures r == [] || !IsSpace(r[|r| - 1])
    ensures forall i :: |r| <= i < |s| ==> IsSpace(s[i])
  {
    if s != [] && IsSpace(s[|s| - 1]) then StripRight(s[..|s| - 1]) else s
  }

  /** `s.strip()`: no longer than `s`, and without whitespace at either end. */
  function Strip(s: string): (r: string)
    ensures |r| <= |s|
    ensures IsStripped(r)
  {
    var l := StripLeft(s);
    var r := StripRight(l);
    assert r != [] ==> r[0] == l[0];
    r
  }

  /** `strip` gives the slice of `s` left after dropping the whitespace at both ends. */
  lemma StripSlice(s: string)
    ensures exists a: nat :: TrimmedAt(s, Strip(s), a)
  {
    var l := StripLeft(s);
    var r := StripRight(l);
    assert r == Strip(s);
    var a := |s| - |l|;
    assert l == s[a..];
    assert r == l[..|r|];
    assert s[a..][..|r|] == s[a..a + |r|];
    forall i | a + |r| <= i < |s| ensures IsSpace(s[i]) {
      assert s[i] == l[i - a];
    }
    assert TrimmedAt(s, r, a);
  }

  /** `r` is the slice of `s` starting at `a`, and everything of `s` around it is whitespace. */
  predicate TrimmedAt(s: string, r: string, a: nat) {
    a + |r| <= |s| && r == s[a..a + |r|]
    && (forall i :: 0 <= i < a ==> IsSpace(s[i]))
    && (forall i :: a + |r| <= i < |s| ==> IsSpace(s[i]))
  }

  /** No whitespace at either end: what `strip` returns and what it leaves alone. */
  predicate IsStripped(s: string) {
    s == [] || (!IsSpace(s[0]) && !IsSpace(s[|s| - 1]))
  }

  /** `s.title()`: a letter after a letter is lowered, any other letter is raised. */
  function Title(s: string): (r: string)
    ensures |r| == |s|
  {
    seq(|s|, i requires 0 <= i < |s| => if i > 0 && IsCased(s[i - 1]) then Lower(s[i]) else Upper(s[i]))
  }

  /** `s.replace('_', ' ')`. */
  function Underscores(s: string): (r: string)
    ensures |r| == |s| && '_' !in r
  {
    seq(|s|, i requires 0 <= i < |s| => if s[i] == '_' then ' ' else s[i])
  }

  /** `strip` removes exactly the whitespace at the ends: a stripped string is left alone. */
  lemma {:induction false} StripFixes(s: string)
    ensures Strip(s) == s <==> IsStripped(s)
  {
    if IsStripped(s) && s != [] {
      assert StripLeft(s) == s;
    }
  }

  lemma StripStripped(s: string)
    requires IsStripped(s)
    ensures Strip(s) == s
  {
    StripFixes(s);
  }

  lemma StripIdempotent(s: string)
    ensures Strip(Strip(s)) == Strip(s)
  {
    StripFixes(Strip(s));
  }

  /** Everything `strip` keeps was in the original string. */
  lemma StripKeeps(s: string, c: char)
    requires c in Strip(s)
    ensures c in s
  {
    var l := StripLeft(s);
    assert c in l;
  }

  lemma TitleSpaces(s: string, i: int)
    requires 0 <= i < |s|
    ensures IsSpace(Title(s)[i]) == IsSpace(s[i])
    ensures IsCased(Title(s)[i]) == IsCased(s[i])
  {
  }

  /** Title-casing a title-cased string changes nothing. */
  lemma TitleIdempotent(s: string)
    ensures Title(Title(s)) == Title(s)
  {
    var t := Title(s);
    forall i | 0 <= i < |s| ensures Title(t)[i] == t[i] {
      if i > 0 {
        TitleSpaces(s, i - 1);
      }
    }
  }

  /** Title-casing after an uncased first character is title-casing the rest. */
  lemma TitleTail(s: string)
    requires s != [] && !IsCased(s[0])
    ensures Title(s)[1..] == Title(s[1..])
  {
  }

  lemma TitleFront(s: string)
    requires s != []
    ensures Title(s)[..|s| - 1] == Title(s[..|s| - 1])
  {
  }

  lemma {:induction false} StripLeftTitle(s: string)
    ensures StripLeft(Title(s)) == Title(StripLeft(s))
  {
    if s != [] && IsSpace(s[0]) {
      TitleSpaces(s, 0);
      TitleTail(s);
      StripLeftTitle(s[1..]);
    } else if s != [] {
      TitleSpaces(s, 0);
    }
  }

  lemma {:induction false} StripRightTitle(s: string)
    ensures StripRight(Title(s)) == Title(StripRight(s))
  {
    if s != [] && IsSpace(s[|s| - 1]) {
      TitleSpaces(s, |s| - 1);
      TitleFront(s);
      StripRightTitle(s[..|s| - 1]);
    } else if s != [] {
      TitleSpaces(s, |s| - 1);
    }
  }

  /** `strip` and `title` commute: title-casing neither adds nor removes whitespace. */
  lemma StripTitle(s: string)
    ensures Strip(Title(s)) == Title(Strip(s))
  {
    StripLeftTitle(s);
    StripRightTitle(StripLeft(s));
  }

  /** The text `title(strip(_))` produces is a fixed point of `title(strip(_))`. */
  lemma TitleStripIdempotent(s: string)
    ensures Title(Strip(Title(Strip(s)))) == Title(Strip(s))
  {
    StripTitle(Strip(s));
    StripIdempotent(s);
    TitleIdempotent(Strip(s));
  }

  /** `title` yields "Nan" exactly from the three letters n, a, n in any case. */
  lemma TitleIsNan(s: string)
    ensures Title(s) == "Nan" <==> |s| == 3 && Lower(s[0]) == 'n' && Lower(s[1]) == 'a' && Lower(s[2]) == 'n'
  {
    if |s| == 3 {
      var t := Title(s);
      assert t[0] == Upper(s[0]);
      if Lower(s[0]) == 'n' {
        assert t[1] == Lower(s[1]);
        if Lower(s[1]) == 'a' {
          assert t[2] == Lower(s[2]);
        }
      }
      if t == "Nan" {
        assert IsCased(s[0]) && IsCased(s[1]);
      }
    }
  }

  /** A stripped word with one space on each side strips back to the word. */
  lemma StripPadded(w: string)
    requires w != [] && IsStripped(w)
    ensures Strip([' '] + w + [' ']) == w
  {
    var s := [' '] + w + [' '];
    assert s[1..] == w + [' '];
    assert StripLeft(s) == StripLeft(w + [' ']);
    assert (w + [' '])[0] == w[0];
    assert StripLeft(w + [' ']) == w + [' '];
    assert (w + [' '])[..|w|] == w;
    assert StripRight(w + [' ']) == StripRight(w);
    assert StripRight(w) == w;
  }

  /** Title-casing a word with one space on each side title-cases the word alone. */
  lemma TitlePadded(w: string)
    ensures Title([' '] + w + [' ']) == [' '] + Title(w) + [' ']
  {
    var s := [' '] + w + [' '];
    forall i | 0 <= i < |s| ensures Title(s)[i] == ([' '] + Title(w) + [' '])[i] {
      if 1 < i <= |w| {
        assert s[i - 1] == w[i - 2];
      }
    }
  }

  /** `replace('_', ' ')` on a word with one underscore on each side. */
  lemma UnderscoresPadded(w: string)
    ensures Underscores(['_'] + w + ['_']) == [' '] + Underscores(w) + [' ']
  {
  }
}
