/** The string operations of Rust's standard library that the modelled code
    relies on. */
module Text {
  /** str::contains */
  predicate Contains(text: string, part: string) {
    exists i | 0 <= i <= |text| - |part| :: text[i..][..|part|] == part
  }

  lemma ContainsMeans(text: string, part: string)
    ensures Contains(text, part) <==> exists a, b :: text == a + part + b
  {
    if i :| 0 <= i <= |text| - |part| && text[i..][..|part|] == part {
      assert text == text[..i] + part + text[i + |part|..];
    }
    if a, b :| text == a + part + b {
      assert text[|a|..][..|part|] == part;
    }
  }

  /** char::is_whitespace: the Unicode property White_Space. */
  predicate IsWhite(c: char) {
    var n := c as int;
    9 <= n <= 13 || n == 0x20 || n == 0x85 || n == 0xA0 || n == 0x1680 || 0x2000 <= n <= 0x200A
    || n == 0x2028 || n == 0x2029 || n == 0x202F || n == 0x205F || n == 0x3000
  }

  /** The wide spaces of Unicode and its two line separators. */
  const WIDE_SPACES := ['\U{1680}', '\U{2000}', '\U{2001}', '\U{2002}', '\U{2003}', '\U{2004}', '\U{2005}', '\U{2006}',
                        '\U{2007}', '\U{2008}', '\U{2009}', '\U{200a}', '\U{2028}', '\U{2029}', '\U{202f}', '\U{205f}',
                        '\U{3000}']

  /** Tab to carriage return, the space, the next line, the space that does not break,
      and the wide ones. */
  lemma WhiteMeans(c: char)
    ensures IsWhite(c) <==> c in "\t\U{b}\U{c}\n\r \U{85}\U{a0}" || c in WIDE_SPACES
  {
    var n := c as int;
    if 0x2000 <= n <= 0x200A {
      assert WIDE_SPACES[n - 0x1FFF] == c;
    }
    if n in {0x1680, 0x2028, 0x2029, 0x202F, 0x205F, 0x3000} {
      assert WIDE_SPACES[0] == '\U{1680}' && WIDE_SPACES[12] == '\U{2028}' && WIDE_SPACES[13] == '\U{2029}';
      assert WIDE_SPACES[14] == '\U{202f}' && WIDE_SPACES[15] == '\U{205f}' && WIDE_SPACES[16] == '\U{3000}';
    }
    if n in {9, 10, 11, 12, 13, 32, 133, 160} {
      assert "\t\U{b}\U{c}\n\r \U{85}\U{a0}"[if n == 9 then 0 else if n == 11 then 1 else if n == 12 then 2
        else if n == 10 then 3 else if n == 13 then 4 else if n == 32 then 5 else if n == 133 then 6 else 7] == c;
    }
  }

  function TrimStart(s: string): (t: string)
    ensures |t| <= |s|
    ensures t == [] || !IsWhite(t[0])
  {
    if s != [] && IsWhite(s[0]) then TrimStart(s[1..]) else s
  }

  function TrimEnd(s: string): (t: string)
    ensures t <= s
    ensures t == [] || !IsWhite(t[|t| - 1])
  {
    if s != [] && IsWhite(s[|s| - 1]) then TrimEnd(s[..|s| - 1]) else s
  }

  /** str::trim */
  function Trim(s: string): string {
    TrimEnd(TrimStart(s))
  }

  lemma TrimKeeps(s: string)
    requires s != "" && !IsWhite(s[0]) && !IsWhite(s[|s| - 1])
    ensures Trim(s) == s
  {
  }

  ghost predicate AllWhite(s: string) {
    forall i :: 0 <= i < |s| ==> IsWhite(s[i])
  }

  /** What trimming takes off on either side is white space. */
  lemma TrimSplits(s: string) returns (front: string, back: string)
    ensures s == front + Trim(s) + back && AllWhite(front) && AllWhite(back)
    ensures Trim(s) != "" ==> !IsWhite(Trim(s)[0]) && !IsWhite(Trim(s)[|Trim(s)| - 1])
  {
    front := TrimStartSplits(s);
    back := TrimEndSplits(TrimStart(s));
    assert s == front + (Trim(s) + back);
  }

  lemma {:induction false} TrimStartSplits(s: string) returns (front: string)
    ensures s == front + TrimStart(s) && AllWhite(front)
  {
    front := "";
    if s != "" && IsWhite(s[0]) {
      front := TrimStartSplits(s[1..]);
      front := [s[0]] + front;
    }
  }

  lemma {:induction false} TrimEndSplits(s: string) returns (back: string)
    ensures s == TrimEnd(s) + back && AllWhite(back)
  {
    back := "";
    if s != "" && IsWhite(s[|s| - 1]) {
      back := TrimEndSplits(s[..|s| - 1]);
      back := back + [s[|s| - 1]];
    }
  }

  /** White space around a text with none at its ends is all that is trimmed. */
  lemma TrimOf(front: string, t: string, back: string)
    requires AllWhite(front) && AllWhite(back)
    requires t != "" && !IsWhite(t[0]) && !IsWhite(t[|t| - 1])
    ensures Trim(front + t + back) == t
  {
    assert front + t + back == front + (t + back);
    TrimStartOf(front, t + back);
    TrimEndOf(t, back);
  }

  lemma {:induction false} TrimStartOf(front: string, t: string)
    requires AllWhite(front) && t != "" && !IsWhite(t[0])
    ensures TrimStart(front + t) == t
  {
    if front == "" {
      assert front + t == t;
    } else {
      TrimStartOf(front[1..], t);
      assert (front + t)[1..] == front[1..] + t;
    }
  }

  lemma {:induction false} TrimEndOf(t: string, back: string)
    requires AllWhite(back) && t != "" && !IsWhite(t[|t| - 1])
    ensures TrimEnd(t + back) == t
  {
    if back == "" {
      assert t + back == t;
    } else {
      TrimEndOf(t, back[..|back| - 1]);
      assert (t + back)[..|t + back| - 1] == t + back[..|back| - 1];
    }
  }

  predicate IsUpper(c: char) {
    'A' <= c <= 'Z'
  }

  predicate IsLower(c: char) {
    'a' <= c <= 'z'
  }

  /** The letters, one after the other. */
  lemma LettersAre(c: char)
    ensures IsLower(c) <==> exists k :: 0 <= k < 26 && c as int == LetterAt(97, k)
    ensures IsUpper(c) <==> exists k :: 0 <= k < 26 && c as int == LetterAt(65, k)
  {
    if IsLower(c) {
      assert c as int == LetterAt(97, c as int - 97);
    }
    if IsUpper(c) {
      assert c as int == LetterAt(65, c as int - 65);
    }
  }

  function LetterAt(first: int, k: int): int {
    first + k
  }

  /** char::to_ascii_lowercase */
  function Lower(c: char): char {
    if IsUpper(c) then c - 'A' + 'a' else c
  }

  function LowerAll(s: string): (t: string)
    ensures |t| == |s|
  {
    seq(|s|, i requires 0 <= i < |s| => Lower(s[i]))
  }

  /** str::eq_ignore_ascii_case */
  predicate SameIgnoringCase(a: string, b: string) {
    LowerAll(a) == LowerAll(b)
  }
}
