/** Quoting an argument vector for a POSIX shell (shell_quote and shell_join in
    src/session_log.rs), against an independent reading of the shell's own rules. */
module ShellQuote {
  import opened Wrappers
  import Text

  // ---------------------------------------------------------------- printing

  predicate IsSafe(c: char) {
    Text.IsLower(c) || Text.IsUpper(c) || '0' <= c <= '9' || c == '-' || c == '_' || c == '.' || c == '/'
  }

  /** Every quote closes the quoted text, adds an escaped quote, and opens it again. */
  function Escaped(s: string): string {
    if s == [] then [] else (if s[0] == '\'' then "'\\''" else [s[0]]) + Escaped(s[1..])
  }

  function Quote(s: string): string {
    if s == [] then "''"
    else if forall c :: c in s ==> IsSafe(c) then s
    else "'" + Escaped(s) + "'"
  }

  /** Left as it is: letters, digits and four marks, and not nothing. */
  predicate IsPlain(s: string) {
    s != "" && forall c :: c in s ==>
      'a' <= c <= 'z' || 'A' <= c <= 'Z' || '0' <= c <= '9' || c in "-_./"
  }

  lemma {:induction false} EscapedIsNoShorter(s: string)
    ensures |Escaped(s)| >= |s|
  {
    if s != "" {
      EscapedIsNoShorter(s[1..]);
    }
  }

  lemma QuotesUnlessPlain(s: string)
    ensures Quote(s) == s <==> IsPlain(s)
    ensures !IsPlain(s) ==> Quote(s)[0] == '\''
  {
    EscapedIsNoShorter(s);
    assert "-_./"[0] == '-' && "-_./"[1] == '_' && "-_./"[2] == '.' && "-_./"[3] == '/';
  }

  function Join(argv: seq<string>): string {
    if argv == [] then ""
    else if |argv| == 1 then Quote(argv[0])
    else Quote(argv[0]) + " " + Join(argv[1..])
  }

  // ---------------------------------------------------------------- the shell's reading

  /** Characters that mean something to the shell when they are not quoted
      (section 2.2 of XCU in POSIX.1-2017, and the reserved words `{`, `}`, `!`). */
  const SPECIAL: set<char> :=
    {'|', '&', ';', '<', '>', '(', ')', '$', '`', '"', '*', '?', '[', '#', '~', '=', '%', '{', '}', '!', '\n'}

  /** Word splitting by sections 2.2.1, 2.2.2 and 2.3 of XCU: a backslash keeps
      the next character (and joins lines before a newline), single quotes keep
      everything up to the next one, unquoted blanks separate words. None when an
      unquoted character would do anything else, or a quote is left unfinished. */
  function Split(s: string, quoted: bool, word: Option<string>): Option<seq<string>>
    decreases |s|
  {
    if s == [] then
      if quoted then None else Some(if word.Some? then [word.value] else [])
    else if quoted then
      if s[0] == '\'' then Split(s[1..], false, word) else Split(s[1..], true, Grown(word, s[0]))
    else if s[0] == '\'' then Split(s[1..], true, Some(if word.Some? then word.value else ""))
    else if s[0] == '\\' then
      if |s| == 1 then None
      else if s[1] == '\n' then Split(s[2..], false, word)
      else Split(s[2..], false, Grown(word, s[1]))
    else if s[0] == ' ' || s[0] == '\t' then
      var rest := Split(s[1..], false, None);
      if rest.None? || word.None? then rest else Some([word.value] + rest.value)
    else if s[0] in SPECIAL then None
    else Split(s[1..], false, Grown(word, s[0]))
  }

  function Grown(word: Option<string>, c: char): Option<string> {
    Some((if word.Some? then word.value else "") + [c])
  }

  // ---------------------------------------------------------------- round trip

  lemma {:induction false} EscapedReads(s: string, rest: string, word: string)
    ensures Split(Escaped(s) + ("'" + rest), true, Some(word)) == Split(rest, false, Some(word + s))
    decreases |s|
  {
    if s == [] {
      assert Escaped(s) + ("'" + rest) == ['\''] + rest;
      assert word + s == word;
    } else {
      var tail := Escaped(s[1..]) + ("'" + rest);
      EscapedReads(s[1..], rest, word + [s[0]]);
      assert word + [s[0]] + s[1..] == word + s;
      if s[0] == '\'' {
        EscapedQuoteReads(tail, word);
        assert Escaped(s) + ("'" + rest) == "'\\''" + tail;
      } else {
        assert Escaped(s) + ("'" + rest) == [s[0]] + tail;
      }
    }
  }

  lemma EscapedQuoteReads(tail: string, word: string)
    ensures Split("'\\''" + tail, true, Some(word)) == Split(tail, true, Some(word + "'"))
  {
    var closing := "'\\''" + tail;
    var escaped := closing[1..];
    var opening := escaped[2..];
    assert opening[0] == '\'' && opening[1..] == tail;
    assert Split(closing, true, Some(word)) == Split(escaped, false, Some(word));
    assert escaped[0] == '\\' && escaped[1] == '\'';
    assert Split(escaped, false, Some(word)) == Split(opening, false, Some(word + "'"));
  }

  lemma SafeIsPlain(c: char)
    requires IsSafe(c)
    ensures c !in SPECIAL && c != '\\' && c != '\'' && c != ' ' && c != '\t'
  {
  }

  lemma {:induction false} SafeReads(s: string, rest: string, word: Option<string>)
    requires forall c :: c in s ==> IsSafe(c)
    ensures Split(s + rest, false, word) ==
            Split(rest, false, if s == [] then word else Some((if word.Some? then word.value else "") + s))
    decreases |s|
  {
    if s == [] {
      assert s + rest == rest;
    } else {
      assert s + rest == [s[0]] + (s[1..] + rest);
      assert s[0] in s;
      SafeIsPlain(s[0]);
      SafeReads(s[1..], rest, Grown(word, s[0]));
      assert (if word.Some? then word.value else "") + [s[0]] + s[1..] == (if word.Some? then word.value else "") + s;
    }
  }

  lemma QuoteOpens(rest: string)
    ensures Split("'" + rest, false, None) == Split(rest, true, Some(""))
  {
  }

  lemma QuoteCloses(rest: string)
    ensures Split("'" + rest, true, Some("")) == Split(rest, false, Some(""))
  {
  }

  lemma Enclosed(inner: string, rest: string)
    ensures "'" + inner + "'" + rest == "'" + (inner + ("'" + rest))
  {
  }

  /** A quoted argument is read as itself, whatever follows it. */
  lemma QuotedReads(a: string, rest: string)
    ensures Split(Quote(a) + rest, false, None) == Split(rest, false, Some(a))
  {
    if a == [] {
      QuoteOpens("'" + rest);
      QuoteCloses(rest);
      assert Quote(a) + rest == "'" + ("'" + rest);
    } else if forall c :: c in a ==> IsSafe(c) {
      SafeReads(a, rest, None);
      assert "" + a == a;
    } else {
      EscapedReads(a, rest, "");
      QuoteOpens(Escaped(a) + ("'" + rest));
      Enclosed(Escaped(a), rest);
      assert "" + a == a;
    }
  }

  /** The shell splits the joined line back into exactly the argument vector. */
  lemma {:induction false} SplitOfJoin(argv: seq<string>)
    ensures Split(Join(argv), false, None) == Some(argv)
  {
    if |argv| == 1 {
      QuotedReads(argv[0], "");
      assert Quote(argv[0]) + "" == Quote(argv[0]);
      assert argv == [argv[0]];
    } else if argv != [] {
      var rest := " " + Join(argv[1..]);
      QuotedReads(argv[0], rest);
      assert Join(argv) == Quote(argv[0]) + rest;
      assert rest[1..] == Join(argv[1..]);
      SplitOfJoin(argv[1..]);
      assert [argv[0]] + argv[1..] == argv;
    }
  }

  /** So no two argument vectors are ever joined into the same line. */
  lemma JoinIsInjective(a: seq<string>, b: seq<string>)
    requires Join(a) == Join(b)
    ensures a == b
  {
    SplitOfJoin(a);
    SplitOfJoin(b);
  }

  // ---------------------------------------------------------------- no needless quoting

  predicate Bare(s: string) {
    s != [] && forall c :: c in s ==> IsSafe(c)
  }

  /** An argument left unquoted is one the shell would have read as itself anyway,
      in any position of any line: quoting is skipped only when it is not needed. */
  lemma BareReadsAsItself(s: string)
    requires Bare(s)
    ensures Quote(s) == s && Split(s, false, None) == Some([s])
  {
    SafeReads(s, "", None);
    assert s + "" == s;
    assert "" + s == s;
  }
}
