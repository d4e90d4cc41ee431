/** Coloured spans from ANSI lines (scripts/gen_os_logos.py): the SGR escapes of a
    line, the spans built from it, and a character-by-character reading of the
    same line to compare them with. */
module Sgr {
  import opened Wrappers
  import Decimal
  import Text

  // ---------------------------------------------------------------- colours

  /** A colour of the 16-colour palette by index, or a true colour. */
  datatype Colour = Index(n: nat) | Rgb(r: nat, g: nat, b: nat)

  /** The foreground set so far; None is the default. */
  datatype Style = Style(fg: Option<Colour>, bold: bool)

  const PLAIN := Style(None, false)
  const DEFAULT_INDEX := Index(7)
  const LEVELS: seq<nat> := [0, 95, 135, 175, 215, 255]

  function Xterm256(n: nat): Colour {
    if n < 16 then Index(n)
    else if n < 232 then
      var cube := n - 16;
      Rgb(LEVELS[cube / 36 % 6], LEVELS[cube / 6 % 6], LEVELS[cube % 6])
    else
      var grey := 8 + (n - 232) * 10;
      Rgb(grey, grey, grey)
  }

  function Resolve(s: Style): Colour {
    match s.fg
    case None => DEFAULT_INDEX
    case Some(Rgb(_, _, _)) => s.fg.value
    case Some(Index(n)) => if s.bold && n < 8 then Index(n + 8) else Index(n)
  }

  // ---------------------------------------------------------------- one escape

  /** A parameter that stands alone; those not listed are ignored. */
  function Single(c: nat, s: Style): Style {
    if c == 0 then PLAIN
    else if c == 1 then s.(bold := true)
    else if c == 22 then s.(bold := false)
    else if 30 <= c <= 37 then s.(fg := Some(Index(c - 30)))
    else if c == 39 then s.(fg := None)
    else if 90 <= c <= 97 then s.(fg := Some(Index(c - 82)))
    else s
  }

  /** The program's meaning of a list of SGR parameters, read from the left: of the
      colour forms it knows those of the foreground, 38;5;n and 38;2;r;g;b. */
  function Sgr(codes: seq<nat>, s: Style): Style
    decreases |codes|
  {
    if codes == [] then s
    else if codes[0] == 38 && |codes| >= 3 && codes[1] == 5 then Sgr(codes[3..], s.(fg := Some(Xterm256(codes[2]))))
    else if codes[0] == 38 && |codes| >= 5 && codes[1] == 2 then
      Sgr(codes[5..], s.(fg := Some(Rgb(codes[2], codes[3], codes[4]))))
    else Sgr(codes[1..], Single(codes[0], s))
  }

  /** _apply: the same with an index that skips the parameters of a colour. */
  method Apply(codes: seq<nat>, fg0: Option<Colour>, bold0: bool) returns (fg: Option<Colour>, bold: bool)
    ensures Style(fg, bold) == Sgr(codes, Style(fg0, bold0))
  {
    fg, bold := fg0, bold0;
    var i := 0;
    while i < |codes|
      invariant i <= |codes|
      invariant Sgr(codes[i..], Style(fg, bold)) == Sgr(codes, Style(fg0, bold0))
    {
      var c := codes[i];
      ghost var rest := codes[i..];
      assert rest[1..] == codes[i + 1..];
      if c == 0 {
        fg, bold := None, false;
      } else if c == 1 {
        bold := true;
      } else if c == 22 {
        bold := false;
      } else if 30 <= c <= 37 {
        fg := Some(Index(c - 30));
      } else if c == 39 {
        fg := None;
      } else if 90 <= c <= 97 {
        fg := Some(Index(c - 90 + 8));
      } else if c == 38 && i + 1 < |codes| {
        if codes[i + 1] == 5 && i + 2 < |codes| {
          assert rest[3..] == codes[i + 3..];
          fg := Some(Xterm256(codes[i + 2]));
          i := i + 2;
        } else if codes[i + 1] == 2 && i + 4 < |codes| {
          assert rest[5..] == codes[i + 5..];
          fg := Some(Rgb(codes[i + 2], codes[i + 3], codes[i + 4]));
          i := i + 4;
        }
      }
      i := i + 1;
    }
  }

  // ---------------------------------------------------------------- finding escapes

  /** The end of the run of digits and semicolons that starts at `i`. */
  function ParamsEnd(line: string, i: nat): (r: nat)
    requires i <= |line|
    ensures i <= r <= |line|
    ensures forall k :: i <= k < r ==> Decimal.IsDigit(line[k]) || line[k] == ';'
    decreases |line| - i
  {
    if i < |line| && (Decimal.IsDigit(line[i]) || line[i] == ';') then ParamsEnd(line, i + 1) else i
  }

  /** An escape of the form ESC [ parameters m at `i`. */
  predicate IsEscape(line: string, i: nat) {
    i + 2 < |line| && line[i] == '\U{1b}' && line[i + 1] == '['
    && ParamsEnd(line, i + 2) < |line| && line[ParamsEnd(line, i + 2)] == 'm'
  }

  function EscapeEnd(line: string, i: nat): (r: nat)
    requires IsEscape(line, i)
    ensures i + 2 < r <= |line|
  {
    ParamsEnd(line, i + 2) + 1
  }

  /** An escape is ESC, an opening bracket, digits and semicolons if any, and an m;
      its parameters are what stands in between, and it ends behind the m. */
  lemma EscapeOf(line: string, i: nat, end: nat)
    requires i + 2 <= end < |line| && line[i] == '\U{1b}' && line[i + 1] == '[' && line[end] == 'm'
    requires forall k :: i + 2 <= k < end ==> Decimal.IsDigit(line[k]) || line[k] == ';'
    ensures AreParams(line[i + 2..end])
    ensures IsEscape(line, i) && EscapeEnd(line, i) == end + 1 && EscapeCodes(line, i) == Codes(line[i + 2..end])
  {
    ParamsEndAt(line, i + 2, end);
  }

  /** And nothing else is. */
  lemma EscapeIsSpelled(line: string, i: nat) returns (end: nat)
    requires IsEscape(line, i)
    ensures i + 2 <= end < |line| && line[i] == '\U{1b}' && line[i + 1] == '[' && line[end] == 'm'
    ensures forall k :: i + 2 <= k < end ==> Decimal.IsDigit(line[k]) || line[k] == ';'
  {
    end := ParamsEnd(line, i + 2);
  }

  lemma {:induction false} ParamsEndAt(line: string, i: nat, end: nat)
    requires i <= end < |line| && !Decimal.IsDigit(line[end]) && line[end] != ';'
    requires forall k :: i <= k < end ==> Decimal.IsDigit(line[k]) || line[k] == ';'
    ensures ParamsEnd(line, i) == end
    decreases end - i
  {
    if i < end {
      ParamsEndAt(line, i + 1, end);
    }
  }

  predicate AreParams(params: string) {
    forall k :: 0 <= k < |params| ==> Decimal.IsDigit(params[k]) || params[k] == ';'
  }

  /** The parameters between semicolons; an empty one counts as 0. */
  function Codes(params: string): seq<nat>
    requires AreParams(params)
    decreases |params|
  {
    var end := FieldEnd(params);
    var first := Decimal.ValueOf(params[..end]);
    if end == |params| then [first] else [first] + Codes(params[end + 1..])
  }

  function FieldEnd(params: string): (r: nat)
    requires AreParams(params)
    ensures r <= |params| && Decimal.AllDigits(params[..r]) && (r < |params| ==> params[r] == ';')
  {
    if params == "" || params[0] == ';' then 0
    else
      var r := FieldEnd(params[1..]) + 1;
      assert params[..r] == [params[0]] + params[1..][..r - 1];
      r
  }

  function WrittenCodes(codes: seq<nat>): (r: string)
    requires codes != []
    ensures AreParams(r)
  {
    if |codes| == 1 then Decimal.Print(codes[0]) else Decimal.Print(codes[0]) + ";" + WrittenCodes(codes[1..])
  }

  lemma {:induction false} FieldEndAt(digits: string, rest: string)
    requires Decimal.AllDigits(digits) && AreParams(rest) && (rest == "" || rest[0] == ';')
    ensures AreParams(digits + rest) && FieldEnd(digits + rest) == |digits|
  {
    if digits == "" {
      assert digits + rest == rest;
    } else {
      assert digits[0] in digits;
      FieldEndAt(digits[1..], rest);
      assert (digits + rest)[0] == digits[0] && (digits + rest)[1..] == digits[1..] + rest;
      assert AreParams([digits[0]] + (digits[1..] + rest));
      assert digits + rest == [digits[0]] + (digits[1..] + rest);
    }
  }

  lemma FieldSplits(digits: string, rest: string)
    requires Decimal.AllDigits(digits) && AreParams(rest)
    ensures AreParams(digits + ";" + rest) && AreParams(digits)
    ensures Codes(digits + ";" + rest) == [Decimal.ValueOf(digits)] + Codes(rest)
    ensures Codes(digits) == [Decimal.ValueOf(digits)]
  {
    FieldEndAt(digits, ";" + rest);
    FieldEndAt(digits, "");
    var params := digits + ";" + rest;
    assert params == digits + (";" + rest) && digits + "" == digits;
    assert params[..|digits|] == digits && params[|digits| + 1..] == rest && digits[..|digits|] == digits;
  }

  /** The parameter text of a list of codes reads back as that list. */
  lemma {:induction false} CodesReadBack(codes: seq<nat>)
    requires codes != []
    ensures Codes(WrittenCodes(codes)) == codes
  {
    Decimal.ValueOfPrint(codes[0]);
    if |codes| == 1 {
      FieldSplits(Decimal.Print(codes[0]), "");
      assert [codes[0]] == codes;
    } else {
      CodesReadBack(codes[1..]);
      FieldSplits(Decimal.Print(codes[0]), WrittenCodes(codes[1..]));
      assert [codes[0]] + codes[1..] == codes;
    }
  }

  function EscapeCodes(line: string, i: nat): seq<nat>
    requires IsEscape(line, i)
  {
    Codes(line[i + 2..EscapeEnd(line, i) - 1])
  }

  // ---------------------------------------------------------------- character by character

  datatype Cell = Cell(c: char, colour: Colour)

  function Paint(text: string, colour: Colour): (r: seq<Cell>)
    ensures |r| == |text| && forall i :: 0 <= i < |r| ==> r[i] == Cell(text[i], colour)
  {
    seq(|text|, i requires 0 <= i < |text| => Cell(text[i], colour))
  }

  /** The characters of the line one by one, in the colours of that meaning. */
  function Cells(line: string, i: nat, s: Style): seq<Cell>
    requires i <= |line|
    decreases |line| - i
  {
    if i == |line| then []
    else if IsEscape(line, i) then Cells(line, EscapeEnd(line, i), Sgr(EscapeCodes(line, i), s))
    else [Cell(line[i], Resolve(s))] + Cells(line, i + 1, s)
  }

  // ---------------------------------------------------------------- spans

  datatype Span = Span(text: string, colour: Colour)

  function Flushed(text: string, colour: Colour): seq<Span> {
    if text == "" then [] else [Span(text, colour)]
  }

  /** A span is closed exactly where the resolved colour changes. */
  function Runs(line: string, i: nat, s: Style, buf: string): seq<Span>
    requires i <= |line|
    decreases |line| - i
  {
    if i == |line| then Flushed(buf, Resolve(s))
    else if IsEscape(line, i) then
      var next := Sgr(EscapeCodes(line, i), s);
      if Resolve(next) != Resolve(s) then Flushed(buf, Resolve(s)) + Runs(line, EscapeEnd(line, i), next, "")
      else Runs(line, EscapeEnd(line, i), next, buf)
    else Runs(line, i + 1, s, buf + [line[i]])
  }

  /** What Python's str.strip removes. */
  predicate IsBlank(text: string) {
    forall c :: c in text ==> Text.IsWhite(c) || 0x1C <= c as int <= 0x1F
  }

  lemma BlankMeans(c: char)
    ensures IsBlank([c]) <==>
        9 <= c as int <= 13 || 0x1C <= c as int <= 0x20 || c as int in {0x85, 0xA0} || c in Text.WIDE_SPACES
  {
    assert c in [c];
    Text.WhiteMeans(c);
  }

  function WithoutBlankEnd(spans: seq<Span>): seq<Span> {
    if spans != [] && IsBlank(spans[|spans| - 1].text) then WithoutBlankEnd(spans[..|spans| - 1]) else spans
  }

  /** Leftmost escape at or after `i`, or the end of the line. */
  function NextEscape(line: string, i: nat): (r: nat)
    requires i <= |line|
    ensures i <= r <= |line| && (r < |line| ==> IsEscape(line, r))
    ensures forall k :: i <= k < r ==> !IsEscape(line, k)
    decreases |line| - i
  {
    if i == |line| || IsEscape(line, i) then i else NextEscape(line, i + 1)
  }

  lemma {:induction false} RunsSkipText(line: string, i: nat, end: nat, s: Style, buf: string)
    requires i <= end <= |line| && forall k :: i <= k < end ==> !IsEscape(line, k)
    ensures Runs(line, i, s, buf) == Runs(line, end, s, buf + line[i..end])
    decreases end - i
  {
    if i == end {
      assert buf + line[i..end] == buf;
    } else {
      RunsSkipText(line, i + 1, end, s, buf + [line[i]]);
      assert buf + [line[i]] + line[i + 1..end] == buf + line[i..end];
    }
  }

  /** One escape closes the span before it, or leaves it open. */
  lemma EscapeStep(spans: seq<Span>, line: string, i: nat, s: Style, buf: string)
    requires i < |line| && IsEscape(line, i)
    ensures var next := Sgr(EscapeCodes(line, i), s);
            spans + Runs(line, i, s, buf) ==
            if Resolve(next) != Resolve(s)
            then spans + Flushed(buf, Resolve(s)) + Runs(line, EscapeEnd(line, i), next, "")
            else spans + Runs(line, EscapeEnd(line, i), next, buf)
  {
  }

  method Flush(spans: seq<Span>, buf: string, colour: Colour) returns (r: seq<Span>)
    ensures r == spans + Flushed(buf, colour)
  {
    r := spans;
    if buf != "" {
      r := r + [Span(buf, colour)];
    }
  }

  /** The last lines of parse_line: trailing blank spans are popped. */
  method DropBlankEnd(all: seq<Span>) returns (spans: seq<Span>)
    ensures spans == WithoutBlankEnd(all)
  {
    spans := all;
    while spans != [] && IsBlank(spans[|spans| - 1].text)
      invariant WithoutBlankEnd(spans) == WithoutBlankEnd(all)
    {
      spans := spans[..|spans| - 1];
    }
  }

  /** parse_line: escape by escape, with the text in between in one piece. */
  method ParseLine(line: string) returns (spans: seq<Span>)
    ensures spans == WithoutBlankEnd(Runs(line, 0, PLAIN, ""))
  {
    spans := [];
    var fg, bold, pos, buf := None, false, 0, "";
    var start := NextEscape(line, 0);
    while start < |line|
      invariant pos <= |line| && start == NextEscape(line, pos)
      invariant spans + Runs(line, pos, Style(fg, bold), buf) == Runs(line, 0, PLAIN, "")
      decreases |line| - pos
    {
      RunsSkipText(line, pos, start, Style(fg, bold), buf);
      buf := buf + line[pos..start];
      EscapeStep(spans, line, start, Style(fg, bold), buf);
      pos := EscapeEnd(line, start);
      var prev := Resolve(Style(fg, bold));
      var codes := EscapeCodes(line, start);
      fg, bold := Apply(codes, fg, bold);
      if Resolve(Style(fg, bold)) != prev {
        spans := Flush(spans, buf, prev);
        buf := "";
      }
      start := NextEscape(line, pos);
    }
    RunsSkipText(line, pos, |line|, Style(fg, bold), buf);
    assert line[pos..] == line[pos..|line|];
    buf := buf + line[pos..];
    assert Runs(line, |line|, Style(fg, bold), buf) == Flushed(buf, Resolve(Style(fg, bold)));
    spans := Flush(spans, buf, Resolve(Style(fg, bold)));
    spans := DropBlankEnd(spans);
  }

  // ---------------------------------------------------------------- spans mean the cells

  function Expand(spans: seq<Span>): seq<Cell> {
    if spans == [] then [] else Paint(spans[0].text, spans[0].colour) + Expand(spans[1..])
  }

  lemma {:induction false} ExpandJoins(a: seq<Span>, b: seq<Span>)
    ensures Expand(a + b) == Expand(a) + Expand(b)
  {
    if a == [] {
      assert a + b == b;
    } else {
      assert (a + b)[1..] == a[1..] + b;
      ExpandJoins(a[1..], b);
    }
  }

  lemma FlushedExpands(text: string, colour: Colour)
    ensures Expand(Flushed(text, colour)) == Paint(text, colour)
  {
  }

  lemma PaintJoins(a: string, b: string, colour: Colour)
    ensures Paint(a + b, colour) == Paint(a, colour) + Paint(b, colour)
  {
  }

  /** Before blanks are dropped the spans hold exactly the cells. */
  lemma {:induction false} RunsExpand(line: string, i: nat, s: Style, buf: string)
    requires i <= |line|
    ensures Expand(Runs(line, i, s, buf)) == Paint(buf, Resolve(s)) + Cells(line, i, s)
    decreases |line| - i
  {
    if i == |line| {
      FlushedExpands(buf, Resolve(s));
    } else if IsEscape(line, i) {
      var next := Sgr(EscapeCodes(line, i), s);
      if Resolve(next) != Resolve(s) {
        RunsExpand(line, EscapeEnd(line, i), next, "");
        ExpandJoins(Flushed(buf, Resolve(s)), Runs(line, EscapeEnd(line, i), next, ""));
        FlushedExpands(buf, Resolve(s));
        assert Paint("", Resolve(next)) + Cells(line, EscapeEnd(line, i), next) == Cells(line, i, s);
      } else {
        RunsExpand(line, EscapeEnd(line, i), next, buf);
      }
    } else {
      RunsExpand(line, i + 1, s, buf + [line[i]]);
      PaintJoins(buf, [line[i]], Resolve(s));
      assert Paint([line[i]], Resolve(s)) == [Cell(line[i], Resolve(s))];
    }
  }

  ghost predicate AllBlank(cells: seq<Cell>) {
    forall k :: 0 <= k < |cells| ==> IsBlank([cells[k].c])
  }

  lemma {:induction false} DroppedIsBlank(spans: seq<Span>) returns (dropped: seq<Cell>)
    ensures Expand(spans) == Expand(WithoutBlankEnd(spans)) + dropped && AllBlank(dropped)
    ensures WithoutBlankEnd(spans) <= spans
  {
    if spans != [] && IsBlank(spans[|spans| - 1].text) {
      var init, last := spans[..|spans| - 1], spans[|spans| - 1];
      var before := DroppedIsBlank(init);
      dropped := before + Paint(last.text, last.colour);
      assert spans == init + [last];
      LastExpands(init, last);
      BlankByCharacter(last.text);
      BlankJoins(before, Paint(last.text, last.colour));
    } else {
      dropped := [];
    }
  }

  lemma LastExpands(init: seq<Span>, last: Span)
    ensures Expand(init + [last]) == Expand(init) + Paint(last.text, last.colour)
  {
    ExpandJoins(init, [last]);
    assert Expand([last]) == Paint(last.text, last.colour) + Expand([]);
  }

  ghost predicate ShowsBut(kept: seq<Cell>, dropped: seq<Cell>, all: seq<Cell>) {
    kept + dropped == all && AllBlank(dropped)
  }

  /** The spans returned hold the characters of the line in those colours, but for
      a blank end; what is kept does not end in a blank span. */
  lemma SpansHoldTheLine(line: string)
    ensures var spans := WithoutBlankEnd(Runs(line, 0, PLAIN, ""));
            (exists dropped :: ShowsBut(Expand(spans), dropped, Cells(line, 0, PLAIN)))
            && (spans != [] ==> !IsBlank(spans[|spans| - 1].text))
  {
    RunsExpand(line, 0, PLAIN, "");
    var dropped := DroppedIsBlank(Runs(line, 0, PLAIN, ""));
    assert Paint("", Resolve(PLAIN)) + Cells(line, 0, PLAIN) == Cells(line, 0, PLAIN);
    assert ShowsBut(Expand(WithoutBlankEnd(Runs(line, 0, PLAIN, ""))), dropped, Cells(line, 0, PLAIN));
    WithoutBlankEndIsDone(Runs(line, 0, PLAIN, ""));
  }

  lemma WithoutBlankEndIsDone(spans: seq<Span>)
    ensures var kept := WithoutBlankEnd(spans); kept != [] ==> !IsBlank(kept[|kept| - 1].text)
  {
  }

  // ---------------------------------------------------------------- colours stay in range

  /** A palette index below 16, or components of one byte each. */
  predicate IsStorable(c: Colour) {
    match c
    case Index(n) => n < 16
    case Rgb(r, g, b) => r < 256 && g < 256 && b < 256
  }

  /** The palette formula is good for the 256 indices, and by its step of ten for
      one more, and then no further. */
  lemma PaletteIsStorable(n: nat)
    ensures IsStorable(Xterm256(n)) <==> n <= 256
  {
  }

  ghost predicate IsStorableStyle(s: Style) {
    s.fg.Some? ==> IsStorable(s.fg.value)
  }

  predicate Small(codes: seq<nat>) {
    forall k :: 0 <= k < |codes| ==> codes[k] < 256
  }

  lemma {:induction false} SgrStaysStorable(codes: seq<nat>, s: Style)
    requires IsStorableStyle(s) && Small(codes)
    ensures IsStorableStyle(Sgr(codes, s))
    decreases |codes|
  {
    if codes != [] {
      if codes[0] == 38 && |codes| >= 3 && codes[1] == 5 {
        PaletteIsStorable(codes[2]);
        SgrStaysStorable(codes[3..], s.(fg := Some(Xterm256(codes[2]))));
      } else if codes[0] == 38 && |codes| >= 5 && codes[1] == 2 {
        SgrStaysStorable(codes[5..], s.(fg := Some(Rgb(codes[2], codes[3], codes[4]))));
      } else {
        SgrStaysStorable(codes[1..], Single(codes[0], s));
      }
    }
  }

  /** Every escape of the line stays within one byte per parameter. */
  ghost predicate SmallCodes(line: string) {
    forall i :: 0 <= i < |line| && IsEscape(line, i) ==> Small(EscapeCodes(line, i))
  }

  /** Then every colour of every cell can be stored. */
  lemma {:induction false} CellsAreStorable(line: string, i: nat, s: Style)
    requires i <= |line| && IsStorableStyle(s) && SmallCodes(line)
    ensures forall k :: 0 <= k < |Cells(line, i, s)| ==> IsStorable(Cells(line, i, s)[k].colour)
    decreases |line| - i
  {
    if i < |line| {
      if IsEscape(line, i) {
        SgrStaysStorable(EscapeCodes(line, i), s);
        CellsAreStorable(line, EscapeEnd(line, i), Sgr(EscapeCodes(line, i), s));
      } else {
        CellsAreStorable(line, i + 1, s);
      }
    }
  }

  // ---------------------------------------------------------------- coalescing

  /** How often the resolved colour changes from `i` on. */
  function Changes(line: string, i: nat, s: Style): nat
    requires i <= |line|
    decreases |line| - i
  {
    if i == |line| then 0
    else if IsEscape(line, i) then
      var next := Sgr(EscapeCodes(line, i), s);
      (if Resolve(next) != Resolve(s) then 1 else 0) + Changes(line, EscapeEnd(line, i), next)
    else Changes(line, i + 1, s)
  }

  /** An escape that changes nothing visible never splits a run of text. */
  lemma {:induction false} FewSpans(line: string, i: nat, s: Style, buf: string)
    requires i <= |line|
    ensures |Runs(line, i, s, buf)| <= Changes(line, i, s) + 1
    ensures forall k :: 0 <= k < |Runs(line, i, s, buf)| ==> Runs(line, i, s, buf)[k].text != ""
    decreases |line| - i
  {
    if i < |line| {
      if IsEscape(line, i) {
        var next := Sgr(EscapeCodes(line, i), s);
        if Resolve(next) != Resolve(s) {
          FewSpans(line, EscapeEnd(line, i), next, "");
        } else {
          FewSpans(line, EscapeEnd(line, i), next, buf);
        }
      } else {
        FewSpans(line, i + 1, s, buf + [line[i]]);
      }
    }
  }

  /** The position and style behind the escapes that start at `i`, if any do. */
  function Behind(line: string, i: nat, s: Style): (r: (nat, Style))
    requires i <= |line|
    ensures i <= r.0 <= |line| && (r.0 < |line| ==> !IsEscape(line, r.0))
    decreases |line| - i
  {
    if i < |line| && IsEscape(line, i) then Behind(line, EscapeEnd(line, i), Sgr(EscapeCodes(line, i), s)) else (i, s)
  }

  /** One of those escapes changes the resolved colour. */
  predicate Wavers(line: string, i: nat, s: Style)
    requires i <= |line|
    decreases |line| - i
  {
    i < |line| && IsEscape(line, i)
    && var next := Sgr(EscapeCodes(line, i), s);
       Resolve(next) != Resolve(s) || Wavers(line, EscapeEnd(line, i), next)
  }

  /** Reading on from `i` in style `s` one comes to `p` in style `t`. */
  predicate Visits(line: string, i: nat, s: Style, p: nat, t: Style)
    requires i <= |line|
    decreases |line| - i
  {
    (i == p && s == t)
    || (i < |line|
        && if IsEscape(line, i) then Visits(line, EscapeEnd(line, i), Sgr(EscapeCodes(line, i), s), p, t)
           else Visits(line, i + 1, s, p, t))
  }

  /** Nothing but escapes stand between `i` and the next visible character, they
      change the resolved colour, and they come back to it. With `kept` set, not
      all from that character on is blank. */
  ghost predicate Returns(line: string, i: nat, s: Style, kept: bool)
    requires i <= |line|
  {
    var (q, u) := Behind(line, i, s);
    Wavers(line, i, s) && q < |line| && Resolve(u) == Resolve(s) && (kept ==> !AllBlank(Cells(line, q, u)))
  }

  /** Some visible character from `i` on is followed by such a detour. */
  ghost predicate Detours(line: string, i: nat, s: Style, kept: bool)
    requires i <= |line|
  {
    exists p: nat, t :: DetourAt(line, i, s, kept, p, t)
  }

  ghost predicate DetourAt(line: string, i: nat, s: Style, kept: bool, p: nat, t: Style)
    requires i <= |line|
  {
    p < |line| && !IsEscape(line, p) && Visits(line, i, s, p, t) && Returns(line, p + 1, t, kept)
  }

  /** Two neighbouring spans share a colour; with `kept` set, the second or a later
      one is not blank. */
  ghost predicate Shares(spans: seq<Span>, kept: bool) {
    exists k: nat :: SharesAt(spans, k, kept)
  }

  ghost predicate SharesAt(spans: seq<Span>, k: nat, kept: bool) {
    k + 1 < |spans| && spans[k].colour == spans[k + 1].colour && (kept ==> NotBlankFrom(spans, k + 1))
  }

  ghost predicate NotBlankFrom(spans: seq<Span>, k: nat) {
    exists j: nat :: k <= j && NotBlankAt(spans, j)
  }

  ghost predicate NotBlankAt(spans: seq<Span>, j: nat) {
    j < |spans| && !IsBlank(spans[j].text)
  }

  lemma {:induction false} RunsSkipEscapes(line: string, i: nat, s: Style)
    requires i <= |line|
    ensures var (q, u) := Behind(line, i, s);
            Runs(line, i, s, "") == Runs(line, q, u, "") && Cells(line, i, s) == Cells(line, q, u)
    decreases |line| - i
  {
    if i < |line| && IsEscape(line, i) {
      var next := Sgr(EscapeCodes(line, i), s);
      RunsSkipEscapes(line, EscapeEnd(line, i), next);
      assert Flushed("", Resolve(s)) + Runs(line, EscapeEnd(line, i), next, "") ==
          Runs(line, EscapeEnd(line, i), next, "");
    }
  }

  lemma {:induction false} FirstSpan(line: string, i: nat, s: Style, buf: string)
    requires i <= |line| && buf != ""
    ensures Runs(line, i, s, buf) != [] && Runs(line, i, s, buf)[0].colour == Resolve(s)
    decreases |line| - i
  {
    if i < |line| {
      if IsEscape(line, i) {
        var next := Sgr(EscapeCodes(line, i), s);
        if Resolve(next) == Resolve(s) {
          FirstSpan(line, EscapeEnd(line, i), next, buf);
        }
      } else {
        FirstSpan(line, i + 1, s, buf + [line[i]]);
      }
    }
  }

  lemma {:induction false} BlankSpans(spans: seq<Span>)
    ensures NotBlankFrom(spans, 0) <==> !AllBlank(Expand(spans))
  {
    if spans != [] {
      var first, rest := Paint(spans[0].text, spans[0].colour), Expand(spans[1..]);
      BlankSpans(spans[1..]);
      assert AllBlank(first) <==> IsBlank(spans[0].text) by {
        assert forall k :: 0 <= k < |first| ==> first[k].c == spans[0].text[k];
        assert forall k :: 0 <= k < |first| ==> (IsBlank([first[k].c]) <==> IsBlank([spans[0].text[k]]));
        BlankByCharacter(spans[0].text);
      }
      BlankJoins(first, rest);
      assert NotBlankFrom(spans, 0) <==> !IsBlank(spans[0].text) || NotBlankFrom(spans[1..], 0) by {
        NotBlankSplits(spans);
      }
    }
  }

  lemma BlankByCharacter(text: string)
    ensures IsBlank(text) <==> forall k :: 0 <= k < |text| ==> IsBlank([text[k]])
  {
    if forall k :: 0 <= k < |text| ==> IsBlank([text[k]]) {
      forall c | c in text ensures Text.IsWhite(c) || 0x1C <= c as int <= 0x1F {
        var k :| 0 <= k < |text| && text[k] == c;
        assert c in [text[k]];
      }
    }
  }

  lemma BlankJoins(a: seq<Cell>, b: seq<Cell>)
    ensures AllBlank(a + b) <==> AllBlank(a) && AllBlank(b)
  {
    assert forall k :: 0 <= k < |a| ==> (a + b)[k] == a[k];
    assert forall k :: 0 <= k < |b| ==> (a + b)[|a| + k] == b[k];
  }

  lemma NotBlankSplits(spans: seq<Span>)
    requires spans != []
    ensures NotBlankFrom(spans, 0) <==> !IsBlank(spans[0].text) || NotBlankFrom(spans[1..], 0)
  {
    if !IsBlank(spans[0].text) {
      assert NotBlankAt(spans, 0);
    }
    NotBlankShifts(spans, 0);
    if j: nat :| 0 <= j && NotBlankAt(spans, j) && j > 0 {
      assert 1 <= j && NotBlankAt(spans, j);
    }
  }

  lemma NotBlankShifts(spans: seq<Span>, k: nat)
    requires spans != []
    ensures NotBlankFrom(spans, k + 1) <==> NotBlankFrom(spans[1..], k)
  {
    if j: nat :| k + 1 <= j && NotBlankAt(spans, j) {
      assert k <= j - 1 && NotBlankAt(spans[1..], j - 1);
    }
    if j: nat :| k <= j && NotBlankAt(spans[1..], j) {
      assert k + 1 <= j + 1 && NotBlankAt(spans, j + 1);
    }
  }

  /** A span in front shares its colour with the next, or the rest shares. */
  lemma SharesSplits(first: Span, rest: seq<Span>, kept: bool)
    ensures Shares([first] + rest, kept) <==>
      Shares(rest, kept) || (rest != [] && rest[0].colour == first.colour && (kept ==> NotBlankFrom(rest, 0)))
  {
    var all := [first] + rest;
    assert all[1..] == rest;
    forall k: nat ensures SharesAt(all, k + 1, kept) <==> SharesAt(rest, k, kept) {
      NotBlankShifts(all, k + 1);
    }
    NotBlankShifts(all, 0);
    assert SharesAt(all, 0, kept) <==> rest != [] && rest[0].colour == first.colour && (kept ==> NotBlankFrom(rest, 0));
    if k: nat :| SharesAt(all, k, kept) && k > 0 {
      assert SharesAt(rest, k - 1, kept);
    }
    if k: nat :| SharesAt(rest, k, kept) {
      assert SharesAt(all, k + 1, kept);
    }
  }

  lemma DetoursPastEscape(line: string, i: nat, s: Style, kept: bool)
    requires i < |line| && IsEscape(line, i)
    ensures Detours(line, i, s, kept) <==> Detours(line, EscapeEnd(line, i), Sgr(EscapeCodes(line, i), s), kept)
  {
    var end, next := EscapeEnd(line, i), Sgr(EscapeCodes(line, i), s);
    if p: nat, t :| DetourAt(line, i, s, kept, p, t) {
      assert DetourAt(line, end, next, kept, p, t);
    }
    if p: nat, t :| DetourAt(line, end, next, kept, p, t) {
      assert DetourAt(line, i, s, kept, p, t);
    }
  }

  lemma DetoursPastCharacter(line: string, i: nat, s: Style, kept: bool)
    requires i < |line| && !IsEscape(line, i)
    ensures Detours(line, i, s, kept) <==> Detours(line, i + 1, s, kept) || Returns(line, i + 1, s, kept)
  {
    if Detours(line, i, s, kept) {
      DetourAheadOrHere(line, i, s, kept);
    }
    if Detours(line, i + 1, s, kept) || Returns(line, i + 1, s, kept) {
      DetourFromHere(line, i, s, kept);
    }
  }

  lemma DetourFromHere(line: string, i: nat, s: Style, kept: bool)
    requires i < |line| && !IsEscape(line, i)
    requires Detours(line, i + 1, s, kept) || Returns(line, i + 1, s, kept)
    ensures Detours(line, i, s, kept)
  {
    if Returns(line, i + 1, s, kept) {
      assert DetourAt(line, i, s, kept, i, s);
    } else {
      var p: nat, t :| DetourAt(line, i + 1, s, kept, p, t);
      assert DetourAt(line, i, s, kept, p, t);
    }
  }

  lemma DetourAheadOrHere(line: string, i: nat, s: Style, kept: bool)
    requires i < |line| && !IsEscape(line, i) && Detours(line, i, s, kept)
    ensures Detours(line, i + 1, s, kept) || Returns(line, i + 1, s, kept)
  {
    var p: nat, t :| DetourAt(line, i, s, kept, p, t);
    if p == i {
      VisitsForward(line, i + 1, s, i, t);
    } else {
      assert DetourAt(line, i + 1, s, kept, p, t);
    }
  }

  /** Reading only goes forward. */
  lemma {:induction false} VisitsForward(line: string, i: nat, s: Style, p: nat, t: Style)
    requires i <= |line|
    ensures Visits(line, i, s, p, t) ==> i <= p
    decreases |line| - i
  {
    if i < |line| {
      if IsEscape(line, i) {
        VisitsForward(line, EscapeEnd(line, i), Sgr(EscapeCodes(line, i), s), p, t);
      } else {
        VisitsForward(line, i + 1, s, p, t);
      }
    }
  }

  /** What a colour change closes against what follows it. */
  lemma SeamShares(line: string, i: nat, s: Style, buf: string, kept: bool)
    requires i < |line| && IsEscape(line, i) && buf != ""
    requires Resolve(Sgr(EscapeCodes(line, i), s)) != Resolve(s)
    ensures var rest := Runs(line, EscapeEnd(line, i), Sgr(EscapeCodes(line, i), s), "");
            Returns(line, i, s, kept) <==>
              rest != [] && rest[0].colour == Resolve(s) && (kept ==> NotBlankFrom(rest, 0))
  {
    SpansBehind(line, EscapeEnd(line, i), Sgr(EscapeCodes(line, i), s));
  }

  /** The spans from a place on begin with the first character behind its escapes. */
  lemma SpansBehind(line: string, i: nat, s: Style)
    requires i <= |line|
    ensures var (q, u) := Behind(line, i, s);
            var rest := Runs(line, i, s, "");
            (rest != [] <==> q < |line|) && (q < |line| ==> rest[0].colour == Resolve(u))
            && (NotBlankFrom(rest, 0) <==> !AllBlank(Cells(line, q, u)))
  {
    var (q, u) := Behind(line, i, s);
    var rest := Runs(line, i, s, "");
    RunsSkipEscapes(line, i, s);
    RunsExpand(line, q, u, "");
    assert Paint("", Resolve(u)) + Cells(line, q, u) == Cells(line, q, u);
    BlankSpans(rest);
    if q < |line| {
      FirstSpan(line, q + 1, u, "" + [line[q]]);
    }
  }

  lemma {:induction false} SharesIff(line: string, i: nat, s: Style, buf: string, kept: bool)
    requires i <= |line|
    ensures Shares(Runs(line, i, s, buf), kept) <==>
      Detours(line, i, s, kept) || (buf != "" && Returns(line, i, s, kept))
    decreases |line| - i
  {
    if i == |line| {
    } else if IsEscape(line, i) {
      var end, next := EscapeEnd(line, i), Sgr(EscapeCodes(line, i), s);
      DetoursPastEscape(line, i, s, kept);
      if Resolve(next) == Resolve(s) {
        SharesIff(line, end, next, buf, kept);
      } else {
        var rest := Runs(line, end, next, "");
        SharesIff(line, end, next, "", kept);
        if buf == "" {
          assert Flushed(buf, Resolve(s)) + rest == rest;
        } else {
          SharesSplits(Span(buf, Resolve(s)), rest, kept);
          SeamShares(line, i, s, buf, kept);
        }
      }
    } else {
      SharesIff(line, i + 1, s, buf + [line[i]], kept);
      DetoursPastCharacter(line, i, s, kept);
    }
  }

  lemma {:induction false} KeptUpTo(spans: seq<Span>, k: nat)
    ensures WithoutBlankEnd(spans) <= spans
    ensures k < |WithoutBlankEnd(spans)| <==> NotBlankFrom(spans, k)
  {
    if spans == [] {
    } else if IsBlank(spans[|spans| - 1].text) {
      var init := spans[..|spans| - 1];
      KeptUpTo(init, k);
      if j: nat :| k <= j && NotBlankAt(spans, j) {
        assert NotBlankAt(init, j);
      }
      if j: nat :| k <= j && NotBlankAt(init, j) {
        assert NotBlankAt(spans, j);
      }
    } else {
      assert NotBlankAt(spans, |spans| - 1);
    }
  }

  /** Neighbouring spans of the segmentation share a colour exactly when somewhere
      two visible characters of one colour have nothing but escapes between them,
      one of which changes the colour. */
  lemma RunsShareIff(line: string)
    ensures Shares(Runs(line, 0, PLAIN, ""), false) <==> Detours(line, 0, PLAIN, false)
  {
    SharesIff(line, 0, PLAIN, "", false);
  }

  /** The same of the spans returned, where not all from the second of the two
      characters on is blank. */
  lemma SpansShareIff(line: string)
    ensures Shares(WithoutBlankEnd(Runs(line, 0, PLAIN, "")), false) <==> Detours(line, 0, PLAIN, true)
  {
    var spans := Runs(line, 0, PLAIN, "");
    var kept := WithoutBlankEnd(spans);
    SharesIff(line, 0, PLAIN, "", true);
    forall k: nat ensures SharesAt(kept, k, false) <==> SharesAt(spans, k, true) {
      KeptUpTo(spans, k + 1);
    }
  }

  /** A line on which this happens: red and back to plain between two letters. */
  const DETOUR := ['a', '\U{1b}', '[', '3', '1', 'm', '\U{1b}', '[', 'm', 'b']

  lemma DetourEscapes()
    ensures IsEscape(DETOUR, 1) && EscapeEnd(DETOUR, 1) == 6 && !IsEscape(DETOUR, 0)
    ensures IsEscape(DETOUR, 6) && EscapeEnd(DETOUR, 6) == 9 && !IsEscape(DETOUR, 9)
  {
    assert ParamsEnd(DETOUR, 5) == 5;
    assert ParamsEnd(DETOUR, 4) == 5;
    assert ParamsEnd(DETOUR, 3) == 5;
    assert ParamsEnd(DETOUR, 8) == 8;
  }

  lemma RedParams()
    ensures AreParams(['3', '1']) && Codes(['3', '1']) == [31]
  {
    FieldEndAt(['3', '1'], "");
    assert ['3', '1'] + "" == ['3', '1'] && ['3', '1'][..2] == ['3', '1'] && ['3', '1'][..1] == ['3'];
    assert Decimal.ValueOf(['3']) == 3;
  }

  lemma SingleCode(c: nat, s: Style)
    requires c != 38
    ensures Sgr([c], s) == Single(c, s)
  {
    assert [c][1..] == [];
  }

  lemma DetourLeaves(s: Style)
    ensures IsEscape(DETOUR, 1) && Sgr(EscapeCodes(DETOUR, 1), s) == s.(fg := Some(Index(1)))
  {
    DetourEscapes();
    assert DETOUR[3..5] == ['3', '1'];
    RedParams();
    SingleCode(31, s);
  }

  lemma DetourReturns(s: Style)
    ensures IsEscape(DETOUR, 6) && Sgr(EscapeCodes(DETOUR, 6), s) == PLAIN
  {
    DetourEscapes();
    assert DETOUR[8..8] == "" && Codes("") == [0];
    SingleCode(0, s);
  }

  lemma OneCharacter(line: string, i: nat, s: Style)
    requires i < |line| && !IsEscape(line, i)
    ensures Runs(line, i, s, "") == Runs(line, i + 1, s, [line[i]])
  {
    assert "" + [line[i]] == [line[i]];
  }

  lemma AfterDetour()
    ensures Runs(DETOUR, 9, PLAIN, "") == [Span("b", DEFAULT_INDEX)]
  {
    DetourEscapes();
    OneCharacter(DETOUR, 9, PLAIN);
  }

  lemma BackFromDetour(red: Style)
    requires red == PLAIN.(fg := Some(Index(1)))
    ensures Runs(DETOUR, 6, red, "") == [Span("b", DEFAULT_INDEX)]
  {
    AfterDetour();
    DetourEscapes();
    DetourReturns(red);
    EscapeStep([], DETOUR, 6, red, "");
  }

  lemma IntoDetour(red: Style)
    requires red == PLAIN.(fg := Some(Index(1)))
    ensures Runs(DETOUR, 1, PLAIN, "a") == [Span("a", DEFAULT_INDEX)] + Runs(DETOUR, 6, red, "")
  {
    DetourEscapes();
    DetourLeaves(PLAIN);
    EscapeStep([], DETOUR, 1, PLAIN, "a");
  }

  lemma DetourStarts(spans: seq<Span>)
    requires Runs(DETOUR, 1, PLAIN, "a") == spans
    ensures Runs(DETOUR, 0, PLAIN, "") == spans
  {
    DetourEscapes();
    OneCharacter(DETOUR, 0, PLAIN);
  }

  lemma DetourRuns()
    ensures Runs(DETOUR, 0, PLAIN, "") == [Span("a", DEFAULT_INDEX), Span("b", DEFAULT_INDEX)]
  {
    DetourTail();
    DetourStarts([Span("a", DEFAULT_INDEX), Span("b", DEFAULT_INDEX)]);
  }

  lemma DetourTail()
    ensures Runs(DETOUR, 1, PLAIN, "a") == [Span("a", DEFAULT_INDEX), Span("b", DEFAULT_INDEX)]
  {
    IntoDetour(PLAIN.(fg := Some(Index(1))));
    BackFromDetour(PLAIN.(fg := Some(Index(1))));
  }

  /** It comes out as two spans of the default colour. */
  lemma DetourIsSplit()
    ensures WithoutBlankEnd(Runs(DETOUR, 0, PLAIN, "")) == [Span("a", DEFAULT_INDEX), Span("b", DEFAULT_INDEX)]
  {
    DetourRuns();
    assert 'b' in "b";
  }
}
