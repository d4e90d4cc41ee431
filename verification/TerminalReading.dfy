/** What a terminal makes of the same escapes (section 8.3.117 of ECMA-48 with the
    colour forms of ITU-T T.416): where scripts/gen_os_logos.py reads them alike,
    and where it takes a background colour for something else. */
module TerminalReading {
  import opened Wrappers
  import opened Sgr
  import Decimal

  // ---------------------------------------------------------------- colours

  /** The foreground a terminal holds, before boldness brightens it. */
  datatype Ink = Default | Palette(n: nat) | TrueColour(r: nat, g: nat, b: nat)

  datatype Pen = Pen(ink: Ink, bold: bool)

  const FRESH := Pen(Default, false)

  /** A step of the colour cube. */
  function Level(k: nat): nat {
    if k == 0 then 0 else 55 + 40 * k
  }

  /** The palette of 256: sixteen of its own, a cube of 6 by 6 by 6, and greys. */
  function Shade(n: nat): Ink {
    if n < 16 then Palette(n)
    else if n < 232 then TrueColour(Level((n - 16) / 36), Level((n - 16) % 36 / 6), Level((n - 16) % 6))
    else TrueColour(8 + 10 * (n - 232), 8 + 10 * (n - 232), 8 + 10 * (n - 232))
  }

  /** A parameter outside the colour forms. */
  function Alone(c: nat, pen: Pen): Pen {
    if 30 <= c < 38 then pen.(ink := Palette(c - 30))
    else if 90 <= c < 98 then pen.(ink := Palette(c - 90 + 8))
    else match c
         case 0 => FRESH
         case 1 => pen.(bold := true)
         case 22 => pen.(bold := false)
         case 39 => pen.(ink := Default)
         case _ => pen
  }

  /** The colour on the screen: bold brightens the first eight, the default is
      stored as number 7. */
  function Tint(pen: Pen): Colour {
    match pen.ink
    case Default => Index(7)
    case Palette(n) => Index(if pen.bold && n < 8 then n + 8 else n)
    case TrueColour(r, g, b) => Rgb(r, g, b)
  }

  function AsInk(c: Colour): Ink {
    match c case Index(n) => Palette(n) case Rgb(r, g, b) => TrueColour(r, g, b)
  }

  function AsPen(s: Style): Pen {
    Pen(if s.fg.Some? then AsInk(s.fg.value) else Default, s.bold)
  }

  /** The program's tables say the same. */
  lemma SingleIsAlone(c: nat, s: Style)
    ensures AsPen(Single(c, s)) == Alone(c, AsPen(s))
  {
  }

  lemma XtermIsShade(n: nat)
    ensures AsInk(Xterm256(n)) == Shade(n)
  {
    if 16 <= n < 232 {
      CubeDigits(n - 16);
      LevelIsListed((n - 16) / 36);
      LevelIsListed((n - 16) % 36 / 6);
      LevelIsListed((n - 16) % 6);
    }
  }

  lemma CubeDigits(cube: nat)
    requires cube < 216
    ensures cube / 6 % 6 == cube % 36 / 6 < 6 && cube / 36 % 6 == cube / 36 < 6
  {
    var r, g, b := cube / 36, cube % 36 / 6, cube % 6;
    assert cube == 36 * r + 6 * g + b && cube / 6 == 6 * r + g;
  }

  lemma LevelIsListed(k: nat)
    requires k < 6
    ensures LEVELS[k] == Level(k)
  {
  }

  lemma ResolveIsTint(s: Style)
    ensures Resolve(s) == Tint(AsPen(s))
  {
  }

  // ---------------------------------------------------------------- the parameters

  /** How many parameters the colour form at the front takes, 0 if there is none:
      38 for the foreground or 48 for the background, then 5;n or 2;r;g;b. */
  function FormWidth(codes: seq<nat>): (w: nat)
    ensures w <= |codes|
  {
    if |codes| >= 3 && codes[0] in {38, 48} && codes[1] == 5 then 3
    else if |codes| >= 5 && codes[0] in {38, 48} && codes[1] == 2 then 5
    else 0
  }

  function FormInk(codes: seq<nat>): Ink
    requires FormWidth(codes) > 0
  {
    if codes[1] == 5 then Shade(codes[2]) else TrueColour(codes[2], codes[3], codes[4])
  }

  /** The foreground and weight a terminal is left in. A background colour takes
      its parameters with it and changes neither. */
  function Terminal(codes: seq<nat>, pen: Pen): Pen
    decreases |codes|
  {
    if codes == [] then pen
    else if FormWidth(codes) > 0 then
      Terminal(codes[FormWidth(codes)..], if codes[0] == 38 then pen.(ink := FormInk(codes)) else pen)
    else Terminal(codes[1..], Alone(codes[0], pen))
  }

  /** One colour of the cube, by its three steps. */
  lemma CubeReads(r: nat, g: nat, b: nat, pen: Pen)
    requires r < 6 && g < 6 && b < 6
    ensures Terminal([38, 5, 16 + 36 * r + 6 * g + b], pen) == pen.(ink := TrueColour(Level(r), Level(g), Level(b)))
  {
    CubeShade(r, g, b);
    FormAlone(16 + 36 * r + 6 * g + b, pen);
  }

  lemma FormAlone(n: nat, pen: Pen)
    ensures Terminal([38, 5, n], pen) == pen.(ink := Shade(n))
  {
    assert [38, 5, n][3..] == [];
  }

  lemma CubeShade(r: nat, g: nat, b: nat)
    requires r < 6 && g < 6 && b < 6
    ensures Shade(16 + 36 * r + 6 * g + b) == TrueColour(Level(r), Level(g), Level(b))
  {
    var cube := 36 * r + 6 * g + b;
    assert cube / 36 == r && cube % 36 == 6 * g + b && cube % 6 == b;
  }

  predicate ActsAlone(c: nat) {
    c in {0, 1, 22, 39} || 30 <= c <= 37 || 90 <= c <= 97
  }

  lemma ActsAloneMeansChanges(c: nat)
    ensures ActsAlone(c) <==> exists s :: Single(c, s) != s
  {
    assert ActsAlone(c) ==> Single(c, Style(Some(Index(50)), true)) != Style(Some(Index(50)), true)
                            || Single(c, PLAIN) != PLAIN;
  }

  /** The program changes the style at the first of these parameters. */
  predicate Acts(codes: seq<nat>) {
    codes != [] && (ActsAlone(codes[0]) || (codes[0] == 38 && FormWidth(codes) > 0))
  }

  /** Where the program acts, each place by the number of parameters left. */
  function ProgramActs(codes: seq<nat>): seq<nat>
    decreases |codes|
  {
    if codes == [] then []
    else if codes[0] == 38 && FormWidth(codes) > 0 then [|codes|] + ProgramActs(codes[FormWidth(codes)..])
    else (if ActsAlone(codes[0]) then [|codes|] else []) + ProgramActs(codes[1..])
  }

  /** Where a terminal does. */
  function TerminalActs(codes: seq<nat>): (r: seq<nat>)
    ensures forall k :: 0 <= k < |r| ==> r[k] <= |codes|
    decreases |codes|
  {
    if codes == [] then []
    else if FormWidth(codes) > 0 then
      (if codes[0] == 38 then [|codes|] else []) + TerminalActs(codes[FormWidth(codes)..])
    else (if ActsAlone(codes[0]) then [|codes|] else []) + TerminalActs(codes[1..])
  }

  /** No background colour, met from the left, has a parameter after its 5 or 2 at
      which the program acts. */
  predicate Mute(codes: seq<nat>)
    decreases |codes|
  {
    if codes == [] then true
    else if FormWidth(codes) > 0 then
      (codes[0] == 48 ==> forall k :: 2 <= k < FormWidth(codes) ==> !Acts(codes[k..]))
      && Mute(codes[FormWidth(codes)..])
    else Mute(codes[1..])
  }

  lemma {:induction false} SkipsTo(codes: seq<nat>, k: nat, w: nat, s: Style)
    requires k <= w <= |codes| && forall j :: k <= j < w ==> !Acts(codes[j..])
    ensures ProgramActs(codes[k..]) == ProgramActs(codes[w..]) && Sgr.Sgr(codes[k..], s) == Sgr.Sgr(codes[w..], s)
    decreases w - k
  {
    if k < w {
      var rest := codes[k..];
      assert !Acts(rest) && rest[0] == codes[k] && rest[1..] == codes[k + 1..];
      SkipsTo(codes, k + 1, w, s);
    }
  }

  /** The front of a background form does nothing in the program. */
  lemma FormFront(codes: seq<nat>, s: Style)
    requires FormWidth(codes) > 0 && codes[0] == 48
    ensures ProgramActs(codes) == ProgramActs(codes[2..]) && Sgr.Sgr(codes, s) == Sgr.Sgr(codes[2..], s)
  {
    assert codes[0..] == codes && codes[1..][0] == codes[1];
    SkipsTo(codes, 0, 2, s);
  }

  /** The program acts on exactly the parameters a terminal acts on, if and only if
      the list is mute. */
  lemma {:induction false} ActsAlikeIffMute(codes: seq<nat>)
    ensures ProgramActs(codes) == TerminalActs(codes) <==> Mute(codes)
    decreases |codes|
  {
    if codes == [] {
    } else if FormWidth(codes) == 0 {
      ActsAlikeIffMute(codes[1..]);
      if ActsAlone(codes[0]) {
        SameFront(|codes|, ProgramActs(codes[1..]), TerminalActs(codes[1..]));
      } else {
        assert [] + ProgramActs(codes[1..]) == ProgramActs(codes[1..]);
        assert [] + TerminalActs(codes[1..]) == TerminalActs(codes[1..]);
      }
    } else {
      var rest := codes[FormWidth(codes)..];
      ActsAlikeIffMute(rest);
      if codes[0] == 38 {
        SameFront(|codes|, ProgramActs(rest), TerminalActs(rest));
      } else {
        BackgroundActs(codes);
      }
    }
  }

  lemma SameFront(x: nat, a: seq<nat>, b: seq<nat>)
    ensures [x] + a == [x] + b <==> a == b
  {
    assert ([x] + a)[1..] == a && ([x] + b)[1..] == b;
  }

  lemma BackgroundActs(codes: seq<nat>)
    requires FormWidth(codes) > 0 && codes[0] == 48
    requires var rest := codes[FormWidth(codes)..]; ProgramActs(rest) == TerminalActs(rest) <==> Mute(rest)
    ensures ProgramActs(codes) == TerminalActs(codes) <==> Mute(codes)
  {
    var w := FormWidth(codes);
    var rest := codes[w..];
    FormFront(codes, PLAIN);
    assert TerminalActs(codes) == TerminalActs(rest);
    if forall k :: 2 <= k < w ==> !Acts(codes[k..]) {
      SkipsTo(codes, 2, w, PLAIN);
    } else {
      var k := FirstAct(codes, 2, w);
      SkipsTo(codes, 2, k, PLAIN);
      assert ProgramActs(codes[k..])[0] == |codes| - k;
    }
  }

  lemma FirstAct(codes: seq<nat>, i: nat, w: nat) returns (k: nat)
    requires i <= w <= |codes| && exists j :: i <= j < w && Acts(codes[j..])
    ensures i <= k < w && Acts(codes[k..]) && forall j :: i <= j < k ==> !Acts(codes[j..])
    decreases w - i
  {
    if Acts(codes[i..]) {
      k := i;
    } else {
      k := FirstAct(codes, i + 1, w);
    }
  }

  /** Then it leaves the same foreground and weight, whatever they were before. */
  lemma {:induction false} MuteReadsAlike(codes: seq<nat>, s: Style)
    requires Mute(codes)
    ensures AsPen(Sgr.Sgr(codes, s)) == Terminal(codes, AsPen(s))
    decreases |codes|
  {
    if codes == [] {
    } else if FormWidth(codes) == 0 {
      SingleIsAlone(codes[0], s);
      MuteReadsAlike(codes[1..], Single(codes[0], s));
    } else if codes[0] == 38 {
      var colour := if codes[1] == 5 then Xterm256(codes[2]) else Rgb(codes[2], codes[3], codes[4]);
      XtermIsShade(codes[2]);
      MuteReadsAlike(codes[FormWidth(codes)..], s.(fg := Some(colour)));
    } else {
      FormFront(codes, s);
      SkipsTo(codes, 2, FormWidth(codes), s);
      MuteReadsAlike(codes[FormWidth(codes)..], s);
    }
  }

  /** Every list without a 48 is mute. */
  lemma {:induction false} NoBackgroundIsMute(codes: seq<nat>)
    requires 48 !in codes
    ensures Mute(codes)
    decreases |codes|
  {
    if codes != [] {
      assert codes[0] in codes;
      NoBackgroundIsMute(codes[if FormWidth(codes) > 0 then FormWidth(codes) else 1..]);
    }
  }

  /** The palette colour 31 as a background: the program turns the foreground red. */
  lemma BackgroundTurnsRed()
    ensures Sgr.Sgr([48, 5, 31], PLAIN) == Style(Some(Index(1)), false) && Terminal([48, 5, 31], FRESH) == FRESH
    ensures !Mute([48, 5, 31])
  {
    var codes := [48, 5, 31];
    FormFront(codes, PLAIN);
    assert codes[2..] == [31] && [31][1..] == [] && codes[3..] == [];
    assert Acts(codes[2..]);
  }

  // ---------------------------------------------------------------- the line

  /** What a terminal shows: every escape changes the pen, every other character
      appears in its colour of the moment. */
  function Screen(line: string, i: nat, pen: Pen): seq<Cell>
    requires i <= |line|
    decreases |line| - i
  {
    if i == |line| then []
    else if IsEscape(line, i) then Screen(line, EscapeEnd(line, i), Terminal(EscapeCodes(line, i), pen))
    else [Cell(line[i], Tint(pen))] + Screen(line, i + 1, pen)
  }

  /** Every escape of the line is mute. */
  ghost predicate MuteLine(line: string) {
    forall i :: 0 <= i < |line| && IsEscape(line, i) ==> Mute(EscapeCodes(line, i))
  }

  lemma {:induction false} CellsAreTheScreen(line: string, i: nat, s: Style)
    requires i <= |line| && MuteLine(line)
    ensures Cells(line, i, s) == Screen(line, i, AsPen(s))
    decreases |line| - i
  {
    if i < |line| {
      if IsEscape(line, i) {
        MuteReadsAlike(EscapeCodes(line, i), s);
        CellsAreTheScreen(line, EscapeEnd(line, i), Sgr.Sgr(EscapeCodes(line, i), s));
      } else {
        ResolveIsTint(s);
        CellsAreTheScreen(line, i + 1, s);
      }
    }
  }

  /** The spans returned show what a terminal shows, but for a blank end. */
  lemma SpansShowTheScreen(line: string)
    requires MuteLine(line)
    ensures var spans := WithoutBlankEnd(Runs(line, 0, PLAIN, ""));
            exists dropped :: ShowsBut(Expand(spans), dropped, Screen(line, 0, FRESH))
  {
    SpansHoldTheLine(line);
    CellsAreTheScreen(line, 0, PLAIN);
  }

  /** A line on which they do not: ESC [48;5;31m and a letter. */
  const ON_BLUE := ['\U{1b}', '[', '4', '8', ';', '5', ';', '3', '1', 'm', 'x']

  lemma OnBlueEscape()
    ensures IsEscape(ON_BLUE, 0) && EscapeEnd(ON_BLUE, 0) == 10 && !IsEscape(ON_BLUE, 10)
    ensures EscapeCodes(ON_BLUE, 0) == [48, 5, 31]
  {
    assert ParamsEnd(ON_BLUE, 9) == 9;
    assert ParamsEnd(ON_BLUE, 7) == 9;
    assert ParamsEnd(ON_BLUE, 5) == 9;
    assert ParamsEnd(ON_BLUE, 3) == 9;
    assert ON_BLUE[2..9] == "48;5;31";
    OnBlueCodes();
  }

  lemma OnBlueCodes()
    ensures AreParams("48;5;31") && Codes("48;5;31") == [48, 5, 31]
  {
    assert Decimal.Print(48) == "48" && Decimal.Print(5) == "5" && Decimal.Print(31) == "31";
    assert [48, 5, 31][1..] == [5, 31] && [5, 31][1..] == [31];
    assert WrittenCodes([31]) == "31";
    assert WrittenCodes([5, 31]) == "5;31";
    assert WrittenCodes([48, 5, 31]) == "48;5;31";
    CodesReadBack([48, 5, 31]);
  }

  /** The letter comes out red where a terminal shows the default colour. */
  lemma BackgroundIsMisread()
    ensures Cells(ON_BLUE, 0, PLAIN) == [Cell('x', Index(1))]
    ensures Screen(ON_BLUE, 0, FRESH) == [Cell('x', DEFAULT_INDEX)]
  {
    OnBlueEscape();
    BackgroundTurnsRed();
    LastCell(ON_BLUE, 10, Style(Some(Index(1)), false));
    LastCell(ON_BLUE, 10, PLAIN);
    assert AsPen(PLAIN) == FRESH;
  }

  lemma LastCell(line: string, i: nat, s: Style)
    requires |line| == i + 1 && !IsEscape(line, i)
    ensures Cells(line, i, s) == [Cell(line[i], Resolve(s))] && Screen(line, i, AsPen(s)) == [Cell(line[i], Resolve(s))]
  {
    ResolveIsTint(s);
  }
}
