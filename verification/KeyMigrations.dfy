/** The two keybind migrations of src/keybinds.rs by the key presses they are about,
    with the key specs read as src/app/util.rs reads them. */
module KeyMigrations {
  import opened Wrappers
  import opened Keybinds
  import opened KeySpec
  import Text

  // ---------------------------------------------------------------- Shift+H

  /** The key press that opens the known-hosts manager. */
  const PRESS := KeyEvent(Char('h'), {Shift})

  predicate Opens(spec: string) {
    Accepts(spec, PRESS)
  }

  /** A blank beside the plus sign, or more than one plus sign. */
  predicate Loose(spec: string) {
    var pieces := Pieces(spec);
    |pieces| > 2 || (|pieces| == 2 && (EndsBlank(pieces[0]) || StartsBlank(pieces[1])))
  }

  predicate EndsBlank(s: string) {
    s != "" && Text.IsWhite(s[|s| - 1])
  }

  predicate StartsBlank(s: string) {
    s != "" && Text.IsWhite(s[0])
  }

  // ---------------------------------------------------------------- pieces

  function Join(pieces: seq<string>): string
    requires pieces != []
  {
    if |pieces| == 1 then pieces[0] else pieces[0] + "+" + Join(pieces[1..])
  }

  lemma {:induction false} JoinPieces(s: string)
    ensures Join(Pieces(s)) == s
  {
    if s != "" {
      var rest := Pieces(s[1..]);
      JoinPieces(s[1..]);
      if s[0] == '+' {
        assert Pieces(s)[1..] == rest;
      } else if |rest| > 1 {
        assert Pieces(s)[1..] == rest[1..];
        assert Join(Pieces(s)) == [s[0]] + rest[0] + "+" + Join(rest[1..]);
      }
    }
  }

  // ---------------------------------------------------------------- the two words

  /** A text that reads "shift" in any case. */
  predicate IsShiftWord(s: string) {
    Text.LowerAll(s) == "shift"
  }

  predicate IsH(s: string) {
    s == "h" || s == "H"
  }

  lemma ShiftWordIsPlain(s: string)
    requires IsShiftWord(s)
    ensures |s| == 5 && '+' !in s && forall i :: 0 <= i < 5 ==> !Text.IsWhite(s[i])
  {
    var lower := Text.LowerAll(s);
    forall i | 0 <= i < |s| ensures s[i] != '+' && !Text.IsWhite(s[i]) {
      assert lower[i] == Text.Lower(s[i]) && lower[i] in "shift";
    }
  }

  lemma ShiftWordReads(piece: string)
    ensures ModifierOf(piece) == Some(Shift) <==> IsShiftWord(Text.Trim(piece))
  {
  }

  lemma HReads(key: string, bare: bool)
    requires IsH(key)
    ensures KeyOf(key, bare) == Some((Char('h'), if key == "H" && bare then {Shift} else {}))
  {
    Text.TrimKeeps(key);
    CharReads(key[0], bare);
    assert key == [key[0]];
  }

  /** Only the letter itself reads as the letter. */
  lemma OnlyHReads(key: string, bare: bool)
    requires KeyOf(key, bare).Some?
    requires var code := KeyOf(key, bare).value.0; code.Char? && Text.Lower(code.c) == 'h'
    ensures IsH(key)
  {
    var lower := Text.LowerAll(key);
    assert NamedKey(lower).None?;
    assert lower[0] == Text.Lower(key[0]) && key == [key[0]];
  }

  // ---------------------------------------------------------------- what is removed

  lemma BlankHasNoPlus(s: string)
    requires Text.AllWhite(s)
    ensures '+' !in s
  {
  }

  /** A bare capital letter, with blanks around it. */
  lemma BareOpens(spec: string)
    requires Text.Trim(spec) == "H"
    ensures Opens(spec) && Pieces(spec) == [spec]
  {
    var front, back := Text.TrimSplits(spec);
    BlankHasNoPlus(front);
    BlankHasNoPlus(back);
    PiecesOfOne(spec);
    HReads("H", true);
    assert [spec][..0] == [];
  }

  /** The two words with a plus sign between them and nothing else. */
  lemma WordsOpen(front: string, word: string, key: string, back: string)
    requires Text.AllWhite(front) && Text.AllWhite(back) && IsShiftWord(Text.Trim(word)) && IsH(Text.Trim(key))
    requires '+' !in word && '+' !in key
    ensures Pieces(front + word + "+" + (key + back)) == [front + word, key + back]
  {
    BlankHasNoPlus(front);
    BlankHasNoPlus(back);
    PiecesAfter(front + word, key + back);
    PiecesOfOne(key + back);
  }

  lemma OneName(piece: string)
    ensures ModifiersOf([piece]) == match ModifierOf(piece) case None => None case Some(m) => Some({m})
  {
    assert [piece][..0] == [];
    if m :| ModifierOf(piece) == Some(m) {
      assert {} + {m} == {m};
    }
  }

  /** Two pieces open it exactly when they are the two words, blanks aside. */
  lemma TwoPiecesOpen(spec: string)
    requires |Pieces(spec)| == 2
    ensures Opens(spec) <==> IsShiftWord(Text.Trim(Pieces(spec)[0])) && IsH(Text.Trim(Pieces(spec)[1]))
  {
    TwoPiecesParse(spec);
    ShiftWordReads(Pieces(spec)[0]);
    if IsH(Text.Trim(Pieces(spec)[1])) {
      HReads(Text.Trim(Pieces(spec)[1]), false);
      if ModifierOf(Pieces(spec)[0]).Some? {
        OnlyShift(ModifierOf(Pieces(spec)[0]).value);
      }
    } else if Opens(spec) {
      OnlyHReads(Text.Trim(Pieces(spec)[1]), false);
    }
  }

  lemma TwoPiecesParse(spec: string)
    requires |Pieces(spec)| == 2
    ensures var m, key := ModifierOf(Pieces(spec)[0]), KeyOf(Text.Trim(Pieces(spec)[1]), false);
            Parse(spec) == if m.None? || key.None? then None else Some((key.value.0, {m.value} + key.value.1))
  {
    assert Pieces(spec)[..1] == [Pieces(spec)[0]];
    OneName(Pieces(spec)[0]);
  }

  lemma OnlyShift(m: Modifier)
    ensures {m} + {} == {Shift} <==> m == Shift
  {
    assert m in {m} + {};
  }

  lemma RemovedOpens(spec: string)
    requires ShadowsKnownHosts(spec)
    ensures Opens(spec) && !Loose(spec)
  {
    if Text.Trim(spec) == "H" {
      BareOpens(spec);
    } else {
      var front, back := Text.TrimSplits(spec);
      var word, key := SplitWords(Text.Trim(spec));
      assert spec == front + word + "+" + (key + back);
      TightWordsOpen(spec, front, word, key, back);
    }
  }

  lemma TightWordsOpen(spec: string, front: string, word: string, key: string, back: string)
    requires Text.AllWhite(front) && Text.AllWhite(back) && IsShiftWord(word) && IsH(key)
    requires spec == front + word + "+" + (key + back)
    ensures Opens(spec) && !Loose(spec)
  {
    PlainWords(word, key);
    WordsOpen(front, word, key, back);
    Text.TrimOf(front, word, "");
    Text.TrimOf("", key, back);
    assert front + word + "" == front + word && "" + key + back == key + back;
    TwoPiecesOpen(spec);
  }

  lemma PlainWords(word: string, key: string)
    requires IsShiftWord(word) && IsH(key)
    ensures '+' !in word && '+' !in key && Text.Trim(word) == word && Text.Trim(key) == key
    ensures word != "" && !Text.IsWhite(word[0]) && !Text.IsWhite(word[|word| - 1]) && !Text.IsWhite(key[0])
  {
    ShiftWordIsPlain(word);
    Text.TrimKeeps(word);
    Text.TrimKeeps(key);
  }

  lemma SplitWords(t: string) returns (word: string, key: string)
    requires Text.SameIgnoringCase(t, "Shift+H")
    ensures t == word + "+" + key && IsShiftWord(word) && IsH(key)
  {
    LowerOfDefault();
    var lower := Text.LowerAll(t);
    word, key := t[..5], t[6..];
    assert lower[5] == Text.Lower(t[5]) && lower[6] == Text.Lower(t[6]);
    assert Text.LowerAll(word) == lower[..5] && key == [t[6]] && t == word + [t[5]] + key;
  }

  lemma LowerOfDefault()
    ensures Text.LowerAll("Shift+H") == "shift+h"
  {
  }

  // ---------------------------------------------------------------- what stays

  /** One piece opens it only as the bare capital letter. */
  lemma OnePieceOpens(spec: string)
    requires |Pieces(spec)| == 1 && Opens(spec)
    ensures Text.Trim(spec) == "H"
  {
    JoinPieces(spec);
    var key := Text.Trim(Pieces(spec)[0]);
    assert Pieces(spec)[..0] == [];
    OnlyHReads(key, true);
    HReads(key, true);
  }

  lemma TightWordsAreRemoved(spec: string)
    requires |Pieces(spec)| == 2 && Opens(spec) && !Loose(spec)
    ensures ShadowsKnownHosts(spec)
  {
    var p, q := Pieces(spec)[0], Pieces(spec)[1];
    TwoPiecesOpen(spec);
    JoinPieces(spec);
    assert Pieces(spec)[1..] == [q] && spec == p + "+" + q;
    PlainWords(Text.Trim(p), Text.Trim(q));
    TightTrim(p, q);
    LowerJoins(Text.Trim(p), Text.Trim(q));
  }

  /** No blank beside the plus sign: trimming the whole is trimming the parts. */
  lemma TightTrim(p: string, q: string)
    requires Text.Trim(p) != "" && Text.Trim(q) != "" && !EndsBlank(p) && !StartsBlank(q)
    ensures Text.Trim(p + "+" + q) == Text.Trim(p) + "+" + Text.Trim(q)
  {
    var front := TightEnd(p);
    var back := TightStart(q);
    var t := Text.Trim(p) + "+" + Text.Trim(q);
    assert p + "+" + q == front + t + back;
    Text.TrimOf(front, t, back);
  }

  lemma TightEnd(s: string) returns (front: string)
    requires Text.Trim(s) != "" && !EndsBlank(s)
    ensures s == front + Text.Trim(s) && Text.AllWhite(front) && !Text.IsWhite(Text.Trim(s)[0])
  {
    var back: string;
    front, back := Text.TrimSplits(s);
    if back != "" {
      BlankAtEnd(front + Text.Trim(s), back);
    }
  }

  lemma TightStart(s: string) returns (back: string)
    requires Text.Trim(s) != "" && !StartsBlank(s)
    ensures s == Text.Trim(s) + back && Text.AllWhite(back) && !Text.IsWhite(Text.Trim(s)[|Text.Trim(s)| - 1])
  {
    var front: string;
    front, back := Text.TrimSplits(s);
    assert s == front + (Text.Trim(s) + back);
    if front != "" {
      BlankAtStart(front, Text.Trim(s) + back);
    }
  }

  lemma BlankAtEnd(init: string, end: string)
    requires Text.AllWhite(end) && end != ""
    ensures EndsBlank(init + end)
  {
    assert (init + end)[|init + end| - 1] == end[|end| - 1];
  }

  lemma BlankAtStart(start: string, tail: string)
    requires Text.AllWhite(start) && start != ""
    ensures StartsBlank(start + tail)
  {
    assert (start + tail)[0] == start[0];
  }

  lemma LowerJoins(word: string, key: string)
    requires IsShiftWord(word) && IsH(key)
    ensures Text.SameIgnoringCase(word + "+" + key, "Shift+H")
  {
    LowerOfDefault();
    assert Text.LowerAll(word + "+" + key) == Text.LowerAll(word) + "+" + Text.LowerAll(key);
  }

  /** The migration removes, of the specs that open the known-hosts manager, all
      but the loosely written ones, and nothing else. */
  lemma RemovedIff(spec: string)
    ensures ShadowsKnownHosts(spec) <==> Opens(spec) && !Loose(spec)
  {
    if ShadowsKnownHosts(spec) {
      RemovedOpens(spec);
    }
    if Opens(spec) && !Loose(spec) {
      if |Pieces(spec)| == 1 {
        OnePieceOpens(spec);
      } else {
        TightWordsAreRemoved(spec);
      }
    }
  }

  ghost predicate SomeOpens(specs: seq<string>) {
    exists spec :: spec in specs && Opens(spec)
  }

  ghost predicate SomeLooseOpens(specs: seq<string>) {
    exists spec :: spec in specs && Opens(spec) && Loose(spec)
  }

  lemma QuestionMarkOpensNothing()
    ensures !Opens("?")
  {
    PiecesOfOne("?");
    CharReads('?', true);
    assert Text.Trim("?") == "?" && ["?"][..0] == [];
  }

  /** After it Help still takes the key exactly if one of those was among its
      specs. */
  lemma HelpStillShadowsIff(raw: string, binds: Binds)
    requires MIGRATED <= binds.Keys && !Text.Contains(raw, "known_hosts")
    ensures SomeOpens(HelpMigrated(raw, binds)["help"]) <==> SomeLooseOpens(binds["help"])
  {
    var help, left := binds["help"], HelpMigrated(raw, binds)["help"];
    QuestionMarkOpensNothing();
    forall spec | spec in help ensures ShadowsKnownHosts(spec) <==> Opens(spec) && !Loose(spec) {
      RemovedIff(spec);
    }
    if SomeLooseOpens(help) {
      var spec :| spec in help && Opens(spec) && Loose(spec);
      assert spec in Unshadowed(help);
    }
  }

  /** The default spec of the known-hosts manager opens it. */
  lemma DefaultOpens()
    ensures Opens("H")
  {
    assert Text.Trim("H") == "H";
    BareOpens("H");
  }

  lemma SpacedPieces()
    ensures Pieces("Shift + H") == ["Shift ", " H"]
  {
    assert "Shift + H" == "Shift " + "+" + " H";
    PiecesAfter("Shift ", " H");
    PiecesOfOne(" H");
  }

  lemma SpacedWords()
    ensures Text.Trim("Shift ") == "Shift" && Text.Trim(" H") == "H" && IsShiftWord("Shift")
  {
    assert "" + "Shift" + " " == "Shift " && " " + "H" + "" == " H";
    Text.TrimOf("", "Shift", " ");
    Text.TrimOf(" ", "H", "");
    assert Text.LowerAll("Shift") == "shift";
  }

  /** A spec that means the same key and stays. */
  lemma SpacedSpecStays()
    ensures Opens("Shift + H") && Loose("Shift + H") && !ShadowsKnownHosts("Shift + H")
  {
    SpacedPieces();
    SpacedWords();
    TwoPiecesOpen("Shift + H");
    RemovedIff("Shift + H");
  }

  // ---------------------------------------------------------------- the digits of the tabs

  type Digit = d: char | '2' <= d <= '5' witness '2'

  function Plain(d: Digit): KeyEvent {
    KeyEvent(Char(d), {})
  }

  predicate Takes(specs: seq<string>, press: KeyEvent) {
    exists spec :: spec in specs && Accepts(spec, press)
  }

  /** By a spec other than the bare digit, " 2" for instance. */
  predicate TakesLoosely(specs: seq<string>, d: Digit) {
    exists spec :: spec in specs && spec != [d] && Accepts(spec, Plain(d))
  }

  ghost predicate ShareNoKey(a: seq<string>, b: seq<string>) {
    forall press :: !(Takes(a, press) && Takes(b, press))
  }

  lemma DigitReads(d: Digit, press: KeyEvent)
    ensures Accepts([d], press) <==> press == Plain(d)
  {
    PiecesOfOne([d]);
    CharReads(d, true);
    assert [[d]][..0] == [];
    if press.code.Char? && Text.Lower(press.code.c) == d {
      assert press.code.c == d;
    }
  }

  /** What a list takes after its digit has moved up by one. */
  lemma ShiftedTakes(specs: seq<string>, d: Digit, e: Digit, press: KeyEvent)
    requires d != e && !Takes(specs, Plain(e))
    ensures Takes(Shifted(specs, [d], [e]), press) <==>
      if press == Plain(d) then TakesLoosely(specs, d)
      else if press == Plain(e) then [d] in specs
      else Takes(specs, press)
  {
    DigitReads(d, press);
    DigitReads(e, press);
    ShiftedHolds(specs, [d], [e]);
    assert Takes(Shifted(specs, [d], [e]), press) <==>
      (exists spec :: spec in specs && spec != [d] && Accepts(spec, press)) || (press == Plain(e) && [d] in specs);
  }

  /** The layout the tab migration is written for, by keys: no press goes to two of
      the tabs, and of the digits 2 to 5 each takes at most its own. */
  ghost predicate OldKeys(tunnels: seq<string>, keys: seq<string>, audit: seq<string>) {
    && ShareNoKey(tunnels, keys) && ShareNoKey(keys, audit) && ShareNoKey(tunnels, audit)
    && !Takes(tunnels, Plain('3')) && !Takes(tunnels, Plain('4')) && !Takes(tunnels, Plain('5'))
    && !Takes(keys, Plain('2')) && !Takes(keys, Plain('4')) && !Takes(keys, Plain('5'))
    && !Takes(audit, Plain('2')) && !Takes(audit, Plain('3')) && !Takes(audit, Plain('5'))
  }

  /** Each tab has its keys to itself, and the SFTP tab its digit. */
  ghost predicate NewKeys(tunnels: seq<string>, keys: seq<string>, audit: seq<string>) {
    && ShareNoKey(tunnels, keys) && ShareNoKey(keys, audit) && ShareNoKey(tunnels, audit)
    && !Takes(tunnels, Plain('2')) && !Takes(keys, Plain('2')) && !Takes(audit, Plain('2'))
  }

  /** A digit left behind because it was not written bare, where something else has
      moved to. */
  predicate LeavesDigit(tunnels: seq<string>, keys: seq<string>, audit: seq<string>) {
    || TakesLoosely(tunnels, '2')
    || (TakesLoosely(keys, '3') && "2" in tunnels)
    || (TakesLoosely(audit, '4') && "3" in keys)
  }

  lemma ShiftedKeys(tunnels: seq<string>, keys: seq<string>, audit: seq<string>)
    requires OldKeys(tunnels, keys, audit)
    ensures NewKeys(Shifted(tunnels, "2", "3"), Shifted(keys, "3", "4"), Shifted(audit, "4", "5")) <==>
      !LeavesDigit(tunnels, keys, audit)
  {
    forall press
      ensures Takes(Shifted(tunnels, "2", "3"), press) <==>
        if press == Plain('2') then TakesLoosely(tunnels, '2') else if press == Plain('3') then "2" in tunnels
        else Takes(tunnels, press)
      ensures Takes(Shifted(keys, "3", "4"), press) <==>
        if press == Plain('3') then TakesLoosely(keys, '3') else if press == Plain('4') then "3" in keys
        else Takes(keys, press)
      ensures Takes(Shifted(audit, "4", "5"), press) <==>
        if press == Plain('4') then TakesLoosely(audit, '4') else if press == Plain('5') then "4" in audit
        else Takes(audit, press)
    {
      ShiftedTakes(tunnels, '2', '3', press);
      ShiftedTakes(keys, '3', '4', press);
      ShiftedTakes(audit, '4', '5', press);
    }
  }

  /** From that layout the migration gives every tab keys of its own exactly when no
      loosely written digit is left where another has moved to. */
  lemma TabsKeepApartIff(raw: string, binds: Binds)
    requires MIGRATED <= binds.Keys && PreSftp(raw)
    requires OldKeys(binds["tab_tunnels"], binds["tab_keys"], binds["tab_audit"])
    ensures var m := TabsMigrated(raw, binds);
            NewKeys(m["tab_tunnels"], m["tab_keys"], m["tab_audit"]) <==>
            !LeavesDigit(binds["tab_tunnels"], binds["tab_keys"], binds["tab_audit"])
  {
    ShiftedKeys(binds["tab_tunnels"], binds["tab_keys"], binds["tab_audit"]);
  }

  /** An SFTP tab without a key gets the digit 2, one with keys keeps them. */
  lemma SftpGetsItsDigit(raw: string, binds: Binds, press: KeyEvent)
    requires MIGRATED <= binds.Keys && PreSftp(raw)
    ensures Takes(TabsMigrated(raw, binds)["tab_sftp"], press) <==>
      if binds["tab_sftp"] == [] then press == KeyEvent(Char('2'), {}) else Takes(binds["tab_sftp"], press)
  {
    DigitReads('2', press);
    assert "2" in ["2"];
  }

  lemma SpacedDigitReads(press: KeyEvent)
    ensures Accepts(" 3", press) <==> press == Plain('3')
  {
    PiecesOfOne(" 3");
    Text.TrimOf(" ", "3", "");
    assert " " + "3" + "" == " 3" && [" 3"][..0] == [];
    CharReads('3', true);
    Text.TrimKeeps("3");
    if press.code.Char? && Text.Lower(press.code.c) == '3' {
      assert press.code.c == '3';
    }
  }

  /** A blank in front of the digit of the keys tab: the tunnels tab moves onto it. */
  lemma SpacedDigitIsLeft()
    ensures OldKeys(["2"], [" 3"], []) && LeavesDigit(["2"], [" 3"], [])
  {
    forall press
      ensures Takes(["2"], press) <==> press == Plain('2')
      ensures Takes([" 3"], press) <==> press == Plain('3')
    {
      DigitReads('2', press);
      SpacedDigitReads(press);
      assert "2" in ["2"] && " 3" in [" 3"];
    }
    assert " 3" in [" 3"] && " 3" != "3";
  }
}
