/** Key specs such as "Ctrl+S" (parse_keyspec, keyevent_to_spec and
    keyspec_matches in src/app/util.rs). */
module KeySpec {
  import opened Wrappers
  import Decimal
  import Text

  type FNumber = n: nat | n <= MAX_F

  datatype KeyCode =
    | Enter | Tab | Esc | PageUp | PageDown | Up | Down | Left | Right | BackTab
    | F(n: FNumber)
    | Char(c: char)
    /** A key that cannot be bound, a bare modifier for instance. */
    | Unbindable(id: nat)

  datatype Modifier = Control | Alt | Shift | Super | Hyper | Meta
  type Mods = set<Modifier>

  datatype KeyEvent = KeyEvent(code: KeyCode, modifiers: Mods)

  const MAX_F: nat := 255

  predicate IsLetter(c: char) {
    Text.IsLower(c) || Text.IsUpper(c)
  }

  // ---------------------------------------------------------------- parsing

  /** str::split on a plus sign: at least one piece. */
  function Pieces(s: string): (r: seq<string>)
    ensures r != []
  {
    if s == "" then [""]
    else
      var rest := Pieces(s[1..]);
      if s[0] == '+' then [""] + rest else [[s[0]] + rest[0]] + rest[1..]
  }

  function ModifierOf(piece: string): Option<Modifier> {
    var m := Text.LowerAll(Text.Trim(piece));
    if m == "ctrl" || m == "control" then Some(Control)
    else if m == "alt" || m == "option" then Some(Alt)
    else if m == "shift" then Some(Shift)
    else None
  }

  /** All pieces must name a modifier. */
  function ModifiersOf(pieces: seq<string>): Option<Mods> {
    if pieces == [] then Some({})
    else if ModifiersOf(pieces[..|pieces| - 1]).None? || ModifierOf(pieces[|pieces| - 1]).None? then None
    else Some(ModifiersOf(pieces[..|pieces| - 1]).value + {ModifierOf(pieces[|pieces| - 1]).value})
  }

  /** "f12" and the like: all digits after the letter, in range. */
  function FunctionKey(lower: string): Option<KeyCode> {
    if lower != "" && lower[0] == 'f' && lower[1..] != "" && Decimal.AllDigits(lower[1..])
       && Decimal.Parse(lower[1..], MAX_F).Some? then Some(F(Decimal.Parse(lower[1..], MAX_F).value))
    else None
  }

  function NamedKey(lower: string): (r: Option<KeyCode>)
    ensures r.Some? ==> |lower| > 1 && lower[0] != 'f'
  {
    if lower == "enter" || lower == "return" then Some(Enter)
    else if lower == "tab" then Some(Tab)
    else if lower == "space" then Some(Char(' '))
    else if lower == "esc" || lower == "escape" then Some(Esc)
    else if lower == "pageup" then Some(PageUp)
    else if lower == "pagedown" then Some(PageDown)
    else if lower == "up" then Some(Up)
    else if lower == "down" then Some(Down)
    else if lower == "left" then Some(Left)
    else if lower == "right" then Some(Right)
    else if lower == "backtab" then Some(BackTab)
    else None
  }

  /** The key by name, number or character; `bare` says that no modifier came
      before it, which makes an upper-case letter mean a shifted one. */
  function KeyOf(key: string, bare: bool): Option<(KeyCode, Mods)> {
    var lower := Text.LowerAll(key);
    if key == "" then None
    else if NamedKey(lower).Some? then Some((NamedKey(lower).value, {}))
    else if FunctionKey(lower).Some? then Some((FunctionKey(lower).value, {}))
    else if |lower| == 1 then Some((Char(lower[0]), if Text.IsUpper(key[0]) && bare then {Shift} else {}))
    else None
  }

  function Parse(spec: string): Option<(KeyCode, Mods)> {
    var pieces := Pieces(spec);
    var names := pieces[..|pieces| - 1];
    var key := KeyOf(Text.Trim(pieces[|pieces| - 1]), names == []);
    if ModifiersOf(names).None? || key.None? then None
    else Some((key.value.0, ModifiersOf(names).value + key.value.1))
  }

  method ReadModifiers(names: seq<string>) returns (r: Option<Mods>)
    ensures r == ModifiersOf(names)
  {
    var mods: Mods := {};
    for i := 0 to |names|
      invariant ModifiersOf(names[..i]) == Some(mods)
    {
      ModifiersGrow(names, i);
      match ModifierOf(names[i]) {
        case Some(m) => mods := mods + {m};
        case None =>
          NoModifiers(names, i + 1);
          return None;
      }
    }
    assert names[..|names|] == names;
    return Some(mods);
  }

  method ParseKeyspec(spec: string) returns (r: Option<(KeyCode, Mods)>)
    ensures r == Parse(spec)
  {
    var pieces := Pieces(spec);
    var names := pieces[..|pieces| - 1];
    var mods := ReadModifiers(names);
    if mods.None? {
      return None;
    }
    match KeyOf(Text.Trim(pieces[|pieces| - 1]), names == []) {
      case None => return None;
      case Some(key) => return Some((key.0, mods.value + key.1));
    }
  }

  lemma ModifiersGrow(names: seq<string>, i: nat)
    requires i < |names| && ModifiersOf(names[..i]).Some?
    ensures ModifiersOf(names[..i + 1]) == match ModifierOf(names[i])
                                           case None => None
                                           case Some(m) => Some(ModifiersOf(names[..i]).value + {m})
  {
    assert names[..i + 1][..i] == names[..i];
  }

  lemma {:induction false} NoModifiers(pieces: seq<string>, i: nat)
    requires i <= |pieces| && ModifiersOf(pieces[..i]).None?
    ensures ModifiersOf(pieces).None?
    decreases |pieces|
  {
    if i < |pieces| {
      assert pieces[..|pieces| - 1][..i] == pieces[..i];
      NoModifiers(pieces[..|pieces| - 1], i);
    } else {
      assert pieces[..i] == pieces;
    }
  }

  // ---------------------------------------------------------------- the names

  /** The words of the keys, in lower case. */
  const KEY_NAMES: map<string, KeyCode> := map[
    "enter" := Enter, "return" := Enter, "tab" := Tab, "space" := Char(' '), "esc" := Esc, "escape" := Esc,
    "pageup" := PageUp, "pagedown" := PageDown, "up" := Up, "down" := Down, "left" := Left, "right" := Right,
    "backtab" := BackTab]

  const MODIFIER_NAMES: map<string, Modifier> := map[
    "ctrl" := Control, "control" := Control, "alt" := Alt, "option" := Alt, "shift" := Shift]

  lemma NamedKeyIsListed(lower: string)
    ensures NamedKey(lower) == if lower in KEY_NAMES then Some(KEY_NAMES[lower]) else None
  {
  }

  lemma ModifierIsListed(piece: string)
    ensures var word := Text.LowerAll(Text.Trim(piece));
            ModifierOf(piece) == if word in MODIFIER_NAMES then Some(MODIFIER_NAMES[word]) else None
  {
  }

  predicate IsModifierName(piece: string) {
    Text.LowerAll(Text.Trim(piece)) in MODIFIER_NAMES
  }

  /** The pieces name modifiers when each is a word of the list, and then those. */
  lemma ModifiersAreNamed(pieces: seq<string>)
    ensures ModifiersOf(pieces).Some? <==> forall i :: 0 <= i < |pieces| ==> IsModifierName(pieces[i])
    ensures ModifiersOf(pieces).Some? ==> forall m :: m in ModifiersOf(pieces).value <==> Names(pieces, m)
  {
    AllAreNames(pieces);
    if ModifiersOf(pieces).Some? {
      forall m ensures m in ModifiersOf(pieces).value <==> Names(pieces, m) {
        ModifierIsNamed(pieces, m);
      }
    }
  }

  lemma {:induction false} AllAreNames(pieces: seq<string>)
    ensures ModifiersOf(pieces).Some? <==> forall i :: 0 <= i < |pieces| ==> IsModifierName(pieces[i])
  {
    if pieces != [] {
      var init := pieces[..|pieces| - 1];
      AllAreNames(init);
      LastModifier(pieces);
      assert forall i :: 0 <= i < |init| ==> init[i] == pieces[i];
    }
  }

  lemma {:induction false} ModifierIsNamed(pieces: seq<string>, m: Modifier)
    requires ModifiersOf(pieces).Some?
    ensures m in ModifiersOf(pieces).value <==> Names(pieces, m)
  {
    if pieces != [] {
      LastModifier(pieces);
      ModifierIsNamed(pieces[..|pieces| - 1], m);
      NamesSplit(pieces, m);
    }
  }

  lemma LastModifier(pieces: seq<string>)
    requires pieces != []
    ensures var init, last := pieces[..|pieces| - 1], pieces[|pieces| - 1];
            (ModifiersOf(pieces).Some? <==> ModifiersOf(init).Some? && IsModifierName(last))
            && (ModifiersOf(pieces).Some? ==>
                  forall m :: m in ModifiersOf(pieces).value <==> m in ModifiersOf(init).value || NamesAt(last, m))
  {
    ModifierIsListed(pieces[|pieces| - 1]);
  }

  /** Some piece names the modifier. */
  ghost predicate Names(pieces: seq<string>, m: Modifier) {
    exists i :: 0 <= i < |pieces| && NamesAt(pieces[i], m)
  }

  predicate NamesAt(piece: string, m: Modifier) {
    var word := Text.LowerAll(Text.Trim(piece)); word in MODIFIER_NAMES && MODIFIER_NAMES[word] == m
  }

  lemma NamesSplit(pieces: seq<string>, m: Modifier)
    requires pieces != []
    ensures Names(pieces, m) <==> Names(pieces[..|pieces| - 1], m) || NamesAt(pieces[|pieces| - 1], m)
  {
    var init := pieces[..|pieces| - 1];
    if i :| 0 <= i < |pieces| && NamesAt(pieces[i], m) {
      assert i < |init| ==> init[i] == pieces[i];
    }
    if i :| 0 <= i < |init| && NamesAt(init[i], m) {
      assert pieces[i] == init[i];
    }
  }

  /** A spec is read when every piece before the last names a modifier and the last
      is the name of a key, a function key or one character; it stands for these
      modifiers, and Shift besides for a capital letter on its own. */
  lemma SpecIsRead(spec: string)
    ensures var pieces := Pieces(spec);
            var names, key := pieces[..|pieces| - 1], Text.Trim(pieces[|pieces| - 1]);
            var lower := Text.LowerAll(key);
            var named := forall i :: 0 <= i < |names| ==> IsModifierName(names[i]);
            (Parse(spec).Some? <==> named && (lower in KEY_NAMES || FunctionKey(lower).Some? || |key| == 1))
            && (Parse(spec).Some? ==>
                  Parse(spec).value.0 == (if lower in KEY_NAMES then KEY_NAMES[lower]
                                          else if FunctionKey(lower).Some? then FunctionKey(lower).value
                                          else Char(lower[0]))
                  && forall m :: m in Parse(spec).value.1 <==>
                       Names(names, m) || (m == Shift && names == [] && |key| == 1 && Text.IsUpper(key[0])))
  {
    var pieces := Pieces(spec);
    var names, key := pieces[..|pieces| - 1], Text.Trim(pieces[|pieces| - 1]);
    ModifiersAreNamed(names);
    KeyIsRead(key, names == []);
  }

  lemma KeyIsRead(key: string, bare: bool)
    ensures var lower := Text.LowerAll(key);
            (KeyOf(key, bare).Some? <==> lower in KEY_NAMES || FunctionKey(lower).Some? || |key| == 1)
            && (KeyOf(key, bare).Some? ==>
                  KeyOf(key, bare).value ==
                  if lower in KEY_NAMES then (KEY_NAMES[lower], {})
                  else if FunctionKey(lower).Some? then (FunctionKey(lower).value, {})
                  else (Char(lower[0]), if Text.IsUpper(key[0]) && bare then {Shift} else {}))
    ensures |key| == 1 ==> Text.LowerAll(key) !in KEY_NAMES && FunctionKey(Text.LowerAll(key)).None?
  {
    NamedKeyIsListed(Text.LowerAll(key));
  }

  // ---------------------------------------------------------------- printing

  function Upper(c: char): char {
    if Text.IsLower(c) then c - 'a' + 'A' else c
  }

  predicate IsNamed(code: KeyCode) {
    !code.F? && !code.Unbindable? && (code.Char? ==> code.c == ' ')
  }

  /** The printed name of a key, and the same in lower case. */
  function NameOf(code: KeyCode): (string, string)
    requires IsNamed(code)
  {
    match code
    case Enter => ("Enter", "enter")
    case Tab => ("Tab", "tab")
    case Esc => ("Esc", "esc")
    case PageUp => ("PageUp", "pageup")
    case PageDown => ("PageDown", "pagedown")
    case Up => ("Up", "up")
    case Down => ("Down", "down")
    case Left => ("Left", "left")
    case Right => ("Right", "right")
    case BackTab => ("BackTab", "backtab")
    case Char(_) => ("Space", "space")
  }

  function Base(key: KeyEvent): Option<string> {
    match key.code
    case F(n) => Some("F" + Decimal.Print(n))
    case Unbindable(_) => None
    case _ =>
      if IsNamed(key.code) then Some(NameOf(key.code).0)
      else if key.modifiers == {} then Some([Text.Lower(key.code.c)])
      else Some([Upper(key.code.c)])
  }

  /** Shift is spelled out unless the character is its own shifted form. */
  predicate SpellsShift(key: KeyEvent) {
    Shift in key.modifiers && (key.code.Char? ==> IsLetter(key.code.c))
  }

  type Spelled = m: Modifier | m in {Control, Alt, Shift} witness Control

  function Word(m: Spelled): string {
    match m case Control => "Ctrl" case Alt => "Alt" case _ => "Shift"
  }

  function Prefix(key: KeyEvent): seq<Spelled> {
    (if Control in key.modifiers then [Control] else []) + (if Alt in key.modifiers then [Alt] else [])
    + (if SpellsShift(key) then [Shift] else [])
  }

  function Written(mods: seq<Spelled>): string {
    if mods == [] then "" else Word(mods[0]) + "+" + Written(mods[1..])
  }

  lemma Regrouped<T>(a: seq<T>, b: seq<T>, c: seq<T>)
    ensures a + b + c == a + (b + c)
  {
  }

  lemma {:induction false} WrittenAppends(mods: seq<Spelled>, m: Spelled)
    ensures Written(mods + [m]) == Written(mods) + (Word(m) + "+")
  {
    if mods == [] {
      assert [] + [m] == [m] && [m][1..] == [];
    } else {
      WrittenAppends(mods[1..], m);
      Regrouped(Word(mods[0]) + "+", Written(mods[1..]), Word(m) + "+");
      assert (mods + [m])[1..] == mods[1..] + [m];
    }
  }

  function Spec(key: KeyEvent): Option<string> {
    if Base(key).None? then None else Some(Written(Prefix(key)) + Base(key).value)
  }

  method KeyeventToSpec(key: KeyEvent) returns (r: Option<string>)
    ensures r == Spec(key)
  {
    if Base(key).None? {
      return None;
    }
    var out := "";
    ghost var mods: seq<Spelled> := [];
    if Control in key.modifiers {
      WrittenAppends(mods, Control);
      mods := mods + [Control];
      assert "Ctrl" + "+" == "Ctrl+";
      out := out + "Ctrl+";
      assert out == Written(mods);
    }
    if Alt in key.modifiers {
      WrittenAppends(mods, Alt);
      mods := mods + [Alt];
      assert "Alt" + "+" == "Alt+";
      out := out + "Alt+";
      assert out == Written(mods);
    }
    if Shift in key.modifiers && !(key.code.Char? && !IsLetter(key.code.c)) {
      WrittenAppends(mods, Shift);
      mods := mods + [Shift];
      assert "Shift" + "+" == "Shift+";
      out := out + "Shift+";
      assert out == Written(mods);
    }
    assert mods == Prefix(key);
    return Some(out + Base(key).value);
  }

  // ---------------------------------------------------------------- matching

  predicate Matches(code: KeyCode, mods: Mods, key: KeyEvent) {
    (if code.Char? && key.code.Char? then Text.Lower(code.c) == Text.Lower(key.code.c) else code == key.code)
    && key.modifiers == mods
  }

  predicate Accepts(spec: string, key: KeyEvent) {
    var parsed := Parse(spec);
    parsed.Some? && Matches(parsed.value.0, parsed.value.1, key)
  }

  // ---------------------------------------------------------------- reading a printed spec

  lemma {:induction false} PiecesAfter(name: string, rest: string)
    requires '+' !in name
    ensures Pieces(name + "+" + rest) == [name] + Pieces(rest)
  {
    var s := name + "+" + rest;
    if name == "" {
      assert s[1..] == rest;
    } else {
      assert s[0] == name[0] && name[0] in name;
      assert s[1..] == name[1..] + "+" + rest;
      PiecesAfter(name[1..], rest);
      assert [name[0]] + name[1..] == name;
    }
  }

  lemma {:induction false} PiecesOfOne(s: string)
    requires '+' !in s
    ensures Pieces(s) == [s]
  {
    if s != "" {
      PiecesOfOne(s[1..]);
      assert s[0] in s && [s[0]] + s[1..] == s;
    }
  }

  function Words(mods: seq<Spelled>): (r: seq<string>)
    ensures |r| == |mods|
  {
    if mods == [] then [] else Words(mods[..|mods| - 1]) + [Word(mods[|mods| - 1])]
  }

  lemma WordReads(m: Spelled)
    ensures '+' !in Word(m) && ModifierOf(Word(m)) == Some(m)
  {
    Text.TrimKeeps(Word(m));
    if m == Control {
      assert Text.LowerAll("Ctrl") == "ctrl";
    } else if m == Alt {
      assert Text.LowerAll("Alt") == "alt";
    } else {
      assert Text.LowerAll("Shift") == "shift";
    }
  }

  lemma {:induction false} WordsFirst(mods: seq<Spelled>)
    requires mods != []
    ensures Words(mods) == [Word(mods[0])] + Words(mods[1..])
  {
    if |mods| == 1 {
      assert mods[..0] == [] && mods[1..] == [];
    } else {
      var init := mods[..|mods| - 1];
      WordsFirst(init);
      assert mods[1..][..|mods| - 2] == init[1..];
    }
  }

  /** A printed spec comes apart into its words and the pieces of its base. */
  lemma {:induction false} WrittenPieces(mods: seq<Spelled>, base: string)
    ensures Pieces(Written(mods) + base) == Words(mods) + Pieces(base)
  {
    if mods == [] {
      assert Written(mods) + base == base;
    } else {
      WordReads(mods[0]);
      WrittenPieces(mods[1..], base);
      PiecesAfter(Word(mods[0]), Written(mods[1..]) + base);
      Regrouped(Word(mods[0]) + "+", Written(mods[1..]), base);
      Regrouped([Word(mods[0])], Words(mods[1..]), Pieces(base));
      WordsFirst(mods);
    }
  }

  /** The words read as the modifiers they stand for. */
  lemma {:induction false} WordsRead(mods: seq<Spelled>)
    ensures ModifiersOf(Words(mods)) == Some(Elements(mods))
  {
    if mods != [] {
      var init := mods[..|mods| - 1];
      WordsRead(init);
      WordReads(mods[|mods| - 1]);
      assert Words(mods)[..|mods| - 1] == Words(init);
    }
  }

  function Elements(mods: seq<Spelled>): Mods {
    if mods == [] then {} else Elements(mods[..|mods| - 1]) + {mods[|mods| - 1]}
  }

  lemma {:induction false} ElementsHolds(mods: seq<Spelled>, m: Modifier)
    ensures m in Elements(mods) <==> exists i :: 0 <= i < |mods| && mods[i] == m
  {
    if mods != [] {
      ElementsHolds(mods[..|mods| - 1], m);
      assert forall i :: 0 <= i < |mods| - 1 ==> mods[..|mods| - 1][i] == mods[i];
    }
  }

  /** What the printed modifiers mean when they are read. */
  function PrintedMods(key: KeyEvent): Mods {
    (key.modifiers * {Control, Alt}) + if SpellsShift(key) then {Shift} else {}
  }

  lemma PrefixMeans(key: KeyEvent)
    ensures Elements(Prefix(key)) == PrintedMods(key)
  {
    forall m ensures m in Elements(Prefix(key)) <==> m in PrintedMods(key) {
      ElementsHolds(Prefix(key), m);
      PrefixHolds(key, m);
    }
  }

  lemma PrefixHolds(key: KeyEvent, m: Modifier)
    ensures (exists i :: 0 <= i < |Prefix(key)| && Prefix(key)[i] == m) <==> m in PrintedMods(key)
  {
    if m in PrintedMods(key) {
      var before := if m == Control then 0 else if m == Alt then |if Control in key.modifiers then [Control] else []|
                    else |Prefix(key)| - 1;
      assert Prefix(key)[before] == m;
    }
  }

  /** Reading a printed spec comes down to reading its base. */
  lemma SpecReads(key: KeyEvent, base: string)
    requires '+' !in base
    ensures Parse(Written(Prefix(key)) + base) ==
            (match KeyOf(Text.Trim(base), Prefix(key) == [])
             case None => None
             case Some(k) => Some((k.0, PrintedMods(key) + k.1)))
  {
    WordsRead(Prefix(key));
    PrefixMeans(key);
    WrittenPieces(Prefix(key), base);
    PiecesOfOne(base);
    var pieces := Words(Prefix(key)) + [base];
    assert pieces[..|pieces| - 1] == Words(Prefix(key));
  }

  /** A captured letter is shown small on its own and as a capital behind modifiers. */
  lemma LetterIsShown(key: KeyEvent)
    requires key.code.Char? && IsLetter(key.code.c)
    ensures var base := Base(key);
            base.Some? && |base.value| == 1 && Text.Lower(base.value[0]) == Text.Lower(key.code.c)
            && if key.modifiers == {} then Text.IsLower(base.value[0]) else Text.IsUpper(base.value[0])
  {
  }

  // ---------------------------------------------------------------- round trip

  lemma NameIsPlain(code: KeyCode)
    requires IsNamed(code)
    ensures var name := NameOf(code).0;
            name != "" && '+' !in name && !Text.IsWhite(name[0]) && !Text.IsWhite(name[|name| - 1])
  {
  }

  lemma NameLowers(code: KeyCode)
    requires IsNamed(code)
    ensures Text.LowerAll(NameOf(code).0) == NameOf(code).1
  {
  }

  lemma NameIsFound(code: KeyCode)
    requires IsNamed(code)
    ensures NamedKey(NameOf(code).1) == Some(code)
  {
  }

  lemma NameReads(code: KeyCode, bare: bool)
    requires IsNamed(code)
    ensures '+' !in NameOf(code).0 && KeyOf(Text.Trim(NameOf(code).0), bare) == Some((code, {}))
  {
    NameIsPlain(code);
    Text.TrimKeeps(NameOf(code).0);
    NameLowers(code);
    NameIsFound(code);
  }

  lemma FunctionKeyLowers(digits: string)
    requires Decimal.AllDigits(digits)
    ensures Text.LowerAll("F" + digits) == "f" + digits
  {
    assert forall i :: 0 <= i < |digits| ==> digits[i] in digits && ("F" + digits)[i + 1] == digits[i];
  }

  lemma FunctionKeyIsFound(n: FNumber)
    ensures FunctionKey("f" + Decimal.Print(n)) == Some(F(n))
  {
    Decimal.ParseOfPrint(n, MAX_F);
    assert ("f" + Decimal.Print(n))[1..] == Decimal.Print(n);
  }

  lemma FunctionKeyReads(n: FNumber, bare: bool)
    ensures '+' !in "F" + Decimal.Print(n) && KeyOf(Text.Trim("F" + Decimal.Print(n)), bare) == Some((F(n), {}))
  {
    var digits := Decimal.Print(n);
    assert digits[|digits| - 1] in digits;
    Text.TrimKeeps("F" + digits);
    FunctionKeyLowers(digits);
    FunctionKeyIsFound(n);
    assert NamedKey("f" + digits).None?;
  }

  lemma CharReads(c: char, bare: bool)
    requires !Text.IsWhite(c)
    ensures KeyOf(Text.Trim([c]), bare) == Some((Char(Text.Lower(c)), if Text.IsUpper(c) && bare then {Shift} else {}))
  {
  }

  /** Only the three modifiers the parser knows ever come out of it. */
  lemma {:induction false} ParsedModifiers(pieces: seq<string>)
    requires ModifiersOf(pieces).Some?
    ensures ModifiersOf(pieces).value <= {Control, Alt, Shift}
  {
    if pieces != [] {
      ParsedModifiers(pieces[..|pieces| - 1]);
    }
  }

  /** Events whose printed spec the parser reads back: no modifier beyond the
      three, no Shift on a character that is not a letter, no plus sign, and no
      white space but the space bar. */
  predicate CanBeCaptured(key: KeyEvent) {
    key.modifiers <= {Control, Alt, Shift}
    && (key.code.Char? ==>
          key.code.c != '+' && (Text.IsWhite(key.code.c) ==> key.code.c == ' ')
          && (Shift in key.modifiers ==> IsLetter(key.code.c)))
  }

  /** The same key up to letter case, under the same modifiers. */
  predicate SameKey(a: KeyEvent, b: KeyEvent) {
    a.modifiers == b.modifiers
    && if a.code.Char? && b.code.Char? then Text.Lower(a.code.c) == Text.Lower(b.code.c) else a.code == b.code
  }

  lemma CapturedBaseReads(key: KeyEvent)
    requires Base(key).Some? && CanBeCaptured(key)
    ensures '+' !in Base(key).value
    ensures KeyOf(Text.Trim(Base(key).value), Prefix(key) == []) ==
            Some((if key.code.Char? then Char(Text.Lower(key.code.c)) else key.code, {}))
  {
    if key.code.F? {
      FunctionKeyReads(key.code.n, Prefix(key) == []);
    } else if IsNamed(key.code) {
      NameReads(key.code, Prefix(key) == []);
    } else {
      CharReads(Base(key).value[0], Prefix(key) == []);
      PrefixIsEmpty(key);
    }
  }

  lemma NothingLost(key: KeyEvent)
    requires CanBeCaptured(key)
    ensures PrintedMods(key) + {} == key.modifiers
  {
  }

  lemma CapturedReads(key: KeyEvent)
    requires Base(key).Some? && CanBeCaptured(key)
    ensures Parse(Spec(key).value) ==
        Some((if key.code.Char? then Char(Text.Lower(key.code.c)) else key.code, key.modifiers))
  {
    CapturedBaseReads(key);
    SpecReads(key, Base(key).value);
    NothingLost(key);
  }

  lemma PrefixIsEmpty(key: KeyEvent)
    requires CanBeCaptured(key)
    ensures Prefix(key) == [] <==> key.modifiers == {}
  {
  }

  /** A binding captured from one key press answers to exactly the same key. */
  lemma CapturedMatchesItsKey(key: KeyEvent, pressed: KeyEvent)
    requires Base(key).Some? && CanBeCaptured(key)
    ensures Accepts(Spec(key).value, pressed) <==> SameKey(key, pressed)
  {
    CapturedReads(key);
  }

  /** The round trip holds for an event if and only if it can be captured. */
  lemma CaptureRoundTrip(key: KeyEvent)
    requires Spec(key).Some?
    ensures Accepts(Spec(key).value, key) <==> CanBeCaptured(key)
  {
    if CanBeCaptured(key) {
      CapturedReads(key);
    } else if !(key.modifiers <= {Control, Alt, Shift}) {
      ForeignModifierIsLost(key);
    } else if key.code.c == '+' || (Text.IsWhite(key.code.c) && key.code.c != ' ') {
      UnreadableCharacter(key);
    } else {
      UnspelledShift(key);
    }
  }

  lemma ForeignModifierIsLost(key: KeyEvent)
    requires Spec(key).Some? && !(key.modifiers <= {Control, Alt, Shift})
    ensures !Accepts(Spec(key).value, key)
  {
    var pieces := Pieces(Spec(key).value);
    if ModifiersOf(pieces[..|pieces| - 1]).Some? {
      ParsedModifiers(pieces[..|pieces| - 1]);
    }
  }

  lemma UnreadableCharacter(key: KeyEvent)
    requires key.code.Char? && (key.code.c == '+' || (Text.IsWhite(key.code.c) && key.code.c != ' '))
    ensures Parse(Spec(key).value).None?
  {
    var c := key.code.c;
    var base := Base(key).value;
    assert base == [c];
    WrittenPieces(Prefix(key), base);
    var last := if c == '+' then "" else base;
    assert Text.Trim(last) == "";
    var pieces := Pieces(Spec(key).value);
    assert pieces[|pieces| - 1] == last;
  }

  lemma UnspelledShift(key: KeyEvent)
    requires key.code.Char? && key.code.c != '+' && (Text.IsWhite(key.code.c) ==> key.code.c == ' ')
    requires Shift in key.modifiers && !IsLetter(key.code.c)
    ensures !Accepts(Spec(key).value, key)
  {
    UnshiftedBase(key, Prefix(key) == []);
    SpecReads(key, Base(key).value);
    assert Shift !in PrintedMods(key);
  }

  /** The base of a character that is no letter reads without a Shift of its own. */
  lemma UnshiftedBase(key: KeyEvent, bare: bool)
    requires key.code.Char? && key.code.c != '+' && (Text.IsWhite(key.code.c) ==> key.code.c == ' ')
    requires !IsLetter(key.code.c)
    ensures Base(key).Some? && '+' !in Base(key).value
    ensures KeyOf(Text.Trim(Base(key).value), bare) == Some((key.code, {}))
  {
    if key.code.c == ' ' {
      NameReads(key.code, bare);
    } else {
      assert Base(key).value == [key.code.c];
      CharReads(key.code.c, bare);
    }
  }
}
