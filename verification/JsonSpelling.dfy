/** How the printer spells strings and whole numbers, byte by byte. */
module JsonSpelling {
  import opened Text
  import opened JsonPrinter
  import opened JsonStrings
  import opened JsonGrammar
  import opened JsonAcceptance

  // ---- escapes ----------------------------------------------------------

  /** A hexadecimal digit, in lower case. */
  predicate IsLowerHex(c: char) {
    '0' <= c <= '9' || 'a' <= c <= 'f'
  }

  /** Four lower-case digits with this value. */
  predicate Spells(digits: string, u: nat) {
    |digits| == 4 && (forall i :: 0 <= i < 4 ==> IsLowerHex(digits[i]))
    && 0x1000 * HexOf(digits[0]) + 0x100 * HexOf(digits[1]) + 0x10 * HexOf(digits[2]) + HexOf(digits[3]) == u
  }

  lemma DigitOf(d: nat)
    requires d < 16
    ensures IsLowerHex(HexDigit(d)) && HexOf(HexDigit(d)) == d
  {
  }

  lemma EscapeSpells(u: nat)
    requires u < 0x10000
    ensures UnitText(u)[..2] == "\\u" && Spells(UnitText(u)[2..], u)
  {
    var w := UnitText(u);
    DigitOf(u / 4096);
    DigitOf(u / 256 % 16);
    DigitOf(u / 16 % 16);
    DigitOf(u % 16);
    FourDigitsOf(u);
    var digits := w[2..];
    assert digits == [HexDigit(u / 4096), HexDigit(u / 256 % 16), HexDigit(u / 16 % 16), HexDigit(u % 16)];
    assert w[..2] == ['\\', 'u'];
    hide HexDigit, HexOf, IsLowerHex, UnitText;
    DigitsSpell(digits, u / 4096, u / 256 % 16, u / 16 % 16, u % 16);
  }

  lemma DigitsSpell(digits: string, a: nat, b: nat, c: nat, d: nat)
    requires |digits| == 4 && forall i :: 0 <= i < 4 ==> IsLowerHex(digits[i])
    requires HexOf(digits[0]) == a && HexOf(digits[1]) == b && HexOf(digits[2]) == c && HexOf(digits[3]) == d
    ensures Spells(digits, ((a * 16 + b) * 16 + c) * 16 + d)
  {
  }

  // ---- plain strings ----------------------------------------------------

  /** The letter that stands for this character after a backslash, if the printer uses one: all of section 7 of RFC 8259
      but the slash. */
  function LetterFor(c: char): (letter: string)
    ensures letter != "" ==> |letter| == 1 && Named(letter[0]) == c as int
  {
    match c as int
    case 0x22 => "\""
    case 0x5C => "\\"
    case 0x08 => "b"
    case 0x0C => "f"
    case 0x0A => "n"
    case 0x0D => "r"
    case 0x09 => "t"
    case _ => ""
  }

  /** One character: behind a backslash what has a letter, as an escape what is left of the control characters, and
      everything else as it is. */
  function OneSpelt(c: char): string {
    if LetterFor(c) != "" then "\\" + LetterFor(c)
    else if c as int < 0x20 then UnitText(c as int)
    else [c]
  }

  function PlainSpelt(s: string): string {
    if s == "" then "" else OneSpelt(s[0]) + PlainSpelt(s[1..])
  }

  lemma ShortIsLetter(c: char)
    ensures ShortEscape(c) == if LetterFor(c) != "" then "\\" + LetterFor(c) else ""
  {
  }

  lemma OnePieces(s: string, asciiOnly: bool)
    requires s != "" && (asciiOnly ==> s[0] as int < 0x80)
    ensures SpellAll(Pieces(s, asciiOnly)) == OneSpelt(s[0]) + SpellAll(Pieces(s[1..], asciiOnly))
  {
    var c := s[0];
    ShortIsLetter(c);
    var (first, used) := NextPieces(s, asciiOnly);
    assert used == 1 && |first| == 1 && Spell(first[0]) == OneSpelt(c);
    hide NextPieces, Spell, OneSpelt;
    FrontSpelt(s, asciiOnly);
    OneSpelled(first[0]);
    assert [first[0]] == first;
  }

  lemma FrontSpelt(s: string, asciiOnly: bool)
    requires s != ""
    ensures var (first, used) := NextPieces(s, asciiOnly);
      SpellAll(Pieces(s, asciiOnly)) == SpellAll(first) + SpellAll(Pieces(s[used..], asciiOnly))
  {
    hide NextPieces;
    var (first, used) := NextPieces(s, asciiOnly);
    SpellAllAppend(first, Pieces(s[used..], asciiOnly));
  }

  lemma OneSpelled(p: Piece)
    requires p.Unit? ==> p.u < 0x10000
    ensures SpellAll([p]) == Spell(p)
  {
    hide Spell;
    assert [p][1..] == [];
  }

  /** Without ASCII-only printing every byte is spelt by itself. */
  lemma {:induction false} PlainStringIsSpelt(s: string)
    ensures SpellAll(Pieces(s, false)) == PlainSpelt(s)
  {
    if s != "" {
      OnePieces(s, false);
      PlainStringIsSpelt(s[1..]);
    }
  }

  // ---- ASCII-only strings -----------------------------------------------

  predicate IsTail(s: string, from: nat, to: nat)
    requires to <= |s|
  {
    forall i :: from <= i < to ==> 0x80 <= s[i] as int <= 0xBF
  }

  /** How many bytes have to follow this one in UTF-8; none for what cannot begin a character. */
  function Following(b: int): nat {
    if 0xC0 <= b <= 0xDF then 1 else if 0xE0 <= b <= 0xEF then 2 else if 0xF0 <= b <= 0xF7 then 3 else 0
  }

  /** The number of the character that these bytes spell. */
  function NumberOf(s: string): nat
    requires 2 <= |s| <= 4 && Following(s[0] as int) == |s| - 1 && IsTail(s, 1, |s|)
  {
    if |s| == 2 then (s[0] as int - 0xC0) * 0x40 + (s[1] as int - 0x80)
    else if |s| == 3 then (s[0] as int - 0xE0) * 0x1000 + (s[1] as int - 0x80) * 0x40 + (s[2] as int - 0x80)
    else
      (s[0] as int - 0xF0) * 0x40000 + (s[1] as int - 0x80) * 0x1000 + (s[2] as int - 0x80) * 0x40
      + (s[3] as int - 0x80)
  }

  /** One escape, or two for a character beyond the basic plane. */
  function EscapesFor(cp: nat): string
    requires cp < 0x200000
  {
    if cp <= 0xFFFF then UnitText(cp)
    else UnitText(0xD800 + (cp - 0x10000) / 0x400) + UnitText(0xDC00 + (cp - 0x10000) % 0x400)
  }

  /** ASCII-only: characters of UTF-8 as escapes; a byte that begins none as the replacement character, and on to
      the next; and if there are not enough bytes left for a character begun, the replacement character, and no
      more. */
  function AsciiSpelt(s: string): string
    decreases |s|
  {
    if s == "" then ""
    else
      var n := Following(s[0] as int);
      if s[0] as int < 0x80 then OneSpelt(s[0]) + AsciiSpelt(s[1..])
      else if n == 0 then "\\ufffd" + AsciiSpelt(s[1..])
      else if n >= |s| then "\\ufffd"
      else if !IsTail(s, 1, 1 + n) then "\\ufffd" + AsciiSpelt(s[1..])
      else
        NumberBound(s[..1 + n]);
        EscapesFor(NumberOf(s[..1 + n])) + AsciiSpelt(s[1 + n..])
  }

  lemma NumberBound(s: string)
    requires 2 <= |s| <= 4 && Following(s[0] as int) == |s| - 1 && IsTail(s, 1, |s|)
    ensures NumberOf(s) < 0x200000
  {
  }

  lemma FollowingIsExtra(c: char)
    requires c as int < 0x100
    ensures Following(c as int) == Extra(c)
  {
  }

  lemma LeadIs(c: char)
    requires Following(c as int) > 0
    ensures LeadBits(c) as int
      == c as int - (if Following(c as int) == 1 then 0xC0 else if Following(c as int) == 2 then 0xE0 else 0xF0)
  {
  }

  lemma AccumulateStep(bits: nat, tail: string)
    requires tail != "" && 0x80 <= tail[0] as int <= 0xBF
    ensures Accumulate(bits, tail) == Accumulate(bits * 64 + (tail[0] as int - 0x80), tail[1..])
  {
  }

  lemma AccumulateEnds(bits: nat)
    ensures Accumulate(bits, "") == bits
  {
  }

  lemma NumberIsAccumulated(s: string)
    requires 2 <= |s| <= 4 && Following(s[0] as int) == |s| - 1 && IsTail(s, 1, |s|)
    ensures Accumulate(LeadBits(s[0]), s[1..]) == NumberOf(s)
  {
    LeadIs(s[0]);
    hide Accumulate, LeadBits;
    var b := LeadBits(s[0]);
    var b1 := b * 64 + (s[1] as int - 0x80);
    AccumulateStep(b, s[1..]);
    assert s[1..][1..] == s[2..];
    AccumulateEnds(b1);
    if |s| > 2 {
      var b2 := b1 * 64 + (s[2] as int - 0x80);
      AccumulateStep(b1, s[2..]);
      assert s[2..][1..] == s[3..];
      AccumulateEnds(b2);
      if |s| > 3 {
        AccumulateStep(b2, s[3..]);
        assert s[3..][1..] == s[4..];
        AccumulateEnds(b2 * 64 + (s[3] as int - 0x80));
      }
    }
  }

  lemma UnitsSpelt(cp: nat)
    requires cp < 0x200000
    ensures SpellAll(CodeUnits(cp)) == EscapesFor(cp)
  {
    var units := CodeUnits(cp);
    hide UnitText;
    if |units| == 1 {
      OneSpelled(units[0]);
      assert [units[0]] == units;
    } else {
      SpellAllAppend([units[0]], [units[1]]);
      OneSpelled(units[0]);
      OneSpelled(units[1]);
      assert [units[0]] + [units[1]] == units;
    }
  }

  lemma ReplacementSpelt()
    ensures SpellAll([Unit(0xFFFD)]) == "\\ufffd"
  {
    OneSpelled(Unit(0xFFFD));
  }

  /** The pieces for a byte from 0x80 on. */
  lemma HighPieces(s: string)
    requires s != "" && 0x80 <= s[0] as int < 0x100
    ensures var n, (first, used) := Following(s[0] as int), NextPieces(s, true);
      if n == 0 then first == [Unit(0xFFFD)] && used == 1
      else if n >= |s| then first == [Unit(0xFFFD)] && used == |s|
      else if !IsTail(s, 1, 1 + n) then first == [Unit(0xFFFD)] && used == 1
      else
        NumberOf(s[..1 + n]) < 0x200000 && first == CodeUnits(NumberOf(s[..1 + n])) && used == 1 + n
  {
    var n := Following(s[0] as int);
    FollowingIsExtra(s[0]);
    if 0 < n < |s| {
      var front := s[..1 + n];
      TailIsContinuation(s, n);
      if IsTail(s, 1, 1 + n) {
        assert front[1..] == s[1..1 + n];
        NumberBound(front);
        NumberIsAccumulated(front);
      }
      hide NumberOf, Accumulate, LeadBits, CodeUnits, IsTail, AllContinuation;
    }
  }

  lemma TailIsContinuation(s: string, n: nat)
    requires 1 + n <= |s|
    ensures AllContinuation(s[1..1 + n]) <==> IsTail(s, 1, 1 + n)
  {
    var t := s[1..1 + n];
    assert forall i :: 0 <= i < n ==> t[i] == s[i + 1];
    if AllContinuation(t) {
      forall i | 1 <= i < 1 + n ensures 0x80 <= s[i] as int <= 0xBF {
        assert IsContinuation(t[i - 1]);
      }
    }
  }

  /** ASCII-only strings are spelt just so, whatever their bytes. */
  lemma {:induction false} AsciiStringIsSpelt(s: string)
    requires forall i :: 0 <= i < |s| ==> s[i] as int < 0x100
    ensures SpellAll(Pieces(s, true)) == AsciiSpelt(s)
    decreases |s|
  {
    if s != "" {
      if s[0] as int < 0x80 {
        OnePieces(s, true);
        AsciiStringIsSpelt(s[1..]);
      } else {
        HighSpelt(s);
      }
    }
  }

  lemma {:induction false} HighSpelt(s: string)
    requires s != "" && 0x80 <= s[0] as int && forall i :: 0 <= i < |s| ==> s[i] as int < 0x100
    ensures SpellAll(Pieces(s, true)) == AsciiSpelt(s)
    decreases |s|, 0
  {
    hide NextPieces, SpellAll, Pieces, NumberOf, EscapesFor, CodeUnits, OneSpelt;
    var n := Following(s[0] as int);
    HighPieces(s);
    FrontSpelt(s, true);
    ReplacementSpelt();
    if n == 0 || (n < |s| && !IsTail(s, 1, 1 + n)) {
      AsciiStringIsSpelt(s[1..]);
    } else if n >= |s| {
      NothingLeft(s);
    } else {
      NumberBound(s[..1 + n]);
      UnitsSpelt(NumberOf(s[..1 + n]));
      AsciiStringIsSpelt(s[1 + n..]);
    }
  }

  lemma NothingLeft(s: string)
    ensures SpellAll(Pieces(s[|s|..], true)) == "" && "\\ufffd" + "" == "\\ufffd"
  {
    assert s[|s|..] == "";
  }

  /** A character begun and not finished takes what is left with it: the rest of the string is lost. */
  lemma UnfinishedLosesRest(s: string)
    requires 1 < |s| <= Following(s[0] as int) && forall i :: 0 <= i < |s| ==> s[i] as int < 0x100
    ensures StringText(s, true) == "\"\\ufffd\""
  {
    AsciiStringIsSpelt(s);
    hide Pieces, SpellAll;
    assert AsciiSpelt(s) == "\\ufffd";
  }

  // ---- numbers ----------------------------------------------------------

  /** Whole numbers below 9e15 in magnitude are printed as integers of RFC 8259, with no leading zeros, and all
      others as they are formatted. */
  lemma NumbersAreSpelt(n: real, format: NumberFormat)
    ensures var whole := n == n.Floor as real && -9_000_000_000_000_000.0 < n < 9_000_000_000_000_000.0;
      if whole then
        var digits := Digits(if n.Floor < 0 then -n.Floor else n.Floor);
        RfcParts(NumberText(n, format), if n < 0.0 then "-" else "", digits, "", "")
        && DigitsValue(digits) as real == (if n < 0.0 then -n else n)
      else NumberText(n, format) == format(n)
  {
    var m := if n.Floor < 0 then -n.Floor else n.Floor;
    DigitsReadBack(m);
    NoLeadingZero(m);
    assert (if n < 0.0 then "-" else "") + Digits(m) + "" + "" == (if n < 0.0 then "-" else "") + Digits(m);
  }

  lemma {:induction false} NoLeadingZero(n: nat)
    ensures RfcWhole(Digits(n)) && (n > 0 ==> Digits(n)[0] != '0')
  {
    if n >= 10 {
      NoLeadingZero(n / 10);
      assert Digits(n)[0] == Digits(n / 10)[0];
    }
  }
}
