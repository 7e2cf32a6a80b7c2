/** Strings through the printer and back through the parser, in both printing modes. */
module JsonStrings {
  import opened Text
  import opened JsonPrinter
  import opened JsonParser

  /** What the parser makes of printed pieces. */
  function Decode(ps: seq<Piece>): string
    requires Spellable(ps)
  {
    if ps == [] then ""
    else
      match ps[0]
      case Raw(c) => [c] + Decode(ps[1..])
      case Unit(u) =>
        if IsHigh(u) && |ps| > 1 && ps[1].Unit? then
          (if IsLow(ps[1].u) then Utf8(Join(u, ps[1].u)) else Utf8(u) + Utf8(ps[1].u)) + Decode(ps[2..])
        else Utf8(u) + Decode(ps[1..])
  }

  /** What a string becomes by being printed and parsed. */
  function Reread(s: string, asciiOnly: bool): string {
    Decode(Pieces(s, asciiOnly))
  }

  lemma ShortEscapeInverts(c: char)
    requires ShortEscape(c) != []
    ensures |ShortEscape(c)| == 2 && ShortEscape(c)[0] == '\\'
    ensures ShortEscape(c)[1] != 'u' && Unescape(ShortEscape(c)[1]) == [c]
  {
  }

  lemma HexDigitInverts(d: nat)
    requires d < 16
    ensures HexValue(HexDigit(d)) == d
  {
  }

  lemma FourDigitsReadBack(t: string, p: nat, a: nat, b: nat, c: nat, e: nat)
    requires a < 16 && b < 16 && c < 16 && e < 16 && p + 4 <= |t|
    requires t[p] == HexDigit(a) && t[p + 1] == HexDigit(b) && t[p + 2] == HexDigit(c) && t[p + 3] == HexDigit(e)
    ensures ParseHex4(t, p) == Ok(((a * 16 + b) * 16 + c) * 16 + e, p + 4)
  {
    HexDigitInverts(a);
    HexDigitInverts(b);
    HexDigitInverts(c);
    HexDigitInverts(e);
    assert HexTail(t, p, 4, 0) == HexTail(t, p + 1, 3, a);
    assert HexTail(t, p + 1, 3, a) == HexTail(t, p + 2, 2, a * 16 + b);
    assert HexTail(t, p + 2, 2, a * 16 + b) == HexTail(t, p + 3, 1, (a * 16 + b) * 16 + c);
    assert HexTail(t, p + 3, 1, (a * 16 + b) * 16 + c) == HexTail(t, p + 4, 0, ((a * 16 + b) * 16 + c) * 16 + e);
  }

  lemma FourDigitsOf(u: nat)
    requires u < 0x10000
    ensures ((u / 4096 * 16 + u / 256 % 16) * 16 + u / 16 % 16) * 16 + u % 16 == u
    ensures u / 4096 < 16
  {
    assert u / 256 == u / 4096 * 16 + u / 256 % 16;
    assert u / 16 == u / 256 * 16 + u / 16 % 16;
  }

  lemma UnitReadBack(t: string, p: nat, u: nat)
    requires u < 0x10000 && At(t, p, UnitText(u))
    ensures p + 6 <= |t| && t[p] == '\\' && t[p + 1] == 'u' && ParseHex4(t, p + 2) == Ok(u, p + 6)
  {
    var w := UnitText(u);
    AtIndex(t, p, w, 0);
    AtIndex(t, p, w, 1);
    AtIndex(t, p, w, 2);
    AtIndex(t, p, w, 3);
    AtIndex(t, p, w, 4);
    AtIndex(t, p, w, 5);
    FourDigitsOf(u);
    FourDigitsReadBack(t, p + 2, u / 4096, u / 256 % 16, u / 16 % 16, u % 16);
  }

  /** Pieces that do not start with a \u escape do not print one, so no surrogate is paired by accident. */
  lemma NoEscapeAhead(t: string, p: nat, ps: seq<Piece>)
    requires Spellable(ps) && At(t, p, SpellAll(ps) + "\"")
    requires ps == [] || ps[0].Raw?
    ensures p < |t| && !(p + 1 < |t| && t[p] == '\\' && t[p + 1] == 'u')
  {
    if ps == [] {
      AtIndex(t, p, SpellAll(ps) + "\"", 0);
    } else {
      var c := ps[0].c;
      var w := SpellAll(ps) + "\"";
      assert w == Spell(ps[0]) + (SpellAll(ps[1..]) + "\"");
      AtIndex(t, p, w, 0);
      if ShortEscape(c) != [] {
        ShortEscapeInverts(c);
        AtIndex(t, p, w, 1);
      }
    }
  }

  lemma ClosingQuote(t: string, p: nat, acc: string)
    requires At(t, p, "\"")
    ensures p < |t| && StringTail(t, p, acc) == Ok(acc, p + 1)
  {
    AtIndex(t, p, "\"", 0);
  }

  /** The parser reads back exactly `Decode` of what was printed, whatever the pieces. */
  lemma {:induction false} PiecesReadBack(t: string, p: nat, ps: seq<Piece>, acc: string)
    requires Spellable(ps) && At(t, p, SpellAll(ps) + "\"")
    ensures StringTail(t, p, acc) == Ok(acc + Decode(ps), p + |SpellAll(ps)| + 1)
    decreases |ps|
  {
    hide StringTail, At, Spell, SpellAll;
    if ps == [] {
      NothingSpelt();
      assert "" + "\"" == "\"";
      ClosingQuote(t, p, acc);
      assert acc + Decode(ps) == acc;
    } else {
      hide Decode;
      FirstPiece(ps);
      AtSplit(t, p, Spell(ps[0]), SpellAll(ps[1..]) + "\"");
      match ps[0]
      case Raw(c) => RawReadBack(t, p, ps, acc);
      case Unit(u) => UnitsReadBack(t, p, ps, acc);
    }
  }

  lemma FirstPiece(ps: seq<Piece>)
    requires Spellable(ps) && ps != []
    ensures SpellAll(ps) + "\"" == Spell(ps[0]) + (SpellAll(ps[1..]) + "\"")
  {
    hide Spell;
    assert SpellAll(ps) == Spell(ps[0]) + SpellAll(ps[1..]);
    hide SpellAll;
    Assoc(Spell(ps[0]), SpellAll(ps[1..]), "\"");
  }

  lemma RawStep(t: string, p: nat, c: char, acc: string)
    requires At(t, p, Spell(Raw(c)))
    ensures StringTail(t, p, acc) == StringTail(t, p + |Spell(Raw(c))|, acc + [c])
  {
    AtIndex(t, p, Spell(Raw(c)), 0);
    if ShortEscape(c) != [] {
      ShortEscapeInverts(c);
      AtIndex(t, p, Spell(Raw(c)), 1);
    }
  }

  lemma {:induction false} RawReadBack(t: string, p: nat, ps: seq<Piece>, acc: string)
    requires Spellable(ps) && ps != [] && ps[0].Raw?
    requires At(t, p, Spell(ps[0])) && At(t, p + |Spell(ps[0])|, SpellAll(ps[1..]) + "\"")
    ensures StringTail(t, p, acc) == Ok(acc + Decode(ps), p + |SpellAll(ps)| + 1)
    decreases |ps|, 0
  {
    hide StringTail, ShortEscape, At;
    RawStep(t, p, ps[0].c, acc);
    PiecesReadBack(t, p + |Spell(ps[0])|, ps[1..], acc + [ps[0].c]);
    Assoc(acc, [ps[0].c], Decode(ps[1..]));
  }

  /** The escape at `p`, and the one after it if there is one: what the pair of units decodes to. */
  function PairText(ps: seq<Piece>): (r: (string, nat))
    requires Spellable(ps) && ps != [] && ps[0].Unit?
    ensures 1 <= r.1 <= |ps|
    ensures Decode(ps) == r.0 + Decode(ps[r.1..])
  {
    var u := ps[0].u;
    if IsHigh(u) && |ps| > 1 && ps[1].Unit? then
      (if IsLow(ps[1].u) then Utf8(Join(u, ps[1].u)) else Utf8(u) + Utf8(ps[1].u), 2)
    else (Utf8(u), 1)
  }

  lemma UnitLength(ps: seq<Piece>)
    requires Spellable(ps) && ps != [] && ps[0].Unit?
    ensures Spell(ps[0]) == UnitText(ps[0].u) && |Spell(ps[0])| == 6 && ps[0].u < 0x10000
    ensures SpellAll(ps) == Spell(ps[0]) + SpellAll(ps[1..])
  {
  }

  lemma SecondUnit(ps: seq<Piece>)
    requires Spellable(ps) && |ps| > 1 && ps[1].Unit?
    ensures ps[1].u < 0x10000 && |UnitText(ps[1].u)| == 6 && |SpellAll(ps[1..])| == 6 + |SpellAll(ps[2..])|
    ensures SpellAll(ps[1..]) + "\"" == UnitText(ps[1].u) + (SpellAll(ps[2..]) + "\"")
  {
    hide UnitText, SpellAll, Spell;
    var rest := ps[1..];
    assert rest[0] == ps[1] && rest[1..] == ps[2..];
    UnitLength(rest);
    Assoc(UnitText(ps[1].u), SpellAll(ps[2..]), "\"");
  }

  lemma UnitStep(t: string, p: nat, ps: seq<Piece>)
    requires Spellable(ps) && ps != [] && ps[0].Unit?
    requires At(t, p, Spell(ps[0])) && At(t, p + 6, SpellAll(ps[1..]) + "\"")
    ensures var (s, n) := PairText(ps);
      p + 6 * n <= |t| && t[p] == '\\' && t[p + 1] == 'u' && ParseUnicode(t, p + 2) == Ok(s, p + 6 * n)
      && At(t, p + 6 * n, SpellAll(ps[n..]) + "\"") && |SpellAll(ps)| == 6 * n + |SpellAll(ps[n..])|
  {
    hide At, UnitText, Spell, SpellAll, Utf8, ParseHex4;
    UnitLength(ps);
    UnitReadBack(t, p, ps[0].u);
    if |ps| > 1 && ps[1].Unit? {
      SecondUnit(ps);
      AtSplit(t, p + 6, UnitText(ps[1].u), SpellAll(ps[2..]) + "\"");
      UnitReadBack(t, p + 6, ps[1].u);
    } else {
      NoEscapeAhead(t, p + 6, ps[1..]);
    }
  }

  lemma EscapeStep(t: string, p: nat, acc: string, s: string, q: nat)
    requires p + 2 <= |t| && t[p] == '\\' && t[p + 1] == 'u' && ParseUnicode(t, p + 2) == Ok(s, q)
    ensures StringTail(t, p, acc) == StringTail(t, q, acc + s)
  {
  }

  lemma PairJoined(ps: seq<Piece>, acc: string)
    requires Spellable(ps) && ps != [] && ps[0].Unit?
    ensures var s, n := PairText(ps).0, PairText(ps).1;
      Spellable(ps[n..]) && acc + s + Decode(ps[n..]) == acc + Decode(ps)
  {
    hide PairText, Decode;
    Assoc(acc, PairText(ps).0, Decode(ps[PairText(ps).1..]));
  }

  lemma {:induction false} UnitsReadBack(t: string, p: nat, ps: seq<Piece>, acc: string)
    requires Spellable(ps) && ps != [] && ps[0].Unit?
    requires At(t, p, Spell(ps[0])) && At(t, p + |Spell(ps[0])|, SpellAll(ps[1..]) + "\"")
    ensures StringTail(t, p, acc) == Ok(acc + Decode(ps), p + |SpellAll(ps)| + 1)
    decreases |ps|, 0
  {
    hide StringTail, ParseUnicode, PairText, Utf8, At, UnitText, Spell, SpellAll, Decode, Spellable;
    UnitLength(ps);
    var s, n := PairText(ps).0, PairText(ps).1;
    UnitStep(t, p, ps);
    EscapeStep(t, p, acc, s, p + 6 * n);
    PairJoined(ps, acc);
    PiecesReadBack(t, p + 6 * n, ps[n..], acc + s);
  }

  /** A printed string, well-formed or not and in either mode, is parsed to its end. */
  lemma StringReadBack(t: string, p: nat, s: string, asciiOnly: bool)
    requires At(t, p, StringText(s, asciiOnly))
    ensures ParseString(t, p) == Ok(Reread(s, asciiOnly), p + |StringText(s, asciiOnly)|)
  {
    var body := SpellAll(Pieces(s, asciiOnly)) + "\"";
    assert StringText(s, asciiOnly) == "\"" + body;
    AtSplit(t, p, "\"", body);
    AtIndex(t, p, "\"", 0);
    PiecesReadBack(t, p + 1, Pieces(s, asciiOnly), "");
    assert "" + Reread(s, asciiOnly) == Reread(s, asciiOnly);
  }

  /** Without ASCII-only printing every byte string comes back unchanged. */
  lemma {:induction false} PlainRereadIsIdentity(s: string)
    ensures Reread(s, false) == s
  {
    if s != [] {
      PlainRereadIsIdentity(s[1..]);
      var ps := Pieces(s, false);
      assert ps[1..] == Pieces(s[1..], false);
      assert s == [s[0]] + s[1..];
    }
  }

  // ---- well-formed UTF-8, section 4 of RFC 3629 -------------------------

  predicate Tail(c: char) {
    0x80 <= c as int <= 0xBF
  }

  /** The length of the character at the front of `s` by the grammar of RFC 3629, or 0 if there is none. */
  function CharacterLength(s: string): (n: nat)
    ensures n <= |s|
  {
    if s == [] then 0
    else
      var b := s[0] as int;
      if b <= 0x7F then 1
      else if |s| >= 2 && 0xC2 <= b <= 0xDF && Tail(s[1]) then 2
      else if |s| >= 3 && Tail(s[2]) &&
              ((b == 0xE0 && 0xA0 <= s[1] as int <= 0xBF) || (0xE1 <= b <= 0xEC && Tail(s[1]))
               || (b == 0xED && 0x80 <= s[1] as int <= 0x9F) || (0xEE <= b <= 0xEF && Tail(s[1]))) then 3
      else if |s| >= 4 && Tail(s[2]) && Tail(s[3]) &&
              ((b == 0xF0 && 0x90 <= s[1] as int <= 0xBF) || (0xF1 <= b <= 0xF3 && Tail(s[1]))
               || (b == 0xF4 && 0x80 <= s[1] as int <= 0x8F)) then 4
      else 0
  }

  predicate WellFormed(s: string) {
    s == [] || (CharacterLength(s) > 0 && WellFormed(s[CharacterLength(s)..]))
  }

  predicate IsScalar(cp: nat) {
    cp < 0xD800 || 0xE000 <= cp < 0x110000
  }

  /** A well-formed multi-byte character is taken whole, as a scalar value whose encoding it is. */
  lemma CharacterDecodes(s: string)
    requires CharacterLength(s) > 1
    ensures Extra(s[0]) == CharacterLength(s) - 1 && AllContinuation(s[1..CharacterLength(s)])
    ensures var cp := Accumulate(LeadBits(s[0]), s[1..CharacterLength(s)]);
      IsScalar(cp) && Utf8(cp) == s[..CharacterLength(s)]
  {
    var n := CharacterLength(s);
    var tail := s[1..n];
    if n == 2 {
      assert tail == [s[1]];
      AccumulateTwo(s[0], s[1]);
    } else if n == 3 {
      assert tail == [s[1], s[2]];
      AccumulateThree(s[0], s[1], s[2]);
    } else {
      assert tail == [s[1], s[2], s[3]];
      AccumulateFour(s[0], s[1], s[2], s[3]);
    }
  }

  lemma AccumulateOne(bits: nat, c: char)
    ensures Accumulate(bits, [c]) == bits * 64 + c as nat % 64
  {
    assert [c][1..] == [];
  }

  lemma AccumulateTwo(a: char, b: char)
    requires 0xC2 <= a as int <= 0xDF && Tail(b)
    ensures var cp := Accumulate(LeadBits(a), [b]); IsScalar(cp) && Utf8(cp) == [a, b]
  {
    AccumulateOne(LeadBits(a), b);
  }

  lemma AccumulateThree(a: char, b: char, c: char)
    requires 0xE0 <= a as int <= 0xEF && Tail(b) && Tail(c)
    requires a as int == 0xE0 ==> 0xA0 <= b as int
    requires a as int == 0xED ==> b as int <= 0x9F
    ensures var cp := Accumulate(LeadBits(a), [b, c]); IsScalar(cp) && Utf8(cp) == [a, b, c]
  {
    assert [b, c][1..] == [c];
    var x, y, z := a as int - 0xE0, b as int - 0x80, c as int - 0x80;
    assert LeadBits(a) == x && b as nat % 64 == y && c as nat % 64 == z;
    AccumulateOne(x * 64 + y, c);
    assert Accumulate(x, [b, c]) == Accumulate(x * 64 + y, [c]);
    Utf8Three(x, y, z);
  }

  lemma Utf8Three(x: nat, y: nat, z: nat)
    requires x < 16 && y < 64 && z < 64
    requires x == 0 ==> y >= 32
    requires x == 13 ==> y < 32
    ensures var cp := (x * 64 + y) * 64 + z;
      IsScalar(cp) && Utf8(cp) == [ByteChar(0xE0 + x), ByteChar(0x80 + y), ByteChar(0x80 + z)]
  {
    var cp := (x * 64 + y) * 64 + z;
    assert cp / 64 == x * 64 + y && cp % 64 == z;
    assert cp / 64 % 64 == y && cp / 4096 == x;
  }

  lemma FourParts(w: nat, x: nat, y: nat, z: nat)
    requires w <= 4 && x < 64 && y < 64 && z < 64
    ensures var cp := ((w * 64 + x) * 64 + y) * 64 + z;
      cp / 262144 == w && cp / 4096 % 64 == x && cp / 64 % 64 == y && cp % 64 == z
  {
    var cp := ((w * 64 + x) * 64 + y) * 64 + z;
    assert cp / 64 == (w * 64 + x) * 64 + y;
    assert cp / 4096 == w * 64 + x;
  }

  lemma AccumulateFour(a: char, b: char, c: char, e: char)
    requires 0xF0 <= a as int <= 0xF4 && Tail(b) && Tail(c) && Tail(e)
    requires a as int == 0xF0 ==> 0x90 <= b as int
    requires a as int == 0xF4 ==> b as int <= 0x8F
    ensures var cp := Accumulate(LeadBits(a), [b, c, e]); IsScalar(cp) && Utf8(cp) == [a, b, c, e]
  {
    assert [b, c, e][1..] == [c, e];
    assert [c, e][1..] == [e];
    hide Utf8, IsScalar;
    var w, x, y, z := a as int - 0xF0, b as int - 0x80, c as int - 0x80, e as int - 0x80;
    assert LeadBits(a) == w && b as nat % 64 == x && c as nat % 64 == y && e as nat % 64 == z;
    AccumulateOne((w * 64 + x) * 64 + y, e);
    assert Accumulate(w, [b, c, e]) == Accumulate((w * 64 + x) * 64 + y, [e]);
    Utf8Four(w, x, y, z);
  }

  lemma Utf8Four(w: nat, x: nat, y: nat, z: nat)
    requires w <= 4 && x < 64 && y < 64 && z < 64
    requires w == 0 ==> x >= 16
    requires w == 4 ==> x < 16
    ensures var cp := ((w * 64 + x) * 64 + y) * 64 + z;
      cp < 0x110000 && IsScalar(cp)
      && Utf8(cp) == [ByteChar(0xF0 + w), ByteChar(0x80 + x), ByteChar(0x80 + y), ByteChar(0x80 + z)]
  {
    FourParts(w, x, y, z);
  }

  /** A scalar value printed as one escape or as a surrogate pair is put together again. */
  lemma ScalarReadsBack(cp: nat, rest: seq<Piece>)
    requires IsScalar(cp) && Spellable(rest)
    ensures Decode(CodeUnits(cp) + rest) == Utf8(cp) + Decode(rest)
  {
    var units := CodeUnits(cp);
    var ps := units + rest;
    if cp < 0x10000 {
      assert ps[1..] == rest;
    } else {
      assert ps[2..] == rest;
      assert Join(units[0].u, units[1].u) == cp;
    }
  }

  /** A single byte is printed as one piece, which decodes to it. */
  lemma ShortFirst(s: string, rest: seq<Piece>)
    requires CharacterLength(s) == 1 && Spellable(rest)
    ensures var (first, used) := NextPieces(s, true);
      used == 1 && Decode(first + rest) == s[..1] + Decode(rest)
  {
    var first := NextPieces(s, true).0;
    assert first == [first[0]] && (first + rest)[1..] == rest && s[..1] == [s[0]];
  }

  /** A longer character is printed as the escape of its scalar value, which decodes to its bytes. */
  lemma LongFirst(s: string, rest: seq<Piece>)
    requires CharacterLength(s) > 1 && Spellable(rest)
    ensures var (first, used) := NextPieces(s, true);
      used == CharacterLength(s) && Decode(first + rest) == s[..used] + Decode(rest)
  {
    CharacterDecodes(s);
    var n := CharacterLength(s);
    assert s[0] as int >= 0x80 && Extra(s[0]) == n - 1;
    hide CharacterLength, Decode, Utf8, CodeUnits, Accumulate, AllContinuation, Extra, LeadBits;
    var cp := Accumulate(LeadBits(s[0]), s[1..n]);
    assert s[1..1 + Extra(s[0])] == s[1..n];
    ScalarReadsBack(cp, rest);
  }

  /** The first character of a well-formed string comes back, and the rest after it. */
  lemma FirstRereads(s: string)
    requires WellFormed(s) && s != []
    ensures var n := CharacterLength(s);
      0 < n <= |s| && WellFormed(s[n..]) && Reread(s, true) == s[..n] + Reread(s[n..], true)
  {
    hide CharacterLength, NextPieces, Decode;
    var n := CharacterLength(s);
    var rest := Pieces(s[n..], true);
    if n == 1 {
      ShortFirst(s, rest);
    } else {
      LongFirst(s, rest);
    }
  }

  /** ASCII-only printing loses nothing of a well-formed UTF-8 string, astral characters included. */
  lemma {:induction false} AsciiRereadIsIdentity(s: string)
    requires WellFormed(s)
    ensures Reread(s, true) == s
    decreases |s|
  {
    hide WellFormed, Reread, CharacterLength;
    if s == [] {
      NothingRereads();
    } else {
      FirstRereads(s);
      var n := CharacterLength(s);
      AsciiRereadIsIdentity(s[n..]);
      assert s == s[..n] + s[n..];
    }
  }

  lemma NothingRereads()
    ensures Reread("", true) == ""
  {
  }

  // ---- ASCII-only output ------------------------------------------------

  predicate IsAscii(s: string) {
    forall i :: 0 <= i < |s| ==> s[i] as int < 0x80
  }

  predicate AsciiPieces(ps: seq<Piece>) {
    forall i :: 0 <= i < |ps| && ps[i].Raw? ==> ps[i].c as int < 0x80
  }

  lemma {:induction false} PiecesAreAscii(s: string)
    ensures AsciiPieces(Pieces(s, true))
    decreases |s|
  {
    if s != [] {
      PiecesAreAscii(s[NextPieces(s, true).1..]);
    }
  }

  lemma {:induction false} SpelledAscii(ps: seq<Piece>)
    requires Spellable(ps) && AsciiPieces(ps)
    ensures IsAscii(SpellAll(ps))
  {
    if ps != [] {
      SpelledAscii(ps[1..]);
      assert IsAscii(Spell(ps[0]));
    }
  }

  /** Every byte of an ASCII-only printed string is below 0x80, whatever the bytes of the string. */
  lemma StringTextIsAscii(s: string)
    ensures IsAscii(StringText(s, true))
  {
    PiecesAreAscii(s);
    SpelledAscii(Pieces(s, true));
  }
}
