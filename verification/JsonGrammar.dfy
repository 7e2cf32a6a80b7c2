/** JSON texts as a grammar: derivations with their white space and escapes, the texts that they derive, what these
    mean, and what the parser makes of every one of them, of whatever depth. */
module JsonGrammar {
  import opened Text
  import opened JsonValue
  import opened JsonPrinter
  import opened JsonParser
  import opened JsonStrings
  import opened JsonRoundTrip

  /** One character of a string: as it is, after a backslash, or four hexadecimal digits. */
  datatype Glyph = Plain(c: char) | Short(c: char) | Code(digits: string)

  /** A derivation of a text. */
  datatype Tree =
    | Word(value: Json)
    | Numeral(token: string)
    | Quoted(glyphs: seq<Glyph>)
    | Hollow(list: bool, gap: string)
    | List(slots: seq<Slot>)
    | Record(fields: seq<Field>)

  /** A value and the white space around it. */
  datatype Slot = Slot(before: string, tree: Tree, after: string)

  datatype Field = Field(before: string, key: seq<Glyph>, mid: string, slot: Slot)

  // ---- texts ------------------------------------------------------------

  function GlyphText(g: Glyph): string {
    match g
    case Plain(c) => [c]
    case Short(c) => ['\\', c]
    case Code(digits) => "\\u" + digits
  }

  function GlyphsText(gs: seq<Glyph>): string {
    if gs == [] then "" else GlyphText(gs[0]) + GlyphsText(gs[1..])
  }

  function WordText(value: Json): string {
    match value
    case Bool(b) => if b then "true" else "false"
    case _ => "null"
  }

  function TreeText(tree: Tree): string {
    match tree
    case Word(value) => WordText(value)
    case Numeral(token) => token
    case Quoted(glyphs) => "\"" + (GlyphsText(glyphs) + "\"")
    case Hollow(list, gap) => if list then "[" + (gap + "]") else "{" + (gap + "}")
    case List(slots) => "[" + SlotsText(slots)
    case Record(fields) => "{" + FieldsText(fields)
  }

  /** What follows the white space before a value: the value, white space, and `rest`. */
  function Onward(slot: Slot, rest: string): string {
    TreeText(slot.tree) + (slot.after + rest)
  }

  /** Values with commas between them, to the closing bracket. */
  function SlotsText(slots: seq<Slot>): string {
    if slots == [] then ""
    else slots[0].before + Onward(slots[0], if |slots| == 1 then "]" else "," + SlotsText(slots[1..]))
  }

  function KeyText(f: Field, rest: string): string {
    "\"" + (GlyphsText(f.key) + "\"") + (f.mid + (":" + rest))
  }

  function FieldsText(fields: seq<Field>): string {
    if fields == [] then ""
    else
      var rest := if |fields| == 1 then "}" else "," + FieldsText(fields[1..]);
      fields[0].before + KeyText(fields[0], fields[0].slot.before + Onward(fields[0].slot, rest))
  }

  // ---- which texts are derived ------------------------------------------

  /** White space by section 2 of RFC 8259. */
  predicate IsGap(s: string) {
    forall i :: 0 <= i < |s| ==> s[i] == ' ' || s[i] == '\t' || s[i] == '\n' || s[i] == '\r'
  }

  /** What a backslash and this letter stand for, by section 7 of RFC 8259; -1 if nothing. */
  function Named(c: char): int {
    match c
    case '"' => 0x22
    case '\\' => 0x5C
    case '/' => 0x2F
    case 'b' => 0x08
    case 'f' => 0x0C
    case 'n' => 0x0A
    case 'r' => 0x0D
    case 't' => 0x09
    case _ => -1
  }

  /** The value of a hexadecimal digit of either case; -1 for anything else. */
  function HexOf(c: char): (h: int)
    ensures -1 <= h < 16
  {
    if '0' <= c <= '9' then c as int - 0x30
    else if 'a' <= c <= 'f' then c as int - 0x61 + 10
    else if 'A' <= c <= 'F' then c as int - 0x41 + 10
    else -1
  }

  /** The octets of a character number, by the table in section 3 of RFC 3629, for surrogates and beyond as well. */
  function Octets(cp: nat): string
    requires cp < 0x200000
  {
    var low := 0x80 + cp % 0x40;
    if cp <= 0x7F then [cp as char]
    else if cp <= 0x7FF then [(0xC0 + cp / 0x40) as char, low as char]
    else if cp <= 0xFFFF then [(0xE0 + cp / 0x1000) as char, (0x80 + cp / 0x40 % 0x40) as char, low as char]
    else
      [(0xF0 + cp / 0x40000) as char, (0x80 + cp / 0x1000 % 0x40) as char, (0x80 + cp / 0x40 % 0x40) as char,
       low as char]
  }

  /** The character number of a surrogate pair: ten bits from each, above the basic plane. */
  function PairOf(high: nat, low: nat): (cp: nat)
    requires 0xD800 <= high <= 0xDBFF && 0xDC00 <= low <= 0xDFFF
    ensures cp < 0x200000
  {
    0x10000 + high % 0x400 * 0x400 + low % 0x400
  }

  /** The characters that the parser takes: anything but a quote or a backslash as it is, the eight letters after a
      backslash, and any four hexadecimal digits. */
  predicate TakenGlyph(g: Glyph) {
    match g
    case Plain(c) => c != '"' && c != '\\'
    case Short(c) => Named(c) >= 0
    case Code(digits) => |digits| == 4 && forall i :: 0 <= i < 4 ==> HexOf(digits[i]) >= 0
  }

  predicate TakenGlyphs(gs: seq<Glyph>) {
    forall k :: 0 <= k < |gs| ==> TakenGlyph(gs[k])
  }

  predicate IsToken(token: string) {
    token != "" && forall i :: 0 <= i < |token| ==> IsNumeric(token[i])
  }

  predicate IsNumeric(c: char) {
    '0' <= c <= '9' || c == '+' || c == '-' || c == '.' || c == 'e' || c == 'E'
  }

  /** The texts that the parser reads to their end, but for depth and for what `std::stod` says to their numerals, of
      which only the characters matter. */
  predicate Taken(tree: Tree) {
    match tree
    case Word(value) => value.Null? || value.Bool?
    case Numeral(token) => IsToken(token)
    case Quoted(glyphs) => TakenGlyphs(glyphs)
    case Hollow(_, gap) => IsGap(gap)
    case List(slots) => slots != [] && TakenSlots(slots)
    case Record(fields) => fields != [] && TakenFields(fields)
  }

  predicate TakenSlots(slots: seq<Slot>) {
    slots == []
    || (IsGap(slots[0].before) && IsGap(slots[0].after) && Taken(slots[0].tree) && TakenSlots(slots[1..]))
  }

  predicate TakenFields(fields: seq<Field>) {
    fields == []
    || (IsGap(fields[0].before) && IsGap(fields[0].mid) && IsGap(fields[0].slot.before)
        && IsGap(fields[0].slot.after) && TakenGlyphs(fields[0].key) && Taken(fields[0].slot.tree)
        && TakenFields(fields[1..]))
  }

  /** `std::stod` reads every numeral to its end. */
  predicate NumbersRead(tree: Tree, strtod: NumberReader) {
    match tree
    case Numeral(token) => Stod(token, strtod).Read? && Stod(token, strtod).consumed == |token|
    case List(slots) => SlotNumbersRead(slots, strtod)
    case Record(fields) => FieldNumbersRead(fields, strtod)
    case _ => true
  }

  predicate SlotNumbersRead(slots: seq<Slot>, strtod: NumberReader) {
    slots == [] || (NumbersRead(slots[0].tree, strtod) && SlotNumbersRead(slots[1..], strtod))
  }

  predicate FieldNumbersRead(fields: seq<Field>, strtod: NumberReader) {
    fields == [] || (NumbersRead(fields[0].slot.tree, strtod) && FieldNumbersRead(fields[1..], strtod))
  }

  function Height(tree: Tree): nat {
    match tree
    case List(slots) => 1 + SlotsHeight(slots)
    case Record(fields) => 1 + FieldsHeight(fields)
    case _ => 1
  }

  function SlotsHeight(slots: seq<Slot>): nat {
    if slots == [] then 0 else Max(Height(slots[0].tree), SlotsHeight(slots[1..]))
  }

  function FieldsHeight(fields: seq<Field>): nat {
    if fields == [] then 0 else Max(Height(fields[0].slot.tree), FieldsHeight(fields[1..]))
  }

  // ---- what they mean ---------------------------------------------------

  function CodeUnit(digits: string): (u: nat)
    requires TakenGlyph(Code(digits))
    ensures u < 0x10000
  {
    0x1000 * HexOf(digits[0]) + 0x100 * HexOf(digits[1]) + 0x10 * HexOf(digits[2]) + HexOf(digits[3])
  }

  /** Escapes stand for their characters, and two escapes for one if they are a surrogate pair. */
  function GlyphsMeaning(gs: seq<Glyph>): string
    requires TakenGlyphs(gs)
  {
    if gs == [] then ""
    else
      match gs[0]
      case Plain(c) => [c] + GlyphsMeaning(gs[1..])
      case Short(c) =>
        assert TakenGlyph(gs[0]);
        [Named(c) as char] + GlyphsMeaning(gs[1..])
      case Code(digits) =>
        var u := CodeUnit(digits);
        if 0xD800 <= u <= 0xDBFF && |gs| > 1 && gs[1].Code? then
          assert TakenGlyph(gs[1]);
          var low := CodeUnit(gs[1].digits);
          (if 0xDC00 <= low <= 0xDFFF then Octets(PairOf(u, low)) else Octets(u) + Octets(low)) + GlyphsMeaning(gs[2..])
        else Octets(u) + GlyphsMeaning(gs[1..])
  }

  function Meaning(tree: Tree, strtod: NumberReader): Json
    requires Taken(tree)
  {
    match tree
    case Word(value) => value
    case Numeral(token) => Number(match Stod(token, strtod) case Read(value, _) => value case Threw => 0.0)
    case Quoted(glyphs) => String(GlyphsMeaning(glyphs))
    case Hollow(list, _) => if list then Array([]) else Object([])
    case List(slots) => Array(SlotsMeaning(slots, strtod))
    case Record(fields) => Object(FieldsMeaning([], fields, strtod))
  }

  function SlotsMeaning(slots: seq<Slot>, strtod: NumberReader): seq<Json>
    requires TakenSlots(slots)
  {
    if slots == [] then [] else [Meaning(slots[0].tree, strtod)] + SlotsMeaning(slots[1..], strtod)
  }

  /** Repeated keys are replaced where they stand. */
  function FieldsMeaning(acc: seq<Member>, fields: seq<Field>, strtod: NumberReader): seq<Member>
    requires TakenFields(fields)
    decreases fields
  {
    if fields == [] then acc
    else
      FieldsMeaning(SetMember(acc, GlyphsMeaning(fields[0].key), Meaning(fields[0].slot.tree, strtod)), fields[1..],
                    strtod)
  }

  // ---- strings ----------------------------------------------------------

  lemma NamedIsUnescape(c: char)
    ensures Unescape(c) == if Named(c) >= 0 then [Named(c) as char] else []
    ensures Named(c) >= 0 ==> c != 'u'
  {
  }

  lemma HexIs(c: char)
    ensures HexValue(c) == if HexOf(c) >= 0 then HexOf(c) else 16
  {
  }

  lemma OctetsAre(cp: nat)
    requires cp < 0x200000
    ensures Octets(cp) == Utf8(cp)
  {
  }

  lemma PairIs(high: nat, low: nat)
    requires IsHigh(high) && IsLow(low)
    ensures PairOf(high, low) == Join(high, low)
  {
  }

  lemma HexReads(t: string, p: nat, digits: string)
    requires TakenGlyph(Code(digits)) && At(t, p, digits)
    ensures ParseHex4(t, p) == Ok(CodeUnit(digits), p + 4)
  {
    AtIndex(t, p, digits, 0);
    AtIndex(t, p, digits, 1);
    AtIndex(t, p, digits, 2);
    AtIndex(t, p, digits, 3);
    HexIs(digits[0]);
    HexIs(digits[1]);
    HexIs(digits[2]);
    HexIs(digits[3]);
    hide HexOf, HexValue;
    var a, b, c := HexValue(digits[0]), HexValue(digits[1]), HexValue(digits[2]);
    assert HexTail(t, p, 4, 0) == HexTail(t, p + 1, 3, a);
    assert HexTail(t, p + 1, 3, a) == HexTail(t, p + 2, 2, a * 16 + b);
    assert HexTail(t, p + 2, 2, a * 16 + b) == HexTail(t, p + 3, 1, (a * 16 + b) * 16 + c);
    assert HexTail(t, p + 3, 1, (a * 16 + b) * 16 + c) == HexTail(t, p + 4, 0, CodeUnit(digits));
  }

  /** A \u escape stands at `p` exactly if the next character is one. */
  predicate EscapeAt(t: string, p: nat) {
    p + 1 < |t| && t[p] == '\\' && t[p + 1] == 'u'
  }

  lemma EscapeAhead(t: string, p: nat, gs: seq<Glyph>)
    requires TakenGlyphs(gs) && At(t, p, GlyphsText(gs) + "\"")
    ensures EscapeAt(t, p) <==> gs != [] && gs[0].Code?
  {
    var w := GlyphsText(gs) + "\"";
    AtIndex(t, p, w, 0);
    if gs != [] {
      assert TakenGlyph(gs[0]);
      if !gs[0].Plain? {
        AtIndex(t, p, w, 1);
      }
    }
  }

  lemma FirstGlyph(t: string, p: nat, gs: seq<Glyph>)
    requires gs != [] && At(t, p, GlyphsText(gs) + "\"")
    ensures At(t, p, GlyphText(gs[0])) && At(t, p + |GlyphText(gs[0])|, GlyphsText(gs[1..]) + "\"")
    ensures |GlyphsText(gs)| == |GlyphText(gs[0])| + |GlyphsText(gs[1..])|
  {
    hide At, GlyphText;
    assert GlyphsText(gs) == GlyphText(gs[0]) + GlyphsText(gs[1..]);
    hide GlyphsText;
    Assoc(GlyphText(gs[0]), GlyphsText(gs[1..]), "\"");
    AtSplit(t, p, GlyphText(gs[0]), GlyphsText(gs[1..]) + "\"");
  }

  lemma CodeReads(t: string, p: nat, digits: string)
    requires TakenGlyph(Code(digits)) && At(t, p, GlyphText(Code(digits)))
    ensures EscapeAt(t, p) && p + 6 <= |t| && ParseHex4(t, p + 2) == Ok(CodeUnit(digits), p + 6)
  {
    AtSplit(t, p, "\\u", digits);
    AtIndex(t, p, "\\u", 0);
    AtIndex(t, p, "\\u", 1);
    HexReads(t, p + 2, digits);
  }

  /** What a glyph that is no \u escape stands for. */
  function PlainMeaning(g: Glyph): string
    requires TakenGlyph(g) && !g.Code?
  {
    if g.Plain? then [g.c] else [Named(g.c) as char]
  }

  lemma PlainReads(t: string, p: nat, g: Glyph, acc: string)
    requires TakenGlyph(g) && !g.Code? && At(t, p, GlyphText(g))
    ensures StringTail(t, p, acc) == StringTail(t, p + |GlyphText(g)|, acc + PlainMeaning(g))
  {
    AtIndex(t, p, GlyphText(g), 0);
    if g.Short? {
      AtIndex(t, p, GlyphText(g), 1);
      NamedIsUnescape(g.c);
    }
  }

  /** The parser takes a derived string to its quote, and to what it means. */
  lemma {:induction false} GlyphsReadBack(t: string, p: nat, gs: seq<Glyph>, acc: string)
    requires TakenGlyphs(gs) && At(t, p, GlyphsText(gs) + "\"")
    ensures StringTail(t, p, acc) == Ok(acc + GlyphsMeaning(gs), p + |GlyphsText(gs)| + 1)
    decreases |gs|
  {
    hide At, StringTail, Utf8, Octets, PairOf, Join, GlyphText, GlyphsText, CodeUnit, ParseHex4;
    if gs == [] {
      NoGlyphs();
      ClosingQuote(t, p, acc);
      assert acc + "" == acc;
    } else {
      FirstGlyph(t, p, gs);
      assert TakenGlyph(gs[0]);
      var q := p + |GlyphText(gs[0])|;
      if !gs[0].Code? {
        PlainReads(t, p, gs[0], acc);
        var s := PlainMeaning(gs[0]);
        GlyphsReadBack(t, q, gs[1..], acc + s);
        assert acc + s + GlyphsMeaning(gs[1..]) == acc + (s + GlyphsMeaning(gs[1..]));
      } else {
        CodesReadBack(t, p, gs, acc);
      }
    }
  }

  lemma NoGlyphs()
    ensures GlyphsText([]) == "" && "" + "\"" == "\""
  {
  }

  lemma CodeLength(digits: string)
    requires TakenGlyph(Code(digits))
    ensures |GlyphText(Code(digits))| == 6
  {
  }

  lemma {:induction false} CodesReadBack(t: string, p: nat, gs: seq<Glyph>, acc: string)
    requires TakenGlyphs(gs) && gs != [] && gs[0].Code? && At(t, p, GlyphsText(gs) + "\"")
    ensures StringTail(t, p, acc) == Ok(acc + GlyphsMeaning(gs), p + |GlyphsText(gs)| + 1)
    decreases |gs|, 0
  {
    hide At, StringTail, Utf8, Octets, PairOf, Join, GlyphText, GlyphsText, CodeUnit, ParseHex4;
    FirstGlyph(t, p, gs);
    assert TakenGlyph(gs[0]);
    CodeReads(t, p, gs[0].digits);
    CodeLength(gs[0].digits);
    EscapeAhead(t, p + 6, gs[1..]);
    var u := CodeUnit(gs[0].digits);
    OctetsAre(u);
    if IsHigh(u) && |gs| > 1 && gs[1].Code? {
      assert TakenGlyph(gs[1]) && gs[1..][0] == gs[1] && gs[1..][1..] == gs[2..];
      FirstGlyph(t, p + 6, gs[1..]);
      CodeReads(t, p + 6, gs[1].digits);
      CodeLength(gs[1].digits);
      var low := CodeUnit(gs[1].digits);
      OctetsAre(low);
      if IsLow(low) {
        PairIs(u, low);
        OctetsAre(Join(u, low));
      }
      var s := if IsLow(low) then Utf8(Join(u, low)) else Utf8(u) + Utf8(low);
      EscapeStep(t, p, acc, s, p + 12);
      GlyphsReadBack(t, p + 12, gs[2..], acc + s);
      assert acc + s + GlyphsMeaning(gs[2..]) == acc + (s + GlyphsMeaning(gs[2..]));
    } else {
      EscapeStep(t, p, acc, Utf8(u), p + 6);
      GlyphsReadBack(t, p + 6, gs[1..], acc + Utf8(u));
      assert acc + Utf8(u) + GlyphsMeaning(gs[1..]) == acc + (Utf8(u) + GlyphsMeaning(gs[1..]));
    }
  }

  lemma QuotedReadBack(t: string, p: nat, gs: seq<Glyph>)
    requires TakenGlyphs(gs) && At(t, p, "\"" + (GlyphsText(gs) + "\""))
    ensures p < |t| && t[p] == '"' && ParseString(t, p) == Ok(GlyphsMeaning(gs), p + |GlyphsText(gs)| + 2)
  {
    AtSplit(t, p, "\"", GlyphsText(gs) + "\"");
    AtIndex(t, p, "\"", 0);
    GlyphsReadBack(t, p + 1, gs, "");
    assert "" + GlyphsMeaning(gs) == GlyphsMeaning(gs);
  }

  // ---- values -----------------------------------------------------------

  /** The value is read to `end`, or refused. */
  ghost predicate Reads(r: Parsed<Json>, fits: bool, v: Json, end: nat) {
    if fits then r == Ok(v, end) else r.Err?
  }

  lemma {:induction false} GapSkips(t: string, p: nat, gap: string)
    requires IsGap(gap) && At(t, p, gap)
    requires p + |gap| == |t| || !IsSpace(t[p + |gap|])
    ensures Skip(t, p) == p + |gap|
  {
    forall k | p <= k < p + |gap| ensures IsSpace(t[k]) {
      AtIndex(t, p, gap, k - p);
    }
    if p + |gap| == |t| {
      SkipToEnd(t, p);
    } else {
      SkipSpaces(t, p, |gap|);
    }
  }

  lemma {:induction false} SkipToEnd(t: string, p: nat)
    requires p <= |t| && forall k :: p <= k < |t| ==> IsSpace(t[k])
    ensures Skip(t, p) == |t|
    decreases |t| - p
  {
    if p < |t| {
      SkipToEnd(t, p + 1);
    }
  }

  /** White space and then something else. */
  lemma GapAhead(t: string, p: nat, gap: string, rest: string)
    requires IsGap(gap) && At(t, p, gap + rest) && rest != "" && !IsSpace(rest[0])
    ensures var q := p + |gap|; Skip(t, p) == q < |t| && Skip(t, q) == q && t[q] == rest[0] && At(t, q, rest)
  {
    AtSplit(t, p, gap, rest);
    AtIndex(t, p + |gap|, rest, 0);
    GapSkips(t, p, gap);
  }

  lemma TreeStart(tree: Tree)
    requires Taken(tree)
    ensures TreeText(tree) != "" && var c := TreeText(tree)[0]; !IsSpace(c) && c != ']' && c != '}'
  {
    if tree.Numeral? {
      assert IsNumberChar(tree.token[0]);
    }
  }

  /** White space or punctuation ends a numeral. */
  lemma GapStops(t: string, p: nat, gap: string, rest: string)
    requires IsGap(gap) && At(t, p, gap + rest) && (rest != "" ==> rest[0] in ",]}:")
    requires (rest == "" ==> p + |gap| == |t|)
    ensures Stops(t, p)
  {
    if gap + rest != "" {
      AtIndex(t, p, gap + rest, 0);
    }
  }

  lemma NumeralRefused(t: string, p: nat, token: string, strtod: NumberReader)
    requires token != "" && At(t, p, token) && NumberEnd(t, p) == p + |token|
    requires Stod(token, strtod).Threw? || Stod(token, strtod).consumed != |token|
    ensures ParseNumber(t, p, strtod).Err?
  {
  }

  lemma NumeralReadBack(t: string, p: nat, d: nat, token: string, strtod: NumberReader)
    requires IsToken(token) && At(t, p, token) && Stops(t, p + |token|)
    ensures Reads(ParseInner(t, p, d, strtod), NumbersRead(Numeral(token), strtod), Meaning(Numeral(token), strtod),
                  p + |token|)
  {
    NumberTokenEnds(t, p, token);
    assert Skip(t, p) == p;
    InnerReadsToken(t, p, d, strtod);
    hide ParseInner, ParseNumber, Stod, NumberEnd;
    if NumbersRead(Numeral(token), strtod) {
      TokenReads(t, p, token, Stod(token, strtod).value, strtod);
    } else {
      NumeralRefused(t, p, token, strtod);
    }
  }

  lemma WordReadBack(t: string, p: nat, d: nat, value: Json, strtod: NumberReader)
    requires Taken(Word(value)) && At(t, p, WordText(value)) && p <= |t|
    ensures ParseInner(t, p, d, strtod) == Ok(value, p + |WordText(value)|)
  {
    AtIndex(t, p, WordText(value), 0);
    assert Skip(t, p) == p;
    LiteralReadBack(t, p, d, WordText(value), value, strtod);
  }

  lemma StringValueReadBack(t: string, p: nat, d: nat, gs: seq<Glyph>, strtod: NumberReader)
    requires TakenGlyphs(gs) && At(t, p, TreeText(Quoted(gs)))
    ensures ParseInner(t, p, d, strtod) == Ok(String(GlyphsMeaning(gs)), p + |TreeText(Quoted(gs))|)
  {
    QuotedReadBack(t, p, gs);
    assert Skip(t, p) == p;
    hide ParseInner, ParseString, GlyphsMeaning, GlyphsText;
    InnerReadsToken(t, p, d, strtod);
  }

  lemma HollowReadBack(t: string, p: nat, d: nat, list: bool, gap: string, strtod: NumberReader)
    requires IsGap(gap) && At(t, p, TreeText(Hollow(list, gap)))
    ensures ParseInner(t, p, d, strtod) == Ok(Meaning(Hollow(list, gap), strtod), p + |TreeText(Hollow(list, gap))|)
  {
    var open, close := if list then "[" else "{", if list then "]" else "}";
    HollowStands(t, p, gap, open, close);
    assert Skip(t, p) == p;
    hide Skip, At, IsGap;
  }

  lemma HollowStands(t: string, p: nat, gap: string, open: string, close: string)
    requires IsGap(gap) && At(t, p, open + (gap + close)) && |open| == |close| == 1 && !IsSpace(close[0])
    ensures p < |t| && t[p] == open[0] && Skip(t, p + 1) == p + 1 + |gap| < |t| && t[p + 1 + |gap|] == close[0]
  {
    hide Skip, At, IsGap;
    AtSplit(t, p, open, gap + close);
    AtIndex(t, p, open, 0);
    GapAhead(t, p + 1, gap, close);
  }

  /** The value is not too deep where it stands, and `std::stod` reads its numerals. */
  predicate Fits(tree: Tree, d: nat, strtod: NumberReader) {
    d + Height(tree) <= MAX_DEPTH && NumbersRead(tree, strtod)
  }

  predicate SlotsFit(slots: seq<Slot>, d: nat, strtod: NumberReader) {
    d + SlotsHeight(slots) <= MAX_DEPTH && SlotNumbersRead(slots, strtod)
  }

  predicate FieldsFit(fields: seq<Field>, d: nat, strtod: NumberReader) {
    d + FieldsHeight(fields) <= MAX_DEPTH && FieldNumbersRead(fields, strtod)
  }

  /** The heart of it: a derived value after white space, at any depth. */
  lemma {:induction false} TreeReadBack(tree: Tree, t: string, p: nat, d: nat, strtod: NumberReader)
    requires Taken(tree) && p <= |t| && At(t, Skip(t, p), TreeText(tree))
    requires tree.Numeral? ==> Stops(t, Skip(t, p) + |TreeText(tree)|)
    ensures Reads(ParseValue(t, p, d, strtod), Fits(tree, d, strtod), Meaning(tree, strtod),
                  Skip(t, p) + |TreeText(tree)|)
    decreases tree, 2
  {
    hide ParseValue, ParseInner, TreeText, Meaning, At, Stops, NumbersRead, Skip, SlotsText, FieldsText;
    if d + 1 > MAX_DEPTH {
      TooDeep(tree, t, p, d, strtod);
    } else {
      var q := Skip(t, p);
      ValueIsInner(t, p, d, strtod);
      SkipTwice(t, p);
      match tree
      case Word(value) => WordTree(t, q, d + 1, value, strtod);
      case Numeral(token) => NumeralTree(t, q, d + 1, token, strtod);
      case Quoted(gs) => QuotedTree(t, q, d + 1, gs, strtod);
      case Hollow(list, gap) => HollowTree(t, q, d + 1, list, gap, strtod);
      case List(slots) =>
        ListReadBack(slots, t, q, d + 1, strtod);
        ContainerFits(tree, d, strtod);
      case Record(fields) =>
        RecordReadBack(fields, t, q, d + 1, strtod);
        ContainerFits(tree, d, strtod);
    }
  }

  lemma ContainerFits(tree: Tree, d: nat, strtod: NumberReader)
    ensures tree.List? ==> (Fits(tree, d, strtod) <==> SlotsFit(tree.slots, d + 1, strtod))
    ensures tree.Record? ==> (Fits(tree, d, strtod) <==> FieldsFit(tree.fields, d + 1, strtod))
  {
  }

  lemma TooDeep(tree: Tree, t: string, p: nat, d: nat, strtod: NumberReader)
    requires p <= |t| && d + 1 > MAX_DEPTH
    ensures ParseValue(t, p, d, strtod).Err? && Height(tree) >= 1
  {
  }

  lemma WordTree(t: string, p: nat, d: nat, value: Json, strtod: NumberReader)
    requires Taken(Word(value)) && At(t, p, TreeText(Word(value))) && p <= |t|
    ensures NumbersRead(Word(value), strtod)
    ensures ParseInner(t, p, d, strtod) == Ok(Meaning(Word(value), strtod), p + |TreeText(Word(value))|)
  {
    WordReadBack(t, p, d, value, strtod);
  }

  lemma NumeralTree(t: string, p: nat, d: nat, token: string, strtod: NumberReader)
    requires IsToken(token) && At(t, p, TreeText(Numeral(token))) && Stops(t, p + |TreeText(Numeral(token))|)
    ensures Reads(ParseInner(t, p, d, strtod), NumbersRead(Numeral(token), strtod), Meaning(Numeral(token), strtod),
                  p + |TreeText(Numeral(token))|)
  {
    NumeralReadBack(t, p, d, token, strtod);
  }

  lemma QuotedTree(t: string, p: nat, d: nat, gs: seq<Glyph>, strtod: NumberReader)
    requires TakenGlyphs(gs) && At(t, p, TreeText(Quoted(gs)))
    ensures NumbersRead(Quoted(gs), strtod)
    ensures ParseInner(t, p, d, strtod) == Ok(Meaning(Quoted(gs), strtod), p + |TreeText(Quoted(gs))|)
  {
    StringValueReadBack(t, p, d, gs, strtod);
  }

  lemma HollowTree(t: string, p: nat, d: nat, list: bool, gap: string, strtod: NumberReader)
    requires IsGap(gap) && At(t, p, TreeText(Hollow(list, gap)))
    ensures NumbersRead(Hollow(list, gap), strtod)
    ensures ParseInner(t, p, d, strtod) == Ok(Meaning(Hollow(list, gap), strtod), p + |TreeText(Hollow(list, gap))|)
  {
    HollowReadBack(t, p, d, list, gap, strtod);
  }

  // ---- arrays -----------------------------------------------------------

  function SlotsRest(slots: seq<Slot>): (r: string)
    requires slots != []
    ensures r != "" && r[0] in ",]"
  {
    if |slots| == 1 then "]" else "," + SlotsText(slots[1..])
  }

  lemma {:induction false} ListReadBack(slots: seq<Slot>, t: string, p: nat, d: nat, strtod: NumberReader)
    requires Taken(List(slots)) && At(t, p, TreeText(List(slots))) && Skip(t, p) == p
    ensures Reads(ParseInner(t, p, d, strtod), SlotsFit(slots, d, strtod), Meaning(List(slots), strtod),
                  p + |TreeText(List(slots))|)
    decreases slots, 4
  {
    hide ParseInner, At, SlotsText, Skip, Onward, SlotsRest, Taken, SlotsMeaning, SlotsFit, Reads;
    OpenList(slots, t, p);
    var slot, rest := slots[0], SlotsRest(slots);
    OnwardStart(slot, rest);
    GapAhead(t, p + 1, slot.before, Onward(slot, rest));
    ArrayOpens(t, p, d, p + 1 + |slot.before|, strtod);
    SlotsReadBack(slots, t, p + 1 + |slot.before|, d, [], strtod);
    assert [] + SlotsMeaning(slots, strtod) == SlotsMeaning(slots, strtod);
  }

  lemma OpenList(slots: seq<Slot>, t: string, p: nat)
    requires Taken(List(slots)) && At(t, p, TreeText(List(slots)))
    ensures slots != [] && p < |t| && t[p] == '[' && TakenSlots(slots) && IsGap(slots[0].before) && Taken(slots[0].tree)
    ensures At(t, p + 1, slots[0].before + Onward(slots[0], SlotsRest(slots)))
    ensures |TreeText(List(slots))| == 1 + |slots[0].before| + |Onward(slots[0], SlotsRest(slots))|
  {
    AtSplit(t, p, "[", SlotsText(slots));
    AtIndex(t, p, "[", 0);
  }

  lemma OnwardStart(slot: Slot, rest: string)
    requires Taken(slot.tree)
    ensures var w := Onward(slot, rest); w != "" && !IsSpace(w[0]) && w[0] != ']' && w[0] != '}'
  {
    TreeStart(slot.tree);
  }

  /** A value in place, the white space after it, and the punctuation after that. */
  lemma OnwardSplits(slot: Slot, rest: string, t: string, q: nat)
    requires At(t, q, Onward(slot, rest)) && IsGap(slot.after) && rest != "" && rest[0] in ",]}"
    ensures At(t, q, TreeText(slot.tree)) && Stops(t, q + |TreeText(slot.tree)|)
    ensures var e := q + |TreeText(slot.tree)|;
      e <= |t| && Skip(t, e) == e + |slot.after| < |t| && t[e + |slot.after|] == rest[0]
      && At(t, e + |slot.after| + 1, rest[1..])
    ensures |Onward(slot, rest)| == |TreeText(slot.tree)| + |slot.after| + |rest|
  {
    hide TreeText, Skip, At, Stops;
    AtSplit(t, q, TreeText(slot.tree), slot.after + rest);
    var e := q + |TreeText(slot.tree)|;
    GapStops(t, e, slot.after, rest);
    GapAhead(t, e, slot.after, rest);
    assert rest == [rest[0]] + rest[1..];
    AtSplit(t, e + |slot.after|, [rest[0]], rest[1..]);
  }

  lemma {:induction false} SlotsReadBack(slots: seq<Slot>, t: string, p: nat, d: nat, acc: seq<Json>,
                                         strtod: NumberReader)
    requires slots != [] && TakenSlots(slots) && p <= |t| && At(t, Skip(t, p), Onward(slots[0], SlotsRest(slots)))
    ensures Reads(ArrayTail(t, p, d, acc, strtod), SlotsFit(slots, d, strtod),
                  Array(acc + SlotsMeaning(slots, strtod)), Skip(t, p) + |Onward(slots[0], SlotsRest(slots))|)
    decreases slots, 3
  {
    hide ParseValue, ArrayTail, At, Stops, TreeText, SlotsText, SlotsRest, Skip, Onward, Fits, SlotsFit, Reads,
         FollowsItem, SlotsMeaning, Meaning;
    var slot, rest, q := slots[0], SlotsRest(slots), Skip(t, p);
    OnwardSplits(slot, rest, t, q);
    TreeReadBack(slot.tree, t, p, d, strtod);
    ArrayStep(t, p, d, acc, strtod);
    SlotsGoOn(slots, ArrayTail(t, p, d, acc, strtod), ParseValue(t, p, d, strtod), t, q + |TreeText(slot.tree)|, d, acc,
              strtod);
  }

  lemma SlotsFitParts(slots: seq<Slot>, d: nat, strtod: NumberReader)
    requires slots != []
    ensures SlotsFit(slots, d, strtod)
      <==> Fits(slots[0].tree, d, strtod) && (|slots| > 1 ==> SlotsFit(slots[1..], d, strtod))
  {
    assert SlotsHeight(slots) == Max(Height(slots[0].tree), SlotsHeight(slots[1..]));
    assert SlotNumbersRead(slots, strtod)
      <==> NumbersRead(slots[0].tree, strtod) && SlotNumbersRead(slots[1..], strtod);
    if |slots| == 1 {
      assert slots[1..] == [];
      assert SlotsHeight(slots[1..]) == 0 && SlotNumbersRead(slots[1..], strtod);
    }
    hide SlotsHeight, SlotNumbersRead, Height, NumbersRead;
  }

  lemma NoSlots(slots: seq<Slot>, strtod: NumberReader)
    requires |slots| == 0
    ensures TakenSlots(slots) && SlotsMeaning(slots, strtod) == []
  {
  }

  lemma SlotsMeaningParts(slots: seq<Slot>, acc: seq<Json>, strtod: NumberReader)
    requires slots != [] && TakenSlots(slots)
    ensures TakenSlots(slots[1..])
    ensures var v := Meaning(slots[0].tree, strtod);
      acc + SlotsMeaning(slots, strtod)
      == (if |slots| == 1 then acc + [v] else acc + [v] + SlotsMeaning(slots[1..], strtod))
  {
    var v := Meaning(slots[0].tree, strtod);
    MeaningParts(slots, strtod);
    hide Meaning, SlotsMeaning;
    if |slots| > 1 {
      AccJoin(acc, v, SlotsMeaning(slots[1..], strtod));
    }
  }

  lemma MeaningParts(slots: seq<Slot>, strtod: NumberReader)
    requires slots != [] && TakenSlots(slots)
    ensures TakenSlots(slots[1..])
    ensures SlotsMeaning(slots, strtod)
      == (if |slots| == 1 then [Meaning(slots[0].tree, strtod)]
          else [Meaning(slots[0].tree, strtod)] + SlotsMeaning(slots[1..], strtod))
  {
    hide Meaning;
    if |slots| == 1 {
      NoSlots(slots[1..], strtod);
    }
  }

  lemma AccJoin(acc: seq<Json>, v: Json, more: seq<Json>)
    ensures acc + ([v] + more) == acc + [v] + more
  {
  }

  /** The value has been read up to `e`, unless it was refused; then comes the bracket or the next value. */
  lemma {:induction false} SlotsGoOn(slots: seq<Slot>, whole: Parsed<Json>, value: Parsed<Json>, t: string, e: nat,
                                     d: nat,
                                     acc: seq<Json>, strtod: NumberReader)
    requires slots != [] && TakenSlots(slots)
    requires Reads(value, Fits(slots[0].tree, d, strtod), Meaning(slots[0].tree, strtod), e)
    requires FollowsItem(whole, value, t, d, acc, strtod)
    requires var q := e + |slots[0].after|;
      e <= |t| && Skip(t, e) == q < |t| && t[q] == SlotsRest(slots)[0] && At(t, q + 1, SlotsRest(slots)[1..])
    ensures Reads(whole, SlotsFit(slots, d, strtod), Array(acc + SlotsMeaning(slots, strtod)),
                  e + |slots[0].after| + |SlotsRest(slots)|)
    decreases slots, 2
  {
    hide ArrayTail, At, SlotsText, Skip, Onward, Fits, SlotsFit, SlotsMeaning, Meaning, Taken;
    SlotsFitParts(slots, d, strtod);
    SlotsMeaningParts(slots, acc, strtod);
    if |slots| > 1 {
      var p := e + |slots[0].after| + 1;
      NextSlot(slots, t, p);
      SlotsReadBack(slots[1..], t, p, d, acc + [Meaning(slots[0].tree, strtod)], strtod);
    }
  }

  lemma NextSlot(slots: seq<Slot>, t: string, p: nat)
    requires |slots| > 1 && TakenSlots(slots) && At(t, p, SlotsRest(slots)[1..])
    ensures var more := slots[1..];
      var q := p + |more[0].before|;
      TakenSlots(more) && p <= |t| && Skip(t, p) == q && At(t, q, Onward(more[0], SlotsRest(more)))
      && |SlotsRest(slots)| == 1 + |more[0].before| + |Onward(more[0], SlotsRest(more))|
  {
    hide Onward;
    var more := slots[1..];
    assert SlotsRest(slots)[1..] == SlotsText(more);
    OnwardStart(more[0], SlotsRest(more));
    GapAhead(t, p, more[0].before, Onward(more[0], SlotsRest(more)));
  }

  // ---- objects ----------------------------------------------------------

  function FieldsRest(fields: seq<Field>): (r: string)
    requires fields != []
    ensures r != "" && r[0] in ",}"
  {
    if |fields| == 1 then "}" else "," + FieldsText(fields[1..])
  }

  /** From the key on. */
  function FieldOnward(fields: seq<Field>): string
    requires fields != []
  {
    KeyText(fields[0], fields[0].slot.before + Onward(fields[0].slot, FieldsRest(fields)))
  }

  lemma {:induction false} RecordReadBack(fields: seq<Field>, t: string, p: nat, d: nat, strtod: NumberReader)
    requires Taken(Record(fields)) && At(t, p, TreeText(Record(fields))) && Skip(t, p) == p
    ensures Reads(ParseInner(t, p, d, strtod), FieldsFit(fields, d, strtod), Meaning(Record(fields), strtod),
                  p + |TreeText(Record(fields))|)
    decreases fields, 4
  {
    hide ParseInner, At, FieldsText, Skip, FieldOnward, Taken, FieldsMeaning, FieldsFit, Reads, ObjectTail;
    OpenRecord(fields, t, p);
    GapAhead(t, p + 1, fields[0].before, FieldOnward(fields));
    ObjectOpens(t, p, d, p + 1 + |fields[0].before|, strtod);
    FieldsReadBack(fields, t, p + 1 + |fields[0].before|, d, [], strtod);
  }

  lemma OpenRecord(fields: seq<Field>, t: string, p: nat)
    requires Taken(Record(fields)) && At(t, p, TreeText(Record(fields)))
    ensures fields != [] && p < |t| && t[p] == '{' && TakenFields(fields) && IsGap(fields[0].before)
    ensures At(t, p + 1, fields[0].before + FieldOnward(fields))
    ensures FieldOnward(fields) != "" && FieldOnward(fields)[0] == '"'
    ensures |TreeText(Record(fields))| == 1 + |fields[0].before| + |FieldOnward(fields)|
  {
    FirstField(fields);
    hide FieldOnward, FieldsText, At;
    AtSplit(t, p, "{", FieldsText(fields));
    AtIndex(t, p, "{", 0);
  }

  /** A key, the colon, and the white space on both sides of it. */
  lemma KeyTaken(f: Field, after: string, t: string, p: nat) returns (k: nat)
    requires TakenGlyphs(f.key) && IsGap(f.mid) && IsGap(f.slot.before) && after != "" && !IsSpace(after[0])
    requires p <= |t| && At(t, Skip(t, p), KeyText(f, f.slot.before + after))
    ensures k <= |t| && ParseKey(t, p) == Ok(GlyphsMeaning(f.key), k)
    ensures Skip(t, k) == k + |f.slot.before| && At(t, k + |f.slot.before|, after)
    ensures k + |f.slot.before| + |after| == Skip(t, p) + |KeyText(f, f.slot.before + after)|
  {
    hide ParseString, GlyphsMeaning, GlyphsText, Skip, At;
    var q, body := Skip(t, p), f.slot.before + after;
    AtSplit(t, q, "\"" + (GlyphsText(f.key) + "\""), f.mid + (":" + body));
    QuotedReadBack(t, q, f.key);
    var end := q + |GlyphsText(f.key)| + 2;
    GapAhead(t, end, f.mid, ":" + body);
    AtSplit(t, end + |f.mid|, ":", body);
    k := end + |f.mid| + 1;
    GapAhead(t, k, f.slot.before, after);
  }

  lemma {:induction false} FieldsReadBack(fields: seq<Field>, t: string, p: nat, d: nat, acc: seq<Member>,
                                          strtod: NumberReader)
    requires fields != [] && TakenFields(fields) && p <= |t| && At(t, Skip(t, p), FieldOnward(fields))
    ensures Reads(ObjectTail(t, p, d, acc, strtod), FieldsFit(fields, d, strtod),
                  Object(FieldsMeaning(acc, fields, strtod)), Skip(t, p) + |FieldOnward(fields)|)
    decreases fields, 3
  {
    hide ParseValue, ObjectTail, ParseKey, At, Stops, TreeText, FieldsText, FieldsRest, Skip, Onward, KeyText, Fits,
         FieldsFit, Reads, FollowsValue, FieldsMeaning, Meaning, GlyphsMeaning;
    var f, rest := fields[0], FieldsRest(fields);
    var slot := f.slot;
    OnwardStart(slot, rest);
    var k := KeyTaken(f, Onward(slot, rest), t, p);
    var q := k + |slot.before|;
    OnwardSplits(slot, rest, t, q);
    TreeReadBack(slot.tree, t, k, d, strtod);
    KeyThenValue(t, p, d, acc, GlyphsMeaning(f.key), k, strtod);
    FieldsGoOn(fields, ObjectTail(t, p, d, acc, strtod), ParseValue(t, k, d, strtod), t, q + |TreeText(slot.tree)|, d,
               acc, strtod);
  }

  lemma FieldsFitParts(fields: seq<Field>, d: nat, strtod: NumberReader)
    requires fields != []
    ensures FieldsFit(fields, d, strtod)
      <==> Fits(fields[0].slot.tree, d, strtod) && (|fields| > 1 ==> FieldsFit(fields[1..], d, strtod))
  {
    assert FieldsHeight(fields) == Max(Height(fields[0].slot.tree), FieldsHeight(fields[1..]));
    assert FieldNumbersRead(fields, strtod)
      <==> NumbersRead(fields[0].slot.tree, strtod) && FieldNumbersRead(fields[1..], strtod);
    if |fields| == 1 {
      assert fields[1..] == [];
      assert FieldsHeight(fields[1..]) == 0 && FieldNumbersRead(fields[1..], strtod);
    }
    hide FieldsHeight, FieldNumbersRead, Height, NumbersRead;
  }

  lemma FieldsMeaningParts(fields: seq<Field>, acc: seq<Member>, strtod: NumberReader)
    requires fields != [] && TakenFields(fields)
    ensures var acc' := SetMember(acc, GlyphsMeaning(fields[0].key), Meaning(fields[0].slot.tree, strtod));
      FieldsMeaning(acc, fields, strtod)
      == (if |fields| == 1 then acc' else FieldsMeaning(acc', fields[1..], strtod))
  {
    hide Meaning, Taken, GlyphsMeaning, SetMember;
    assert |fields| == 1 ==> fields[1..] == [];
  }

  /** The value has been read up to `e`, unless it was refused; then comes the bracket or the next member. */
  lemma {:induction false} FieldsGoOn(fields: seq<Field>, whole: Parsed<Json>, value: Parsed<Json>, t: string, e: nat,
                                      d: nat, acc: seq<Member>, strtod: NumberReader)
    requires fields != [] && TakenFields(fields)
    requires Reads(value, Fits(fields[0].slot.tree, d, strtod), Meaning(fields[0].slot.tree, strtod), e)
    requires FollowsValue(whole, value, t, d, acc, GlyphsMeaning(fields[0].key), strtod)
    requires var q := e + |fields[0].slot.after|;
      e <= |t| && Skip(t, e) == q < |t| && t[q] == FieldsRest(fields)[0] && At(t, q + 1, FieldsRest(fields)[1..])
    ensures Reads(whole, FieldsFit(fields, d, strtod), Object(FieldsMeaning(acc, fields, strtod)),
                  e + |fields[0].slot.after| + |FieldsRest(fields)|)
    decreases fields, 2
  {
    hide ObjectTail, At, FieldsText, Skip, FieldOnward, Fits, FieldsFit, FieldsMeaning, Meaning, GlyphsMeaning,
         SetMember, Taken;
    FieldsFitParts(fields, d, strtod);
    FieldsMeaningParts(fields, acc, strtod);
    if |fields| > 1 {
      var p := e + |fields[0].slot.after| + 1;
      NextField(fields, t, p);
      FieldsReadBack(fields[1..], t, p, d,
                     SetMember(acc, GlyphsMeaning(fields[0].key), Meaning(fields[0].slot.tree, strtod)), strtod);
    }
  }

  lemma NextField(fields: seq<Field>, t: string, p: nat)
    requires |fields| > 1 && TakenFields(fields) && At(t, p, FieldsRest(fields)[1..])
    ensures var more := fields[1..];
      var q := p + |more[0].before|;
      TakenFields(more) && p <= |t| && Skip(t, p) == q && At(t, q, FieldOnward(more))
      && |FieldsRest(fields)| == 1 + |more[0].before| + |FieldOnward(more)|
  {
    hide At, Skip, Taken, FieldOnward, FieldsText;
    var more := fields[1..];
    CommaRest(fields);
    FirstField(more);
    FirstGap(more);
    hide FieldsRest, TakenFields;
    GapAhead(t, p, more[0].before, FieldOnward(more));
  }

  lemma CommaRest(fields: seq<Field>)
    requires |fields| > 1
    ensures FieldsRest(fields)[1..] == FieldsText(fields[1..])
    ensures |FieldsRest(fields)| == 1 + |FieldsText(fields[1..])|
  {
    hide FieldsText;
    assert FieldsRest(fields) == "," + FieldsText(fields[1..]);
  }

  lemma FirstGap(fields: seq<Field>)
    requires fields != [] && TakenFields(fields)
    ensures IsGap(fields[0].before)
  {
  }

  lemma FirstField(fields: seq<Field>)
    requires fields != []
    ensures FieldsText(fields) == fields[0].before + FieldOnward(fields)
    ensures FieldOnward(fields) != "" && FieldOnward(fields)[0] == '"'
  {
    hide Onward, GlyphsText;
  }

  // ---- whole texts ------------------------------------------------------

  /** A value with white space around it. */
  function DocumentText(doc: Slot): string {
    doc.before + Onward(doc, "")
  }

  predicate TakenDocument(doc: Slot) {
    IsGap(doc.before) && IsGap(doc.after) && Taken(doc.tree)
  }

  /** Every text that the grammar derives is parsed to what it means, with no error, exactly if it is at most 64 levels
      deep and `std::stod` reads its numerals; otherwise to null with an error. */
  lemma DerivedTextParses(doc: Slot, strtod: NumberReader)
    requires TakenDocument(doc)
    ensures var (v, error) := Parse(DocumentText(doc), strtod);
      if Height(doc.tree) <= 64 && NumbersRead(doc.tree, strtod) then v == Meaning(doc.tree, strtod)
      && error == ""
      else v == Null && error != ""
  {
    hide ParseValue, TreeText, Meaning, NumbersRead, Height, At, Skip, Stops, Onward;
    var t := DocumentText(doc);
    WholeAt(t);
    OnwardStart(doc, "");
    GapAhead(t, 0, doc.before, Onward(doc, ""));
    DocumentEnds(t, |doc.before|, doc);
    TreeReadBack(doc.tree, t, 0, 0, strtod);
  }

  lemma WholeAt(t: string)
    ensures At(t, 0, t)
  {
    assert t[0..|t|] == t;
  }

  lemma DocumentEnds(t: string, q: nat, doc: Slot)
    requires TakenDocument(doc) && At(t, q, Onward(doc, "")) && q + |Onward(doc, "")| == |t|
    ensures At(t, q, TreeText(doc.tree)) && Stops(t, q + |TreeText(doc.tree)|)
    ensures q + |TreeText(doc.tree)| <= |t| && Skip(t, q + |TreeText(doc.tree)|) == |t|
  {
    hide TreeText, Taken, Skip;
    AtSplit(t, q, TreeText(doc.tree), doc.after + "");
    var e := q + |TreeText(doc.tree)|;
    GapStops(t, e, doc.after, "");
    assert doc.after + "" == doc.after;
    GapSkips(t, e, doc.after);
  }
}
