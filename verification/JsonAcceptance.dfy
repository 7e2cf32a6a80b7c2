/** The parser takes just the texts that the grammar derives. */
module JsonAcceptance {
  import opened Text
  import opened JsonValue
  import opened JsonPrinter
  import opened JsonParser
  import opened JsonRoundTrip
  import opened JsonTheorems
  import opened JsonGrammar

  lemma AtJoin(t: string, p: nat, a: string, b: string)
    requires At(t, p, a) && At(t, p + |a|, b)
    ensures At(t, p, a + b)
  {
    assert t[p..p + |a + b|] == t[p..p + |a|] + t[p + |a|..p + |a| + |b|];
  }

  lemma OneAt(t: string, p: nat)
    requires p < |t|
    ensures At(t, p, [t[p]])
  {
  }

  /** What is skipped is white space. */
  lemma {:induction false} SkippedGap(t: string, p: nat) returns (gap: string)
    requires p <= |t|
    ensures IsGap(gap) && At(t, p, gap) && Skip(t, p) == p + |gap|
    decreases |t| - p
  {
    if p < |t| && IsSpace(t[p]) {
      var more := SkippedGap(t, p + 1);
      gap := [t[p]] + more;
      AtJoin(t, p, [t[p]], more);
    } else {
      gap := "";
      assert t[p..p] == "";
    }
  }

  // ---- strings ----------------------------------------------------------

  lemma HexDigits(t: string, p: nat)
    requires p <= |t| && ParseHex4(t, p).Ok?
    ensures p + 4 <= |t| && TakenGlyph(Code(t[p..p + 4]))
  {
    HexDigitsTail(t, p, 4, 0);
  }

  lemma {:induction false} HexDigitsTail(t: string, p: nat, count: nat, acc: nat)
    requires p + count <= |t| && count <= 4 && acc < HexLimit(count) && HexTail(t, p, count, acc).Ok?
    ensures forall k :: p <= k < p + count ==> HexValue(t[k]) < 16
    decreases count
  {
    if count > 0 {
      HexStep(t, p, count, acc);
      HexDigitsTail(t, p + 1, count - 1, acc * 16 + HexValue(t[p]));
    }
  }

  lemma CodeAt(t: string, p: nat) returns (g: Glyph)
    requires EscapeAt(t, p) && ParseHex4(t, p + 2).Ok?
    ensures p + 6 <= |t| && g.Code? && TakenGlyph(g) && At(t, p, GlyphText(g)) && |GlyphText(g)| == 6
    ensures ParseHex4(t, p + 2) == Ok(CodeUnit(g.digits), p + 6)
  {
    HexDigits(t, p + 2);
    g := Code(t[p + 2..p + 6]);
    assert t[p..p + 6] == "\\u" + g.digits;
    HexReads(t, p + 2, g.digits);
  }

  lemma MoreGlyphs(t: string, p: nat, g: Glyph, gs: seq<Glyph>)
    requires TakenGlyph(g) && TakenGlyphs(gs) && At(t, p, GlyphText(g))
    requires At(t, p + |GlyphText(g)|, GlyphsText(gs) + "\"")
    ensures TakenGlyphs([g] + gs) && At(t, p, GlyphsText([g] + gs) + "\"")
  {
    hide TakenGlyph;
    AtJoin(t, p, GlyphText(g), GlyphsText(gs) + "\"");
    assert ([g] + gs)[1..] == gs;
    assert GlyphsText([g] + gs) + "\"" == GlyphText(g) + (GlyphsText(gs) + "\"");
  }

  /** A string that is taken to its quote is a derived one. */
  lemma {:induction false} StringDerived(t: string, p: nat, acc: string) returns (gs: seq<Glyph>)
    requires p <= |t| && StringTail(t, p, acc).Ok?
    ensures TakenGlyphs(gs) && At(t, p, GlyphsText(gs) + "\"")
    decreases |t| - p
  {
    hide At, GlyphText, GlyphsText, Utf8, ParseHex4;
    if t[p] == '"' {
      gs := [];
      NoGlyphs();
      OneAt(t, p);
    } else if t[p] != '\\' {
      gs := StringDerived(t, p + 1, acc + [t[p]]);
      PlainAt(t, p);
      MoreGlyphs(t, p, Plain(t[p]), gs);
      gs := [Plain(t[p])] + gs;
    } else if t[p + 1] != 'u' {
      gs := StringDerived(t, p + 2, acc + Unescape(t[p + 1]));
      ShortAt(t, p);
      MoreGlyphs(t, p, Short(t[p + 1]), gs);
      gs := [Short(t[p + 1])] + gs;
    } else {
      gs := EscapeDerived(t, p, acc);
    }
  }

  lemma PlainAt(t: string, p: nat)
    requires p < |t|
    ensures At(t, p, GlyphText(Plain(t[p]))) && |GlyphText(Plain(t[p]))| == 1
  {
  }

  lemma ShortAt(t: string, p: nat)
    requires p + 1 < |t| && t[p] == '\\'
    ensures At(t, p, GlyphText(Short(t[p + 1]))) && |GlyphText(Short(t[p + 1]))| == 2
  {
    assert t[p..p + 2] == ['\\', t[p + 1]];
  }

  lemma {:induction false} EscapeDerived(t: string, p: nat, acc: string) returns (gs: seq<Glyph>)
    requires p <= |t| && StringTail(t, p, acc).Ok? && EscapeAt(t, p)
    ensures TakenGlyphs(gs) && At(t, p, GlyphsText(gs) + "\"")
    decreases |t| - p, 0
  {
    hide At, GlyphText, GlyphsText, Utf8, ParseHex4;
    assert ParseUnicode(t, p + 2).Ok?;
    var (s, q) := (ParseUnicode(t, p + 2).value, ParseUnicode(t, p + 2).pos);
    assert ParseHex4(t, p + 2).Ok?;
    var g := CodeAt(t, p);
    gs := StringDerived(t, q, acc + s);
    if IsHigh(CodeUnit(g.digits)) && EscapeAt(t, p + 6) {
      var low := CodeAt(t, p + 6);
      MoreGlyphs(t, p + 6, low, gs);
      gs := [low] + gs;
    }
    MoreGlyphs(t, p, g, gs);
    gs := [g] + gs;
  }

  lemma QuotedDerived(t: string, p: nat) returns (gs: seq<Glyph>)
    requires p <= |t| && ParseString(t, p).Ok?
    ensures TakenGlyphs(gs) && At(t, p, "\"" + (GlyphsText(gs) + "\""))
  {
    gs := StringDerived(t, p + 1, "");
    OneAt(t, p);
    AtJoin(t, p, "\"", GlyphsText(gs) + "\"");
  }

  // ---- values -----------------------------------------------------------

  lemma {:induction false} NumberEndScans(t: string, p: nat)
    requires p <= |t|
    ensures Stops(t, NumberEnd(t, p)) && forall k :: p <= k < NumberEnd(t, p) ==> IsNumberChar(t[k])
    decreases |t| - p
  {
    if p < |t| && IsNumberChar(t[p]) {
      NumberEndScans(t, p + 1);
    }
  }

  /** The text of the tree stands after the white space, and a numeral ends there. */
  ghost predicate Stands(tree: Tree, t: string, q: nat) {
    Taken(tree) && At(t, q, TreeText(tree)) && (tree.Numeral? ==> Stops(t, q + |TreeText(tree)|))
  }

  lemma ScalarDerived(t: string, q: nat, d: nat, strtod: NumberReader) returns (tree: Tree)
    requires q < |t| && Skip(t, q) == q && t[q] != '[' && t[q] != '{' && ParseInner(t, q, d, strtod).Ok?
    ensures Stands(tree, t, q)
  {
    if t[q] == 'n' {
      tree := Word(Null);
    } else if t[q] == 't' {
      tree := Word(Bool(true));
    } else if t[q] == 'f' {
      tree := Word(Bool(false));
    } else if t[q] == '"' {
      var gs := QuotedDerived(t, q);
      tree := Quoted(gs);
    } else {
      var end := NumberEnd(t, q);
      NumberEndScans(t, q);
      tree := Numeral(t[q..end]);
    }
  }

  /** A value that is taken is a derived one. */
  lemma {:induction false} ValueDerived(t: string, p: nat, d: nat, strtod: NumberReader) returns (tree: Tree)
    requires p <= |t| && ParseValue(t, p, d, strtod).Ok?
    ensures Stands(tree, t, Skip(t, p))
    decreases |t| - p, 2
  {
    hide ParseInner, Stands;
    var q := Skip(t, p);
    ValueIsInner(t, p, d, strtod);
    SkipTwice(t, p);
    InnerStarts(t, q, d + 1, strtod);
    if t[q] == '[' {
      tree := ListDerived(t, q, d + 1, strtod);
    } else if t[q] == '{' {
      tree := RecordDerived(t, q, d + 1, strtod);
    } else {
      tree := ScalarDerived(t, q, d + 1, strtod);
    }
  }

  lemma InnerStarts(t: string, q: nat, d: nat, strtod: NumberReader)
    requires q <= |t| && Skip(t, q) == q && ParseInner(t, q, d, strtod).Ok?
    ensures q < |t|
  {
  }

  lemma OpensAt(t: string, p: nat, d: nat, strtod: NumberReader)
    requires p < |t| && Skip(t, p) == p
    ensures t[p] == '[' ==> ParseInner(t, p, d, strtod) == ParseArray(t, p, d, strtod)
    ensures t[p] == '{' ==> ParseInner(t, p, d, strtod) == ParseObject(t, p, d, strtod)
  {
  }

  lemma HollowDerived(t: string, p: nat, list: bool) returns (tree: Tree)
    requires p < |t| && t[p] == (if list then '[' else '{') && Skip(t, p + 1) < |t|
    requires t[Skip(t, p + 1)] == if list then ']' else '}'
    ensures Stands(tree, t, p)
  {
    var gap := SkippedGap(t, p + 1);
    var open, close := if list then "[" else "{", if list then "]" else "}";
    OneAt(t, p + 1 + |gap|);
    AtJoin(t, p + 1, gap, close);
    OneAt(t, p);
    AtJoin(t, p, open, gap + close);
    tree := Hollow(list, gap);
  }

  lemma {:induction false} ListDerived(t: string, p: nat, d: nat, strtod: NumberReader) returns (tree: Tree)
    requires p < |t| && t[p] == '[' && Skip(t, p) == p && ParseInner(t, p, d, strtod).Ok?
    ensures Stands(tree, t, p)
    decreases |t| - p, 1
  {
    OpensAt(t, p, d, strtod);
    hide ParseInner, ArrayTail, SlotsText, At, Stands;
    var q := Skip(t, p + 1);
    if q < |t| && t[q] == ']' {
      tree := HollowDerived(t, p, true);
    } else {
      SkipTwice(t, p + 1);
      ArraySkips(t, p + 1, d, strtod);
      var slots := SlotsDerived(t, p + 1, d, [], strtod);
      tree := List(slots);
      ListStands(t, p, slots);
    }
  }

  lemma ListStands(t: string, p: nat, slots: seq<Slot>)
    requires p < |t| && t[p] == '[' && slots != [] && TakenSlots(slots) && At(t, p + 1, SlotsText(slots))
    ensures Stands(List(slots), t, p)
  {
    hide SlotsText, TakenSlots, At;
    OneAt(t, p);
    AtJoin(t, p, "[", SlotsText(slots));
  }

  lemma RecordStands(t: string, p: nat, fields: seq<Field>)
    requires p < |t| && t[p] == '{' && fields != [] && TakenFields(fields) && At(t, p + 1, FieldsText(fields))
    ensures Stands(Record(fields), t, p)
  {
    hide FieldsText, TakenFields, At;
    OneAt(t, p);
    AtJoin(t, p, "{", FieldsText(fields));
  }

  lemma ArraySkips(t: string, p: nat, d: nat, strtod: NumberReader)
    requires p <= |t| && ArrayTail(t, Skip(t, p), d, [], strtod).Ok?
    ensures ArrayTail(t, p, d, [], strtod) == ArrayTail(t, Skip(t, p), d, [], strtod)
  {
    SkipTwice(t, p);
    ValueIsInner(t, p, d, strtod);
    ValueIsInner(t, Skip(t, p), d, strtod);
  }

  /** The punctuation after a value, and what follows it. */
  lemma OnwardDerived(t: string, p: nat, d: nat, tree: Tree, rest: string, strtod: NumberReader) returns (slot: Slot)
    requires p <= |t| && ParseValue(t, p, d, strtod).Ok? && Stands(tree, t, Skip(t, p))
    requires At(t, Skip(t, ParseValue(t, p, d, strtod).pos), rest)
    ensures slot.tree == tree && IsGap(slot.before) && IsGap(slot.after)
    ensures At(t, p, slot.before + Onward(slot, rest))
    ensures p + |slot.before + Onward(slot, rest)| == Skip(t, ParseValue(t, p, d, strtod).pos) + |rest|
  {
    hide TreeText, Meaning, ParseValue, At, Skip;
    TreeReadBack(tree, t, p, d, strtod);
    var before := SkippedGap(t, p);
    var q := p + |before|;
    var e := q + |TreeText(tree)|;
    EndInside(t, q, TreeText(tree));
    var after := SkippedGap(t, e);
    slot := Slot(before, tree, after);
    AtJoin(t, e, after, rest);
    AtJoin(t, q, TreeText(tree), after + rest);
    AtJoin(t, p, before, Onward(slot, rest));
  }

  lemma EndInside(t: string, p: nat, w: string)
    requires At(t, p, w)
    ensures p + |w| <= |t|
  {
  }

  lemma {:induction false} SlotsDerived(t: string, p: nat, d: nat, acc: seq<Json>, strtod: NumberReader)
    returns (slots: seq<Slot>)
    requires p <= |t| && ArrayTail(t, p, d, acc, strtod).Ok?
    ensures slots != [] && TakenSlots(slots) && At(t, p, SlotsText(slots))
    decreases |t| - p, 3
  {
    hide At, ParseValue, TreeText, Onward, Skip;
    ArrayStep(t, p, d, acc, strtod);
    var value := ParseValue(t, p, d, strtod);
    assert value.Ok?;
    var tree := ValueDerived(t, p, d, strtod);
    var q := Skip(t, value.pos);
    if t[q] == ',' {
      slots := SlotsDerived(t, q + 1, d, acc + [value.value], strtod);
      OneAt(t, q);
      AtJoin(t, q, ",", SlotsText(slots));
      var slot := OnwardDerived(t, p, d, tree, "," + SlotsText(slots), strtod);
      assert ([slot] + slots)[1..] == slots;
      slots := [slot] + slots;
    } else {
      OneAt(t, q);
      var slot := OnwardDerived(t, p, d, tree, "]", strtod);
      slots := [slot];
    }
  }

  lemma {:induction false} RecordDerived(t: string, p: nat, d: nat, strtod: NumberReader) returns (tree: Tree)
    requires p < |t| && t[p] == '{' && Skip(t, p) == p && ParseInner(t, p, d, strtod).Ok?
    ensures Stands(tree, t, p)
    decreases |t| - p, 1
  {
    OpensAt(t, p, d, strtod);
    hide ParseInner, ObjectTail, FieldsText, At, Stands, TakenFields;
    var q := Skip(t, p + 1);
    if q < |t| && t[q] == '}' {
      tree := HollowDerived(t, p, false);
    } else {
      SkipTwice(t, p + 1);
      ObjectSkips(t, p + 1, d, strtod);
      var fields := FieldsDerived(t, p + 1, d, [], strtod);
      tree := Record(fields);
      RecordStands(t, p, fields);
    }
  }

  lemma ObjectSkips(t: string, p: nat, d: nat, strtod: NumberReader)
    requires p <= |t|
    ensures ObjectTail(t, p, d, [], strtod) == ObjectTail(t, Skip(t, p), d, [], strtod)
  {
    SkipTwice(t, p);
    assert ParseKey(t, p) == ParseKey(t, Skip(t, p));
    assert ParseMember(t, p, d, strtod) == ParseMember(t, Skip(t, p), d, strtod);
  }

  lemma KeyDerived(t: string, p: nat, body: string) returns (f: Field)
    requires p <= |t| && ParseKey(t, p).Ok? && At(t, ParseKey(t, p).pos, body)
    ensures TakenGlyphs(f.key) && IsGap(f.before) && IsGap(f.mid)
    ensures At(t, p, f.before + KeyText(f, body))
  {
    hide At, GlyphsText, StringTail, GlyphsMeaning;
    var before := SkippedGap(t, p);
    var q := p + |before|;
    var gs := QuotedDerived(t, q);
    QuotedReadBack(t, q, gs);
    var end := q + |GlyphsText(gs)| + 2;
    var mid := SkippedGap(t, end);
    f := Field(before, gs, mid, Slot("", Word(Null), ""));
    OneAt(t, end + |mid|);
    AtJoin(t, end + |mid|, ":", body);
    AtJoin(t, end, mid, ":" + body);
    AtJoin(t, q, "\"" + (GlyphsText(gs) + "\""), mid + (":" + body));
    AtJoin(t, p, before, KeyText(f, body));
  }

  lemma {:induction false} FieldsDerived(t: string, p: nat, d: nat, acc: seq<Member>, strtod: NumberReader)
    returns (fields: seq<Field>)
    requires p <= |t| && ObjectTail(t, p, d, acc, strtod).Ok?
    ensures fields != [] && TakenFields(fields) && At(t, p, FieldsText(fields))
    decreases |t| - p, 3
  {
    hide At, ParseValue, ParseKey, TreeText, Onward, Skip, SetMember;
    assert ParseMember(t, p, d, strtod).Ok? && ParseKey(t, p).Ok?;
    var k := ParseKey(t, p).pos;
    var value := ParseValue(t, k, d, strtod);
    assert value.Ok?;
    var tree := ValueDerived(t, k, d, strtod);
    var q := Skip(t, value.pos);
    var rest, more := "}", [];
    OneAt(t, q);
    if t[q] == ',' {
      more := FieldsDerived(t, q + 1, d, SetMember(acc, ParseKey(t, p).value, value.value), strtod);
      rest := "," + FieldsText(more);
      AtJoin(t, q, ",", FieldsText(more));
    }
    var slot := OnwardDerived(t, k, d, tree, rest, strtod);
    var f := KeyDerived(t, p, slot.before + Onward(slot, rest));
    fields := [f.(slot := slot)] + more;
    assert fields[1..] == more;
  }

  // ---- whole texts ------------------------------------------------------

  /** A text that is taken is derived. */
  lemma TextDerived(t: string, strtod: NumberReader) returns (doc: Slot)
    requires Parse(t, strtod).1 == ""
    ensures TakenDocument(doc) && t == DocumentText(doc)
  {
    hide ParseValue, TreeText, At, Skip;
    var value := ParseValue(t, 0, 0, strtod);
    assert value.Ok? && Skip(t, value.pos) == |t|;
    var tree := ValueDerived(t, 0, 0, strtod);
    EmptyAt(t);
    doc := OnwardDerived(t, 0, 0, tree, "", strtod);
    WholeText(t, DocumentText(doc));
  }

  lemma WholeText(t: string, w: string)
    requires At(t, 0, w) && |w| == |t|
    ensures t == w
  {
  }

  lemma EmptyAt(t: string)
    ensures At(t, |t|, "")
  {
  }

  ghost predicate Derives(doc: Slot, t: string) {
    TakenDocument(doc) && t == DocumentText(doc)
  }

  /** Not too deep, and its numerals are read. */
  ghost predicate Admissible(doc: Slot, strtod: NumberReader) {
    Height(doc.tree) <= 64 && NumbersRead(doc.tree, strtod)
  }

  /** The texts parsed without an error are exactly those that the grammar derives, with at most 64 levels and numerals
      that `std::stod` reads; and each of them is parsed to what it means, however it is derived. */
  lemma AcceptedIff(t: string, strtod: NumberReader)
    ensures Parse(t, strtod).1 == "" <==> exists doc :: Derives(doc, t) && Admissible(doc, strtod)
    ensures forall doc :: Derives(doc, t) && Admissible(doc, strtod) ==>
        Parse(t, strtod) == (Meaning(doc.tree, strtod), "")
  {
    hide Parse, DocumentText, Taken, Height, NumbersRead, Meaning;
    forall doc | Derives(doc, t)
      ensures Admissible(doc, strtod) ==> Parse(t, strtod) == (Meaning(doc.tree, strtod), "")
      ensures !Admissible(doc, strtod) ==> Parse(t, strtod).1 != ""
    {
      DerivedTextParses(doc, strtod);
    }
    if Parse(t, strtod).1 == "" {
      var doc := TextDerived(t, strtod);
      assert Derives(doc, t);
    }
  }

  // ---- the texts of RFC 8259 --------------------------------------------

  predicate RfcWhole(s: string) {
    s != "" && AllDigits(s) && (s[0] == '0' ==> |s| == 1)
  }

  predicate RfcFraction(s: string) {
    s == "" || (|s| > 1 && s[0] == '.' && AllDigits(s[1..]))
  }

  predicate RfcExponent(s: string) {
    s == "" || (|s| > 1 && (s[0] == 'e' || s[0] == 'E') && Unsigned(s[1..]) != "" && AllDigits(Unsigned(s[1..])))
  }

  predicate RfcParts(token: string, minus: string, whole: string, fraction: string, exponent: string) {
    token == minus + whole + fraction + exponent && (minus == "" || minus == "-")
    && RfcWhole(whole) && RfcFraction(fraction) && RfcExponent(exponent)
  }

  /** A number by section 6 of RFC 8259. */
  ghost predicate RfcNumber(token: string) {
    exists minus, whole, fraction, exponent :: RfcParts(token, minus, whole, fraction, exponent)
  }

  /** A character of a string by section 7. */
  predicate RfcGlyph(g: Glyph) {
    match g
    case Plain(c) => ' ' <= c && c != '"' && c != '\\'
    case Short(c) => c in "\"\\/bfnrt"
    case Code(digits) => |digits| == 4 && forall i :: 0 <= i < 4 ==>
        '0' <= digits[i] <= '9' || 'a' <= digits[i] <= 'f' || 'A' <= digits[i] <= 'F'
  }

  predicate RfcGlyphs(gs: seq<Glyph>) {
    forall k :: 0 <= k < |gs| ==> RfcGlyph(gs[k])
  }

  /** A value by section 3. */
  ghost predicate RfcValue(tree: Tree) {
    match tree
    case Word(value) => value.Null? || value.Bool?
    case Numeral(token) => RfcNumber(token)
    case Quoted(glyphs) => RfcGlyphs(glyphs)
    case Hollow(_, gap) => IsGap(gap)
    case List(slots) => slots != [] && RfcSlots(slots)
    case Record(fields) => fields != [] && RfcFields(fields)
  }

  ghost predicate RfcSlots(slots: seq<Slot>) {
    slots == [] || (IsGap(slots[0].before) && IsGap(slots[0].after) && RfcValue(slots[0].tree) && RfcSlots(slots[1..]))
  }

  ghost predicate RfcFields(fields: seq<Field>) {
    fields == []
    || (IsGap(fields[0].before) && IsGap(fields[0].mid) && IsGap(fields[0].slot.before) && IsGap(fields[0].slot.after)
        && RfcGlyphs(fields[0].key) && RfcValue(fields[0].slot.tree) && RfcFields(fields[1..]))
  }

  lemma RfcNumberIsToken(token: string)
    requires RfcNumber(token)
    ensures IsToken(token)
  {
    var minus, whole, fraction, exponent :| RfcParts(token, minus, whole, fraction, exponent);
    assert forall i :: 0 <= i < |fraction| ==> IsNumberChar(fraction[i]) by {
      assert forall i :: 1 <= i < |fraction| ==> fraction[i] == fraction[1..][i - 1];
    }
    ExponentChars(exponent);
  }

  lemma ExponentChars(exponent: string)
    requires RfcExponent(exponent)
    ensures forall i :: 0 <= i < |exponent| ==> IsNumberChar(exponent[i])
  {
    if exponent != "" {
      var signed := exponent[1..];
      assert forall i :: 1 <= i < |exponent| ==> exponent[i] == signed[i - 1];
      assert |Unsigned(signed)| < |signed| ==> forall i :: 1 <= i < |signed| ==> signed[i] == Unsigned(signed)[i - 1];
    }
  }

  lemma RfcGlyphsTaken(gs: seq<Glyph>)
    requires RfcGlyphs(gs)
    ensures TakenGlyphs(gs)
  {
    forall k | 0 <= k < |gs| ensures TakenGlyph(gs[k]) {
      assert RfcGlyph(gs[k]);
    }
  }

  lemma {:induction false} RfcIsTaken(tree: Tree)
    requires RfcValue(tree)
    ensures Taken(tree)
    decreases tree, 1
  {
    match tree
    case Numeral(token) => RfcNumberIsToken(token);
    case Quoted(glyphs) => RfcGlyphsTaken(glyphs);
    case List(slots) => RfcSlotsTaken(slots);
    case Record(fields) => RfcFieldsTaken(fields);
    case _ =>
  }

  lemma {:induction false} RfcSlotsTaken(slots: seq<Slot>)
    requires RfcSlots(slots)
    ensures TakenSlots(slots)
    decreases slots, 0
  {
    if slots != [] {
      RfcIsTaken(slots[0].tree);
      RfcSlotsTaken(slots[1..]);
    }
  }

  lemma {:induction false} RfcFieldsTaken(fields: seq<Field>)
    requires RfcFields(fields)
    ensures TakenFields(fields)
    decreases fields, 0
  {
    if fields != [] {
      RfcGlyphsTaken(fields[0].key);
      RfcIsTaken(fields[0].slot.tree);
      RfcFieldsTaken(fields[1..]);
    }
  }

  /** A JSON text of RFC 8259 is parsed to what it means exactly if it is at most 64 levels deep and `std::stod` reads
      its numbers, and refused otherwise. */
  lemma RfcTextsParse(doc: Slot, strtod: NumberReader)
    requires IsGap(doc.before) && IsGap(doc.after) && RfcValue(doc.tree)
    ensures TakenDocument(doc)
    ensures Parse(DocumentText(doc), strtod).1 == "" <==> Admissible(doc, strtod)
    ensures Admissible(doc, strtod) ==> Parse(DocumentText(doc), strtod).0 == Meaning(doc.tree, strtod)
  {
    hide Parse, DocumentText, Meaning, NumbersRead, Height;
    RfcIsTaken(doc.tree);
    DerivedTextParses(doc, strtod);
  }

  /** Integers up to 2^53 in magnitude are always read, to their value. */
  lemma RfcIntegersRead(token: string, minus: string, whole: string, strtod: NumberReader)
    requires RfcParts(token, minus, whole, "", "") && DigitsValue(whole) <= 9007199254740992
    ensures Taken(Numeral(token)) && NumbersRead(Numeral(token), strtod)
    ensures var n: int := DigitsValue(whole);
      Meaning(Numeral(token), strtod) == Number((if minus == "-" then -n else n) as real)
  {
    IntegerToken(token, minus, whole);
    assert RfcNumber(token);
    RfcNumberIsToken(token);
    hide RfcParts, RfcNumber;
  }

  lemma IntegerToken(token: string, minus: string, whole: string)
    requires RfcParts(token, minus, whole, "", "")
    ensures token != "" && Unsigned(token) == whole && whole != "" && AllDigits(whole)
    ensures token[0] == '-' <==> minus == "-"
  {
    hide AllDigits;
    FirstDigit(whole);
    assert token == minus + whole;
    if minus == "" {
      assert token == whole;
      assert token[0] != '-' && token[0] != '+';
      assert Unsigned(token) == token;
    } else {
      assert token == ['-'] + whole && token[1..] == whole;
    }
  }

  lemma FirstDigit(s: string)
    requires s != "" && AllDigits(s)
    ensures IsDigit(s[0])
  {
  }

  /** What the grammar takes beyond RFC 8259: leading zeros and plus signs, and control characters in strings. */
  lemma BeyondRfc(strtod: NumberReader)
    ensures Parse("+007", strtod) == (Number(7.0), "") && !RfcNumber("+007")
    ensures Parse("\"\n\"", strtod) == (String("\n"), "") && !RfcGlyph(Plain('\n'))
  {
    BeyondNumbers(strtod);
    var gs := [Plain('\n')];
    var doc := Slot("", Quoted(gs), "");
    assert GlyphsText(gs) == "\n" && GlyphsMeaning(gs) == "\n";
    assert DocumentText(doc) == "\"\n\"";
    DerivedTextParses(doc, strtod);
  }

  lemma BeyondNumbers(strtod: NumberReader)
    ensures Parse("+007", strtod) == (Number(7.0), "") && !RfcNumber("+007")
  {
    var token := "+007";
    var doc := Slot("", Numeral(token), "");
    assert Unsigned(token) == "007";
    assert DigitsValue("007") == 7 by {
      assert "007"[..2] == "00" && "00"[..1] == "0" && "0"[..0] == "";
      assert DigitsValue("0") == 0 && DigitsValue("00") == 0;
    }
    assert DocumentText(doc) == token;
    DerivedTextParses(doc, strtod);
    if RfcNumber(token) {
      RfcStart(token);
    }
  }

  lemma RfcStart(token: string)
    requires RfcNumber(token)
    ensures token != "" && (token[0] == '-' || IsDigit(token[0]))
  {
    var minus, whole, fraction, exponent :| RfcParts(token, minus, whole, fraction, exponent);
    assert token[0] == (minus + whole)[0];
  }

  // ---- respelling -------------------------------------------------------

  function UnitOf(g: Glyph): int
    requires TakenGlyph(g)
  {
    match g
    case Plain(c) => c as int
    case Short(c) => Named(c)
    case Code(digits) => CodeUnit(digits)
  }

  /** Two spellings of one character: `\/` and `/`, `\n` and `\u000a`, or digits of another case. */
  predicate SameGlyph(g: Glyph, h: Glyph)
    requires TakenGlyph(g) && TakenGlyph(h)
  {
    UnitOf(g) == UnitOf(h) && (UnitOf(g) < 0x80 || g.Plain? == h.Plain?)
  }

  predicate SameGlyphs(gs: seq<Glyph>, hs: seq<Glyph>)
    requires TakenGlyphs(gs) && TakenGlyphs(hs)
  {
    |gs| == |hs| && forall k :: 0 <= k < |gs| ==> TakenGlyph(gs[k]) && TakenGlyph(hs[k]) && SameGlyph(gs[k], hs[k])
  }

  predicate IsSurrogate(u: int) {
    0xD800 <= u <= 0xDFFF
  }

  predicate Pairs(gs: seq<Glyph>)
    requires TakenGlyphs(gs) && gs != []
  {
    gs[0].Code? && |gs| > 1 && gs[1].Code?
    && TakenGlyph(gs[0]) && TakenGlyph(gs[1]) && IsSurrogate(UnitOf(gs[0])) && IsSurrogate(UnitOf(gs[1]))
  }

  function OneMeaning(g: Glyph): string
    requires TakenGlyph(g)
  {
    if g.Plain? then [g.c] else Octets(UnitOf(g))
  }

  /** A high surrogate that takes the next escape along. */
  predicate TakesNext(gs: seq<Glyph>)
    requires TakenGlyphs(gs) && gs != []
  {
    gs[0].Code? && |gs| > 1 && gs[1].Code? && TakenGlyph(gs[0]) && 0xD800 <= UnitOf(gs[0]) <= 0xDBFF
  }

  lemma AloneMeans(gs: seq<Glyph>)
    requires TakenGlyphs(gs) && gs != [] && !TakesNext(gs)
    ensures TakenGlyph(gs[0]) && GlyphsMeaning(gs) == OneMeaning(gs[0]) + GlyphsMeaning(gs[1..])
  {
    assert TakenGlyph(gs[0]);
    hide CodeUnit, Octets, PairOf;
  }

  lemma TwoMean(gs: seq<Glyph>)
    requires TakenGlyphs(gs) && gs != [] && TakesNext(gs) && TakenGlyph(gs[1])
    requires !(0xDC00 <= UnitOf(gs[1]) <= 0xDFFF)
    ensures GlyphsMeaning(gs) == Octets(UnitOf(gs[0])) + Octets(UnitOf(gs[1])) + GlyphsMeaning(gs[2..])
  {
    hide CodeUnit, Octets, PairOf;
  }

  lemma OneByOne(gs: seq<Glyph>)
    requires TakenGlyphs(gs) && gs != [] && !Pairs(gs)
    ensures TakenGlyph(gs[0]) && GlyphsMeaning(gs) == OneMeaning(gs[0]) + GlyphsMeaning(gs[1..])
  {
    hide GlyphsMeaning, TakenGlyph, Octets;
    if TakesNext(gs) {
      var rest := gs[1..];
      assert TakenGlyph(gs[1]) && rest[0] == gs[1] && rest[1..] == gs[2..];
      TwoMean(gs);
      AloneMeans(rest);
      assert Octets(UnitOf(gs[0])) + Octets(UnitOf(gs[1])) + GlyphsMeaning(gs[2..])
        == Octets(UnitOf(gs[0])) + (Octets(UnitOf(gs[1])) + GlyphsMeaning(gs[2..]));
    } else {
      AloneMeans(gs);
    }
  }

  /** However a string is spelt, it means the same. */
  lemma {:induction false} RespeltStays(gs: seq<Glyph>, hs: seq<Glyph>)
    requires TakenGlyphs(gs) && TakenGlyphs(hs) && SameGlyphs(gs, hs)
    ensures GlyphsMeaning(gs) == GlyphsMeaning(hs)
  {
    hide TakenGlyph, CodeUnit, Octets, PairOf;
    if gs != [] {
      assert SameGlyph(gs[0], hs[0]);
      if Pairs(gs) {
        assert SameGlyph(gs[1], hs[1]);
        RespeltPair(gs, hs);
        if 0xD800 <= UnitOf(gs[0]) <= 0xDBFF {
          RespeltStays(gs[2..], hs[2..]);
        } else {
          RespeltStays(gs[1..], hs[1..]);
        }
      } else {
        NoPair(gs, hs);
        OneByOne(gs);
        OneByOne(hs);
        SameOne(gs[0], hs[0]);
        RespeltStays(gs[1..], hs[1..]);
      }
    }
  }

  lemma NoPair(gs: seq<Glyph>, hs: seq<Glyph>)
    requires TakenGlyphs(gs) && TakenGlyphs(hs) && SameGlyphs(gs, hs) && gs != [] && !Pairs(gs)
    ensures hs != [] && !Pairs(hs)
  {
    hide TakenGlyph, CodeUnit;
    assert SameGlyph(gs[0], hs[0]);
    if |gs| > 1 {
      assert SameGlyph(gs[1], hs[1]);
    }
  }

  lemma SameOne(g: Glyph, h: Glyph)
    requires TakenGlyph(g) && TakenGlyph(h) && SameGlyph(g, h)
    ensures OneMeaning(g) == OneMeaning(h)
  {
    hide CodeUnit;
  }

  lemma RespeltPair(gs: seq<Glyph>, hs: seq<Glyph>)
    requires TakenGlyphs(gs) && TakenGlyphs(hs) && SameGlyphs(gs, hs) && gs != [] && Pairs(gs)
    ensures hs[0].Code? && hs[1].Code? && CodeUnit(gs[0].digits) == CodeUnit(hs[0].digits)
    ensures CodeUnit(gs[1].digits) == CodeUnit(hs[1].digits)
  {
    hide CodeUnit;
    assert SameGlyph(gs[0], hs[0]) && SameGlyph(gs[1], hs[1]);
  }

  // ---- what is taken is clean -------------------------------------------

  lemma {:induction false} SetKeepsClean(acc: seq<Member>, key: string, v: Json)
    requires UniqueInMembers(acc) && UniqueKeys(v)
    ensures UniqueInMembers(SetMember(acc, key, v))
    ensures DepthOfMembers(SetMember(acc, key, v)) <= Max(DepthOfMembers(acc), Depth(v))
  {
    hide UniqueKeys, Depth;
    if acc != [] && acc[0].key != key {
      SetKeepsClean(acc[1..], key, v);
      assert ([acc[0]] + SetMember(acc[1..], key, v))[1..] == SetMember(acc[1..], key, v);
    } else if acc != [] {
      assert ([Member(key, v)] + acc[1..])[1..] == acc[1..];
    } else {
      assert [Member(key, v)][1..] == [];
    }
  }

  lemma {:induction false} MeaningIsClean(tree: Tree, strtod: NumberReader)
    requires Taken(tree)
    ensures UniqueKeys(Meaning(tree, strtod)) && Depth(Meaning(tree, strtod)) <= Height(tree)
    decreases tree, 1
  {
    match tree
    case List(slots) => SlotsAreClean(slots, strtod);
    case Record(fields) => FieldsAreClean([], fields, strtod);
    case _ =>
  }

  lemma {:induction false} SlotsAreClean(slots: seq<Slot>, strtod: NumberReader)
    requires TakenSlots(slots)
    ensures UniqueInItems(SlotsMeaning(slots, strtod))
    ensures DepthOfItems(SlotsMeaning(slots, strtod)) <= SlotsHeight(slots)
    decreases slots, 0
  {
    if slots != [] {
      MeaningIsClean(slots[0].tree, strtod);
      SlotsAreClean(slots[1..], strtod);
      var first, rest := Meaning(slots[0].tree, strtod), SlotsMeaning(slots[1..], strtod);
      assert SlotsMeaning(slots, strtod) == [first] + rest && ([first] + rest)[1..] == rest;
    }
  }

  lemma {:induction false} FieldsAreClean(acc: seq<Member>, fields: seq<Field>, strtod: NumberReader)
    requires TakenFields(fields) && UniqueInMembers(acc) && DistinctKeys(acc)
    ensures var r := FieldsMeaning(acc, fields, strtod);
      UniqueInMembers(r) && DistinctKeys(r) && DepthOfMembers(r) <= Max(DepthOfMembers(acc), FieldsHeight(fields))
    decreases fields, 0
  {
    if fields != [] {
      var key, v := GlyphsMeaning(fields[0].key), Meaning(fields[0].slot.tree, strtod);
      MeaningIsClean(fields[0].slot.tree, strtod);
      SetKeepsClean(acc, key, v);
      SetThenLookup(acc, key, v);
      hide GlyphsMeaning, Meaning, UniqueKeys, UniqueInMembers, DistinctKeys, Depth, Height, SetMember, DepthOfMembers;
      FieldsAreClean(SetMember(acc, key, v), fields[1..], strtod);
    }
  }

  /** Whatever text is taken, no object of its value repeats a key and it is at most 64 levels deep. */
  lemma AcceptedIsClean(t: string, strtod: NumberReader)
    requires Parse(t, strtod).1 == ""
    ensures UniqueKeys(Parse(t, strtod).0) && Depth(Parse(t, strtod).0) <= 64
  {
    hide Parse, DocumentText, Meaning, NumbersRead, Height, UniqueKeys, Depth;
    var doc := TextDerived(t, strtod);
    DerivedTextParses(doc, strtod);
    MeaningIsClean(doc.tree, strtod);
  }

  /** So it can be printed and parsed again and stays the same, if its numbers do, and in ASCII-only text its
      strings. */
  lemma AcceptedComesBack(t: string, indent: int, asciiOnly: bool, format: NumberFormat, strtod: NumberReader)
    requires Parse(t, strtod).1 == "" && ReadableNumbers(Parse(t, strtod).0, format, strtod)
    ensures var v := Parse(t, strtod).0;
      Parse(Dump(v, Style(indent, asciiOnly, format)), strtod) == (v, "")
      <==> ExactNumbers(v, format, strtod) && (asciiOnly ==> StringsSurvive(v, true))
  {
    hide Parse, Dump, UniqueKeys, Depth, ExactNumbers, StringsSurvive, ReadableNumbers;
    AcceptedIsClean(t, strtod);
    if asciiOnly {
      AsciiRoundTrip(Parse(t, strtod).0, indent, format, strtod);
    } else {
      RoundTrip(Parse(t, strtod).0, indent, format, strtod);
    }
  }
}
