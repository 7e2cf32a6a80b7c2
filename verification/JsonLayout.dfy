/** The layout of printed documents, told from the text alone. */
module JsonLayout {
  import opened Text
  import opened JsonValue
  import opened JsonPrinter

  // ---- reading a text character by character ----------------------------

  /** Where a scan stands: outside strings, inside one, or after a backslash inside one. */
  datatype Place = Outside | Inside | Escaped

  function Step(place: Place, c: char): Place {
    match place
    case Outside => if c == '"' then Inside else Outside
    case Inside => if c == '"' then Outside else if c == '\\' then Escaped else Inside
    case Escaped => Inside
  }

  function Scan(place: Place, t: string): Place
    decreases |t|
  {
    if t == "" then place else Scan(Step(place, t[0]), t[1..])
  }

  predicate IsBlank(c: char) {
    c == ' ' || c == '\n' || c == '\r' || c == '\t'
  }

  /** No white space outside strings, and no control characters inside them. */
  predicate Bare(place: Place, t: string)
    decreases |t|
  {
    t == "" || ((if place == Outside then !IsBlank(t[0]) else ' ' <= t[0]) && Bare(Step(place, t[0]), t[1..]))
  }

  /** The text without white space outside strings. */
  function Squeezed(place: Place, t: string): string
    decreases |t|
  {
    if t == "" then ""
    else (if place == Outside && IsBlank(t[0]) then "" else [t[0]]) + Squeezed(Step(place, t[0]), t[1..])
  }

  predicate Opens(c: char) {
    c == '[' || c == '{'
  }

  predicate Closes(c: char) {
    c == ']' || c == '}'
  }

  /** A new line, with this many spaces at its beginning. */
  function Line(spaces: nat): string {
    "\n" + seq(spaces, _ => ' ')
  }

  /** Compact text laid out: outside strings a new line after every opening bracket and comma and before every
      closing bracket, indented by the brackets then open, and a space after every colon; brackets with nothing
      between them stay together. */
  function LaidOut(place: Place, open: nat, indent: nat, t: string): string
    decreases |t|
  {
    if t == "" then ""
    else
      var c, rest := t[0], t[1..];
      if place != Outside then [c] + LaidOut(Step(place, c), open, indent, rest)
      else if Opens(c) && rest != "" && Closes(rest[0]) then [c, rest[0]] + LaidOut(Outside, open, indent, rest[1..])
      else if Opens(c) then [c] + Line(indent * (open + 1)) + LaidOut(Outside, open + 1, indent, rest)
      else if Closes(c) && open > 0 then Line(indent * (open - 1)) + [c] + LaidOut(Outside, open - 1, indent, rest)
      else if c == ',' then [c] + Line(indent * open) + LaidOut(Outside, open, indent, rest)
      else if c == ':' then [c, ' '] + LaidOut(Outside, open, indent, rest)
      else [c] + LaidOut(Step(place, c), open, indent, rest)
  }

  // ---- scalars are laid out as they are ---------------------------------

  /** No character of it means anything to the layout. */
  predicate IsPlain(t: string) {
    forall i :: 0 <= i < |t| ==> IsInert(t[i])
  }

  predicate IsInert(c: char) {
    !IsBlank(c) && c != '"' && !Opens(c) && !Closes(c) && c != ',' && c != ':'
  }

  /** Numbers off the integer path are formatted without white space and punctuation. */
  predicate PlainNumbers(v: Json, format: NumberFormat) {
    match v
    case Number(n) => OnIntegerPath(n) || (IsPlain(format(n)) && format(n) != "")
    case Array(items) => PlainItems(items, format)
    case Object(members) => PlainMembers(members, format)
    case _ => true
  }

  predicate PlainItems(items: seq<Json>, format: NumberFormat) {
    items == [] || (PlainNumbers(items[0], format) && PlainItems(items[1..], format))
  }

  predicate PlainMembers(members: seq<Member>, format: NumberFormat) {
    members == [] || (PlainNumbers(members[0].value, format) && PlainMembers(members[1..], format))
  }

  /** The text passes through the layout as it is, and ends outside strings. */
  ghost predicate Passes(w: string, open: nat, indent: nat, rest: string) {
    LaidOut(Outside, open, indent, w + rest) == w + LaidOut(Outside, open, indent, rest)
    && (Bare(Outside, w + rest) <==> Bare(Outside, rest))
  }

  lemma {:induction false} PlainThrough(w: string, open: nat, indent: nat, rest: string)
    requires IsPlain(w)
    ensures Passes(w, open, indent, rest)
    decreases |w|
  {
    if w == "" {
      assert w + rest == rest;
    } else {
      assert IsInert(w[0]);
      PlainThrough(w[1..], open, indent, rest);
      assert (w + rest)[0] == w[0] && (w + rest)[1..] == w[1..] + rest;
      assert w == [w[0]] + w[1..];
    }
  }

  /** Inside a string everything stays as it is until the quote. */
  lemma {:induction false} BodyThrough(place: Place, w: string, open: nat, indent: nat, rest: string)
    requires place != Outside && Scan(place, w) == Inside && Bare(place, w) && StaysInside(place, w)
    ensures LaidOut(place, open, indent, w + "\"" + rest) == w + "\"" + LaidOut(Outside, open, indent, rest)
    ensures Bare(place, w + "\"" + rest) <==> Bare(Outside, rest)
    decreases |w|
  {
    var t := w + "\"" + rest;
    if w == "" {
      assert t == "\"" + rest && t[1..] == rest;
      assert w + "\"" + LaidOut(Outside, open, indent, rest) == ['"'] + LaidOut(Outside, open, indent, rest);
    } else {
      BodyThrough(Step(place, w[0]), w[1..], open, indent, rest);
      assert t[0] == w[0] && t[1..] == w[1..] + "\"" + rest;
      assert w + "\"" + LaidOut(Outside, open, indent, rest)
        == [w[0]] + (w[1..] + "\"" + LaidOut(Outside, open, indent, rest));
    }
  }

  /** The scan does not leave the string. */
  predicate StaysInside(place: Place, w: string)
    decreases |w|
  {
    place != Outside && (w == "" || StaysInside(Step(place, w[0]), w[1..]))
  }

  /** What a piece is spelt as stays inside the string and leaves no escape open. */
  lemma PieceStays(p: Piece)
    requires p.Unit? ==> p.u < 0x10000
    requires p.Raw? && ShortEscape(p.c) == [] ==> ' ' <= p.c && p.c != '"' && p.c != '\\'
    ensures StaysInside(Inside, Spell(p)) && Scan(Inside, Spell(p)) == Inside && Bare(Inside, Spell(p))
  {
    var w := Spell(p);
    match p
    case Raw(c) =>
      if ShortEscape(c) != [] {
        TwoStay(w);
      } else {
        OneStays(c);
      }
    case Unit(u) => UnitStays(u);
  }

  lemma OneStays(c: char)
    requires ' ' <= c && c != '"' && c != '\\'
    ensures StaysInside(Inside, [c]) && Scan(Inside, [c]) == Inside && Bare(Inside, [c])
  {
    assert [c][1..] == "";
  }

  lemma TwoStay(w: string)
    requires |w| == 2 && w[0] == '\\' && ' ' <= w[1]
    ensures StaysInside(Inside, w) && Scan(Inside, w) == Inside && Bare(Inside, w)
  {
    var rest := w[1..];
    assert rest[1..] == "" && rest[0] == w[1];
    assert StaysInside(Inside, "") && Scan(Inside, "") == Inside && Bare(Inside, "");
    assert StaysInside(Escaped, rest) && Scan(Escaped, rest) == Inside && Bare(Escaped, rest);
  }

  lemma {:induction false} QuietStays(w: string)
    requires forall i :: 0 <= i < |w| ==> ' ' <= w[i] && w[i] != '"' && w[i] != '\\'
    ensures StaysInside(Inside, w) && Scan(Inside, w) == Inside && Bare(Inside, w)
  {
    if w != "" {
      QuietStays(w[1..]);
    }
  }

  lemma UnitStays(u: nat)
    requires u < 0x10000
    ensures StaysInside(Inside, UnitText(u)) && Scan(Inside, UnitText(u)) == Inside && Bare(Inside, UnitText(u))
  {
    var w := UnitText(u);
    QuietStays(w[2..]);
    assert w[1..][1..] == w[2..] && w[1..][0] == 'u';
  }

  lemma {:induction false} StayingJoins(place: Place, a: string, b: string)
    requires StaysInside(place, a) && Bare(place, a) && StaysInside(Scan(place, a), b) && Bare(Scan(place, a), b)
    ensures StaysInside(place, a + b) && Bare(place, a + b) && Scan(place, a + b) == Scan(Scan(place, a), b)
    decreases |a|
  {
    if a == "" {
      assert a + b == b;
    } else {
      StayingJoins(Step(place, a[0]), a[1..], b);
      assert (a + b)[1..] == a[1..] + b;
    }
  }

  /** Raw pieces need no escape, or have one. */
  predicate Quotable(ps: seq<Piece>) {
    Spellable(ps)
    && forall i :: 0 <= i < |ps| && ps[i].Raw? && ShortEscape(ps[i].c) == [] ==>
        ' ' <= ps[i].c && ps[i].c != '"' && ps[i].c != '\\'
  }

  lemma {:induction false} PiecesStay(ps: seq<Piece>)
    requires Quotable(ps)
    ensures StaysInside(Inside, SpellAll(ps)) && Bare(Inside, SpellAll(ps)) && Scan(Inside, SpellAll(ps)) == Inside
  {
    hide Spell, ShortEscape;
    if ps != [] {
      PieceStays(ps[0]);
      PiecesStay(ps[1..]);
      StayingJoins(Inside, Spell(ps[0]), SpellAll(ps[1..]));
    }
  }

  lemma {:induction false} PiecesQuotable(s: string, asciiOnly: bool)
    ensures Quotable(Pieces(s, asciiOnly))
    decreases |s|
  {
    if s != "" {
      var (first, used) := NextPieces(s, asciiOnly);
      FrontQuotable(s, asciiOnly);
      PiecesQuotable(s[used..], asciiOnly);
    }
  }

  lemma FrontQuotable(s: string, asciiOnly: bool)
    requires s != ""
    ensures Quotable(NextPieces(s, asciiOnly).0)
  {
  }

  lemma StringPasses(s: string, asciiOnly: bool, open: nat, indent: nat, rest: string)
    ensures Passes(StringText(s, asciiOnly), open, indent, rest)
  {
    var ps := Pieces(s, asciiOnly);
    PiecesQuotable(s, asciiOnly);
    PiecesStay(ps);
    BodyThrough(Inside, SpellAll(ps), open, indent, rest);
    hide SpellAll, Pieces;
    QuoteOpens(SpellAll(ps), open, indent, rest);
  }

  lemma QuoteStep(open: nat, indent: nat, t: string)
    ensures LaidOut(Outside, open, indent, "\"" + t) == "\"" + LaidOut(Inside, open, indent, t)
    ensures Bare(Outside, "\"" + t) <==> Bare(Inside, t)
  {
    assert ("\"" + t)[1..] == t;
  }

  lemma QuoteOpens(body: string, open: nat, indent: nat, rest: string)
    requires LaidOut(Inside, open, indent, body + "\"" + rest) == body + "\"" + LaidOut(Outside, open, indent, rest)
    requires Bare(Inside, body + "\"" + rest) <==> Bare(Outside, rest)
    ensures Passes("\"" + body + "\"", open, indent, rest)
  {
    var t := body + "\"" + rest;
    QuoteStep(open, indent, t);
    hide LaidOut, Bare;
    assert "\"" + body + "\"" + rest == "\"" + t;
    Assoc("\"" + body, "\"", LaidOut(Outside, open, indent, rest));
    Assoc("\"", body, "\"" + LaidOut(Outside, open, indent, rest));
    Assoc(body, "\"", LaidOut(Outside, open, indent, rest));
  }

  // ---- single steps of the layout ---------------------------------------

  lemma {:induction false} SpacesAre(n: nat)
    ensures Spaces(n) == seq(n, _ => ' ')
  {
    if n > 0 {
      SpacesAre(n - 1);
    }
  }

  lemma CommaStep(open: nat, indent: nat, rest: string)
    ensures LaidOut(Outside, open, indent, "," + rest)
      == "," + Line(indent * open) + LaidOut(Outside, open, indent, rest)
    ensures Bare(Outside, "," + rest) <==> Bare(Outside, rest)
  {
    assert ("," + rest)[1..] == rest;
  }

  lemma ColonStep(open: nat, indent: nat, rest: string)
    ensures LaidOut(Outside, open, indent, ":" + rest) == ": " + LaidOut(Outside, open, indent, rest)
    ensures Bare(Outside, ":" + rest) <==> Bare(Outside, rest)
  {
    assert (":" + rest)[1..] == rest;
  }

  lemma CloseStep(c: char, open: nat, indent: nat, rest: string)
    requires Closes(c)
    ensures LaidOut(Outside, open + 1, indent, [c] + rest)
      == Line(indent * open) + [c] + LaidOut(Outside, open, indent, rest)
    ensures Bare(Outside, [c] + rest) <==> Bare(Outside, rest)
  {
    assert ([c] + rest)[1..] == rest;
  }

  lemma OpenStep(c: char, open: nat, indent: nat, rest: string)
    requires Opens(c) && rest != "" && !Closes(rest[0])
    ensures LaidOut(Outside, open, indent, [c] + rest)
      == [c] + Line(indent * (open + 1)) + LaidOut(Outside, open + 1, indent, rest)
    ensures Bare(Outside, [c] + rest) <==> Bare(Outside, rest)
  {
    assert ([c] + rest)[1..] == rest;
  }

  lemma HollowStep(c: char, d: char, open: nat, indent: nat, rest: string)
    requires Opens(c) && Closes(d)
    ensures Passes([c, d], open, indent, rest)
  {
    var t := [c, d] + rest;
    assert t[0] == c && t[1..] == [d] + rest && t[1..][1..] == rest;
  }

  // ---- values -----------------------------------------------------------

  /** The same style without line breaks. */
  function Compact(style: Style): Style {
    style.(indent := -1)
  }

  /** Compact text `c` is laid out as `p`, from one depth to another. */
  ghost predicate Becomes(c: string, p: string, from: nat, to: nat, indent: nat, rest: string) {
    LaidOut(Outside, from, indent, c + rest) == p + LaidOut(Outside, to, indent, rest)
    && (Bare(Outside, c + rest) <==> Bare(Outside, rest))
  }

  lemma Joins(c: string, p: string, c': string, p': string, from: nat, mid: nat, to: nat, indent: nat, rest: string)
    requires Becomes(c, p, from, mid, indent, c' + rest) && Becomes(c', p', mid, to, indent, rest)
    ensures Becomes(c + c', p + p', from, to, indent, rest)
  {
    hide LaidOut, Bare;
    Assoc(c, c', rest);
    Assoc(p, p', LaidOut(Outside, to, indent, rest));
  }

  lemma ValueStarts(v: Json, depth: nat, style: Style)
    requires PlainNumbers(v, style.format)
    ensures var t := ValueText(v, depth, style); t != "" && !Closes(t[0])
  {
    if v.Number? {
      NumberStarts(v.n, style.format);
    }
  }

  lemma NumberStarts(n: real, format: NumberFormat)
    requires OnIntegerPath(n) || (IsPlain(format(n)) && format(n) != "")
    ensures NumberText(n, format) != "" && !Closes(NumberText(n, format)[0])
  {
    NumberIsPlain(n, format);
    assert IsInert(NumberText(n, format)[0]);
  }

  lemma {:induction false} ValueBecomes(v: Json, depth: nat, style: Style, rest: string)
    requires style.indent >= 0 && PlainNumbers(v, style.format)
    ensures Becomes(ValueText(v, depth, Compact(style)), ValueText(v, depth, style), depth, depth, style.indent, rest)
    decreases v, 1
  {
    hide LaidOut, Bare, ItemsText, MembersText, StringText, Decimal;
    match v
    case Null => PlainThrough("null", depth, style.indent, rest);
    case Bool(b) => PlainThrough(if b then "true" else "false", depth, style.indent, rest);
    case Number(n) =>
      NumberIsPlain(n, style.format);
      PlainThrough(NumberText(n, style.format), depth, style.indent, rest);
    case String(s) => StringPasses(s, style.asciiOnly, depth, style.indent, rest);
    case Array(items) =>
      if items == [] {
        HollowStep('[', ']', depth, style.indent, rest);
      } else {
        ArrayBecomes(items, depth, style, rest);
      }
    case Object(members) =>
      if members == [] {
        HollowStep('{', '}', depth, style.indent, rest);
      } else {
        ObjectBecomes(members, depth, style, rest);
      }
  }

  lemma NumberIsPlain(n: real, format: NumberFormat)
    requires OnIntegerPath(n) || IsPlain(format(n))
    ensures IsPlain(NumberText(n, format))
  {
    if OnIntegerPath(n) {
      DecimalIsPlain(n.Floor);
    }
  }

  lemma DecimalIsPlain(n: int)
    ensures IsPlain(Decimal(n))
  {
  }

  // ---- arrays -----------------------------------------------------------

  lemma PrettyBreak(style: Style, depth: nat)
    requires style.indent >= 0
    ensures Break(style.indent, depth) == Line(style.indent * depth)
  {
    SpacesAre(style.indent * depth);
  }

  lemma ItemsParts(items: seq<Json>, depth: nat, style: Style)
    requires items != [] && style.indent >= 0
    ensures var v, more := ValueText(items[0], depth + 1, style), ItemsText(items[1..], false, depth, style);
      ItemsText(items, true, depth, style) == Line(style.indent * (depth + 1)) + (v + more)
      && ItemsText(items, false, depth, style) == "," + Line(style.indent * (depth + 1)) + (v + more)
    ensures var k := Compact(style);
      var v, more := ValueText(items[0], depth + 1, k), ItemsText(items[1..], false, depth, k);
      ItemsText(items, true, depth, k) == v + more && ItemsText(items, false, depth, k) == "," + (v + more)
  {
    hide ItemsText, ValueText, Lead, Line;
    LeadsAre(depth, style);
    LeadItem(items, true, depth, style);
    LeadItem(items, false, depth, style);
    LeadItem(items, true, depth, Compact(style));
    LeadItem(items, false, depth, Compact(style));
  }

  lemma LeadItem(items: seq<Json>, first: bool, depth: nat, style: Style)
    requires items != []
    ensures ItemsText(items, first, depth, style)
      == Lead(first, depth, style)
         + (ValueText(items[0], depth + 1, style) + ItemsText(items[1..], false, depth, style))
  {
    hide ValueText, Lead;
  }

  lemma {:induction false} ItemsBecome(items: seq<Json>, depth: nat, style: Style, rest: string)
    requires style.indent >= 0 && PlainItems(items, style.format)
    ensures Becomes(ItemsText(items, false, depth, Compact(style)), ItemsText(items, false, depth, style), depth + 1,
                    depth,
                    style.indent, rest)
    decreases items, 0
  {
    hide ValueText;
    if items == [] {
      CloseStep(']', depth, style.indent, rest);
      PrettyBreak(style, depth);
      hide LaidOut, Bare, Line;
      assert ItemsText(items, false, depth, Compact(style)) == "]";
    } else {
      var k, n := Compact(style), style.indent;
      ItemsParts(items, depth, style);
      var v, more := ValueText(items[0], depth + 1, k), ItemsText(items[1..], false, depth, k);
      CommaStep(depth + 1, n, v + more + rest);
      ItemBecomes(items, depth, style, rest);
      hide ItemsText, LaidOut, Bare, Line;
      Assoc(",", v + more, rest);
      var pv, pmore := ValueText(items[0], depth + 1, style), ItemsText(items[1..], false, depth, style);
      Assoc("," + Line(n * (depth + 1)), pv + pmore, LaidOut(Outside, depth, n, rest));
    }
  }

  /** The first item and the rest of the array. */
  lemma {:induction false} ItemBecomes(items: seq<Json>, depth: nat, style: Style, rest: string)
    requires items != [] && style.indent >= 0 && PlainItems(items, style.format)
    ensures var k := Compact(style);
      Becomes(ValueText(items[0], depth + 1, k) + ItemsText(items[1..], false, depth, k),
              ValueText(items[0], depth + 1, style) + ItemsText(items[1..], false, depth, style), depth + 1, depth,
              style.indent, rest)
    decreases items, 0, 0
  {
    hide ValueText, ItemsText, Becomes;
    var k, n := Compact(style), style.indent;
    var more := ItemsText(items[1..], false, depth, k);
    ValueBecomes(items[0], depth + 1, style, more + rest);
    ItemsBecome(items[1..], depth, style, rest);
    Joins(ValueText(items[0], depth + 1, k), ValueText(items[0], depth + 1, style), more,
          ItemsText(items[1..], false, depth, style), depth + 1, depth + 1, depth, n, rest);
  }

  lemma {:induction false} ArrayBecomes(items: seq<Json>, depth: nat, style: Style, rest: string)
    requires items != [] && style.indent >= 0 && PlainItems(items, style.format)
    ensures Becomes("[" + ItemsText(items, true, depth, Compact(style)), "[" + ItemsText(items, true, depth, style),
                    depth,
                    depth, style.indent, rest)
    decreases items, 1
  {
    hide ValueText;
    var k, n := Compact(style), style.indent;
    ItemsParts(items, depth, style);
    var v, more := ValueText(items[0], depth + 1, k), ItemsText(items[1..], false, depth, k);
    ValueStarts(items[0], depth + 1, k);
    OpenStep('[', depth, n, v + more + rest);
    ItemBecomes(items, depth, style, rest);
    hide ItemsText, LaidOut, Bare, Line;
    Assoc("[", v + more, rest);
    var pv, pmore := ValueText(items[0], depth + 1, style), ItemsText(items[1..], false, depth, style);
    var line := Line(n * (depth + 1));
    Assoc("[", line, pv + pmore);
    Assoc("[" + line, pv + pmore, LaidOut(Outside, depth, n, rest));
  }

  // ---- objects ----------------------------------------------------------

  /** A member and the rest of the object. */
  function MemberOnward(members: seq<Member>, depth: nat, style: Style): string
    requires members != []
  {
    StringText(members[0].key, style.asciiOnly)
    + (Colon(style.indent)
       + (ValueText(members[0].value, depth + 1, style) + MembersText(members[1..], false, depth, style)))
  }

  lemma LeadMember(members: seq<Member>, first: bool, depth: nat, style: Style)
    requires members != []
    ensures MembersText(members, first, depth, style) == Lead(first, depth, style) + MemberOnward(members, depth, style)
  {
    hide ValueText, StringText, Colon, Lead;
  }

  lemma LeadsAre(depth: nat, style: Style)
    requires style.indent >= 0
    ensures Lead(true, depth, style) == Line(style.indent * (depth + 1))
    ensures Lead(false, depth, style) == "," + Line(style.indent * (depth + 1))
    ensures Lead(true, depth, Compact(style)) == "" && Lead(false, depth, Compact(style)) == ","
  {
    PrettyBreak(style, depth + 1);
    hide Line;
  }

  lemma MembersParts(members: seq<Member>, depth: nat, style: Style)
    requires members != [] && style.indent >= 0
    ensures var more := MemberOnward(members, depth, style);
      MembersText(members, true, depth, style) == Line(style.indent * (depth + 1)) + more
      && MembersText(members, false, depth, style) == "," + Line(style.indent * (depth + 1)) + more
    ensures var k := Compact(style);
      MembersText(members, true, depth, k) == MemberOnward(members, depth, k)
      && MembersText(members, false, depth, k) == "," + MemberOnward(members, depth, k)
  {
    hide MembersText, MemberOnward, Lead, Line;
    LeadsAre(depth, style);
    LeadMember(members, true, depth, style);
    LeadMember(members, false, depth, style);
    LeadMember(members, true, depth, Compact(style));
    LeadMember(members, false, depth, Compact(style));
  }

  lemma {:induction false} MembersBecome(members: seq<Member>, depth: nat, style: Style, rest: string)
    requires style.indent >= 0 && PlainMembers(members, style.format)
    ensures Becomes(MembersText(members, false, depth, Compact(style)), MembersText(members, false, depth, style),
                    depth + 1, depth, style.indent, rest)
    decreases members, 0
  {
    hide ValueText, StringText;
    if members == [] {
      CloseStep('}', depth, style.indent, rest);
      PrettyBreak(style, depth);
      hide LaidOut, Bare, Line;
      assert MembersText(members, false, depth, Compact(style)) == "}";
    } else {
      var k, n := Compact(style), style.indent;
      MembersParts(members, depth, style);
      MemberBecomes(members, depth, style, rest);
      var more, pmore := MemberOnward(members, depth, k), MemberOnward(members, depth, style);
      CommaStep(depth + 1, n, more + rest);
      hide MembersText, MemberOnward, LaidOut, Bare, Line;
      Assoc(",", more, rest);
      Assoc("," + Line(n * (depth + 1)), pmore, LaidOut(Outside, depth, n, rest));
    }
  }

  lemma ColonBecomes(open: nat, style: Style, rest: string)
    requires style.indent >= 0
    ensures Becomes(Colon(Compact(style).indent), Colon(style.indent), open, open, style.indent, rest)
  {
    ColonStep(open, style.indent, rest);
    hide LaidOut, Bare;
  }

  lemma KeyBecomes(key: string, open: nat, style: Style, rest: string)
    requires style.indent >= 0
    ensures Becomes(StringText(key, Compact(style).asciiOnly), StringText(key, style.asciiOnly), open, open,
                    style.indent,
                    rest)
  {
    StringPasses(key, style.asciiOnly, open, style.indent, rest);
  }

  lemma {:induction false} MemberBecomes(members: seq<Member>, depth: nat, style: Style, rest: string)
    requires members != [] && style.indent >= 0 && PlainMembers(members, style.format)
    ensures Becomes(MemberOnward(members, depth, Compact(style)), MemberOnward(members, depth, style), depth + 1, depth,
                    style.indent, rest)
    decreases members, 0, 0
  {
    hide ValueText, MembersText, StringText, Becomes, Colon;
    var k, n := Compact(style), style.indent;
    var m := members[0];
    var v, more := ValueText(m.value, depth + 1, k), MembersText(members[1..], false, depth, k);
    var pv, pmore := ValueText(m.value, depth + 1, style), MembersText(members[1..], false, depth, style);
    ValueBecomes(m.value, depth + 1, style, more + rest);
    MembersBecome(members[1..], depth, style, rest);
    Joins(v, pv, more, pmore, depth + 1, depth + 1, depth, n, rest);
    ColonBecomes(depth + 1, style, v + more + rest);
    Joins(Colon(k.indent), Colon(n), v + more, pv + pmore, depth + 1, depth + 1, depth, n, rest);
    var after, pafter := Colon(k.indent) + (v + more), Colon(n) + (pv + pmore);
    KeyBecomes(m.key, depth + 1, style, after + rest);
    Joins(StringText(m.key, k.asciiOnly), StringText(m.key, style.asciiOnly), after, pafter, depth + 1, depth + 1,
          depth, n,
          rest);
  }

  lemma {:induction false} ObjectBecomes(members: seq<Member>, depth: nat, style: Style, rest: string)
    requires members != [] && style.indent >= 0 && PlainMembers(members, style.format)
    ensures Becomes("{" + MembersText(members, true, depth, Compact(style)),
                    "{" + MembersText(members, true, depth, style),
                    depth, depth, style.indent, rest)
    decreases members, 1
  {
    hide ValueText;
    var k, n := Compact(style), style.indent;
    MembersParts(members, depth, style);
    var more, pmore := MemberOnward(members, depth, k), MemberOnward(members, depth, style);
    KeyStarts(members, depth, k);
    OpenStep('{', depth, n, more + rest);
    MemberBecomes(members, depth, style, rest);
    hide MembersText, MemberOnward, LaidOut, Bare, Line;
    var line := Line(n * (depth + 1));
    Assoc("{", more, rest);
    Assoc("{", line, pmore);
    Assoc("{" + line, pmore, LaidOut(Outside, depth, n, rest));
  }

  lemma KeyStarts(members: seq<Member>, depth: nat, style: Style)
    requires members != []
    ensures MemberOnward(members, depth, style) != "" && MemberOnward(members, depth, style)[0] == '"'
  {
  }

  // ---- whole documents --------------------------------------------------

  /** Squeezing takes out just what laying out puts in. */
  lemma {:induction false} SqueezeLine(n: nat, rest: string)
    ensures Squeezed(Outside, Line(n) + rest) == Squeezed(Outside, rest)
  {
    var spaces := seq(n, _ => ' ');
    var t := Line(n) + rest;
    assert t[0] == '\n' && t[1..] == spaces + rest;
    SqueezeSpaces(n, rest);
  }

  lemma {:induction false} SqueezeSpaces(n: nat, rest: string)
    ensures Squeezed(Outside, seq(n, _ => ' ') + rest) == Squeezed(Outside, rest)
  {
    var t := seq(n, _ => ' ') + rest;
    if n == 0 {
      assert t == rest;
    } else {
      SqueezeSpaces(n - 1, rest);
      assert t[0] == ' ' && t[1..] == seq(n - 1, _ => ' ') + rest;
    }
  }

  lemma SqueezeOne(place: Place, c: char, rest: string)
    requires place != Outside || !IsBlank(c)
    ensures Squeezed(place, [c] + rest) == [c] + Squeezed(Step(place, c), rest)
  {
    assert ([c] + rest)[1..] == rest;
  }

  lemma {:induction false} SqueezeLaidOut(place: Place, open: nat, indent: nat, t: string)
    requires Bare(place, t)
    ensures Squeezed(place, LaidOut(place, open, indent, t)) == t
    decreases |t|
  {
    hide Squeezed;
    if t == "" {
      NothingSqueezed(place);
    } else {
      var c, rest := t[0], t[1..];
      assert t == [c] + rest;
      if place == Outside && Opens(c) && rest != "" && Closes(rest[0]) {
        SqueezeLaidOut(Outside, open, indent, rest[1..]);
        SqueezeOne(place, c, [rest[0]] + LaidOut(Outside, open, indent, rest[1..]));
        SqueezeOne(Outside, rest[0], LaidOut(Outside, open, indent, rest[1..]));
        assert [c, rest[0]] + LaidOut(Outside, open, indent, rest[1..])
          == [c] + ([rest[0]] + LaidOut(Outside, open, indent, rest[1..]));
        assert t == [c] + ([rest[0]] + rest[1..]);
      } else {
        OneLaidOut(place, open, indent, c, rest);
      }
    }
  }

  lemma NothingSqueezed(place: Place)
    ensures Squeezed(place, "") == ""
  {
  }

  lemma BareStep(place: Place, c: char, rest: string)
    requires Bare(place, [c] + rest)
    ensures Bare(Step(place, c), rest) && (place == Outside ==> !IsBlank(c))
  {
    assert ([c] + rest)[1..] == rest;
  }

  lemma OtherStep(place: Place, open: nat, indent: nat, c: char, rest: string)
    requires place != Outside || (!Opens(c) && !(Closes(c) && open > 0) && c != ',' && c != ':')
    ensures LaidOut(place, open, indent, [c] + rest) == [c] + LaidOut(Step(place, c), open, indent, rest)
  {
    assert ([c] + rest)[1..] == rest;
  }

  lemma LastOpenStep(c: char, open: nat, indent: nat)
    requires Opens(c)
    ensures LaidOut(Outside, open, indent, [c] + "")
      == [c] + Line(indent * (open + 1)) + LaidOut(Outside, open + 1, indent, "")
  {
  }

  lemma {:induction false} OneLaidOut(place: Place, open: nat, indent: nat, c: char, rest: string)
    requires Bare(place, [c] + rest) && !(place == Outside && Opens(c) && rest != "" && Closes(rest[0]))
    ensures Squeezed(place, LaidOut(place, open, indent, [c] + rest)) == [c] + rest
    decreases |rest| + 1, 0
  {
    BareStep(place, c, rest);
    hide Squeezed, Line, LaidOut, Bare;
    if place == Outside && Opens(c) {
      var more := LaidOut(Outside, open + 1, indent, rest);
      SqueezeLaidOut(Outside, open + 1, indent, rest);
      if rest == "" {
        LastOpenStep(c, open, indent);
      } else {
        OpenStep(c, open, indent, rest);
      }
      Assoc([c], Line(indent * (open + 1)), more);
      SqueezeOne(place, c, Line(indent * (open + 1)) + more);
      SqueezeLine(indent * (open + 1), more);
    } else if place == Outside && Closes(c) && open > 0 {
      var more := LaidOut(Outside, open - 1, indent, rest);
      SqueezeLaidOut(Outside, open - 1, indent, rest);
      CloseStep(c, open - 1, indent, rest);
      Assoc(Line(indent * (open - 1)), [c], more);
      SqueezeLine(indent * (open - 1), [c] + more);
      SqueezeOne(place, c, more);
    } else if place == Outside && c == ',' {
      var more := LaidOut(Outside, open, indent, rest);
      SqueezeLaidOut(Outside, open, indent, rest);
      CommaStep(open, indent, rest);
      Assoc([c], Line(indent * open), more);
      SqueezeOne(place, c, Line(indent * open) + more);
      SqueezeLine(indent * open, more);
    } else if place == Outside && c == ':' {
      var more := LaidOut(Outside, open, indent, rest);
      SqueezeLaidOut(Outside, open, indent, rest);
      ColonStep(open, indent, rest);
      Assoc([c], " ", more);
      SqueezeOne(place, c, " " + more);
      SqueezeSpace(more);
    } else {
      SqueezeLaidOut(Step(place, c), open, indent, rest);
      OtherStep(place, open, indent, c, rest);
      SqueezeOne(place, c, LaidOut(Step(place, c), open, indent, rest));
    }
  }

  lemma SqueezeSpace(rest: string)
    ensures Squeezed(Outside, " " + rest) == Squeezed(Outside, rest)
  {
    assert (" " + rest)[1..] == rest;
  }

  /** Compact text has no white space outside strings and no line break at all, and pretty text is that text laid out;
      without the white space outside strings it is the compact text again. */
  lemma PrettyIsLaidOut(v: Json, style: Style)
    requires style.indent >= 0 && PlainNumbers(v, style.format)
    ensures Bare(Outside, Dump(v, Compact(style)))
    ensures Dump(v, style) == LaidOut(Outside, 0, style.indent, Dump(v, Compact(style)))
    ensures Squeezed(Outside, Dump(v, style)) == Dump(v, Compact(style))
  {
    hide ValueText;
    ValueBecomes(v, 0, style, "");
    assert Dump(v, Compact(style)) + "" == Dump(v, Compact(style));
    SqueezeLaidOut(Outside, 0, style.indent, Dump(v, Compact(style)));
  }
}
