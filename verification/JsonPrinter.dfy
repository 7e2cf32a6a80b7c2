/** The printer of daemon/src/json.hpp: the text of every document in both modes and at any indent, and the writer that
    appends it piece by piece, each method of which appends just what one of these functions gives. */
module JsonPrinter {
  import opened Text
  import opened JsonValue

  /** `%.10g`, used only for numbers outside the integer path. */
  type NumberFormat = real -> string

  // ---- strings ----------------------------------------------------------

  /** What a string is printed as: characters (possibly behind a short escape) and \u escapes. */
  datatype Piece = Raw(c: char) | Unit(u: nat)

  function HexDigit(d: nat): char
    requires d < 16
  {
    if d < 10 then '0' + d as char else 'a' + (d - 10) as char
  }

  /** `\u%04x` */
  function UnitText(u: nat): string
    requires u < 0x10000
  {
    ['\\', 'u', HexDigit(u / 4096), HexDigit(u / 256 % 16), HexDigit(u / 16 % 16), HexDigit(u % 16)]
  }

  /** UTF-16 code units of a code point, as `writeEscapedCodePoint` splits it. */
  function CodeUnits(cp: nat): (r: seq<Piece>)
    requires cp < 0x200000
    ensures Spellable(r) && (forall i :: 0 <= i < |r| ==> r[i].Unit?)
  {
    if cp < 0x10000 then [Unit(cp)]
    else [Unit(0xD800 + (cp - 0x10000) / 1024), Unit(0xDC00 + (cp - 0x10000) % 1024)]
  }

  predicate IsContinuation(c: char) {
    0x80 <= c as int < 0xC0
  }

  /** The number of continuation bytes a lead byte announces; none for a stray byte. */
  function Extra(c: char): nat {
    var b := c as int;
    if 0xC0 <= b < 0xE0 then 1 else if 0xE0 <= b < 0xF0 then 2 else if 0xF0 <= b < 0xF8 then 3 else 0
  }

  function LeadBits(c: char): nat {
    var b := c as int;
    if b < 0xE0 then b % 32 else if b < 0xF0 then b % 16 else b % 8
  }

  /** Six more bits for each continuation byte. */
  function Accumulate(bits: nat, tail: string): nat
    decreases |tail|
  {
    if tail == [] then bits else Accumulate(bits * 64 + tail[0] as nat % 64, tail[1..])
  }

  predicate AllContinuation(s: string) {
    forall i :: 0 <= i < |s| ==> IsContinuation(s[i])
  }

  lemma {:induction false} AccumulateBound(bits: nat, tail: string, limit: nat)
    requires bits < limit && |tail| <= 3
    ensures Accumulate(bits, tail) < limit * (if |tail| == 0 then 1 else if |tail| == 1 then 64
                                              else if |tail| == 2 then 4096 else 262144)
    decreases |tail|
  {
    if tail != [] {
      AccumulateBound(bits * 64 + tail[0] as nat % 64, tail[1..], limit * 64);
    }
  }

  lemma SequenceBound(c: char, tail: string)
    requires Extra(c) > 0 && |tail| == Extra(c)
    ensures Accumulate(LeadBits(c), tail) < 0x200000
  {
    AccumulateBound(LeadBits(c), tail, if Extra(c) == 1 then 32 else if Extra(c) == 2 then 16 else 8);
  }

  /** One turn of the loop in `writeString`: the pieces for the front of `s`, and how much of it they use up. */
  function NextPieces(s: string, asciiOnly: bool): (r: (seq<Piece>, nat))
    requires s != []
    ensures 1 <= r.1 <= |s| && Spellable(r.0)
  {
    var c := s[0];
    if asciiOnly && c as int >= 0x80 then
      var extra := Extra(c);
      if extra == 0 then ([Unit(0xFFFD)], 1)
      else if extra >= |s| then ([Unit(0xFFFD)], |s|)
      else if !AllContinuation(s[1..1 + extra]) then ([Unit(0xFFFD)], 1)
      else
        SequenceBound(c, s[1..1 + extra]);
        (CodeUnits(Accumulate(LeadBits(c), s[1..1 + extra])), 1 + extra)
    else if c as int < 0x20 && ShortEscape(c) == [] then ([Unit(c as nat)], 1)
    else ([Raw(c)], 1)
  }

  function Pieces(s: string, asciiOnly: bool): (r: seq<Piece>)
    ensures Spellable(r)
  {
    if s == [] then []
    else
      var (first, used) := NextPieces(s, asciiOnly);
      first + Pieces(s[used..], asciiOnly)
  }

  predicate Spellable(ps: seq<Piece>) {
    forall i :: 0 <= i < |ps| && ps[i].Unit? ==> ps[i].u < 0x10000
  }

  function ShortEscape(c: char): string {
    if c == '"' then "\\\""
    else if c == '\\' then "\\\\"
    else if c == 8 as char then "\\b"
    else if c == 12 as char then "\\f"
    else if c == '\n' then "\\n"
    else if c == '\r' then "\\r"
    else if c == '\t' then "\\t"
    else []
  }

  function Spell(p: Piece): (s: string)
    requires p.Unit? ==> p.u < 0x10000
    ensures s != []
  {
    match p
    case Raw(c) => if ShortEscape(c) != [] then ShortEscape(c) else [c]
    case Unit(u) => UnitText(u)
  }

  function SpellAll(ps: seq<Piece>): string
    requires Spellable(ps)
  {
    if ps == [] then [] else Spell(ps[0]) + SpellAll(ps[1..])
  }

  lemma {:induction false} SpellAllAppend(a: seq<Piece>, b: seq<Piece>)
    requires Spellable(a) && Spellable(b)
    ensures SpellAll(a + b) == SpellAll(a) + SpellAll(b)
  {
    hide SpellAll;
    if a == [] {
      assert a + b == b && [] + SpellAll(b) == SpellAll(b);
      NothingSpelt();
    } else {
      SpellStep(a, b);
      SpellAllAppend(a[1..], b);
      Assoc(Spell(a[0]), SpellAll(a[1..]), SpellAll(b));
    }
  }

  lemma NothingSpelt()
    ensures SpellAll([]) == []
  {
  }

  lemma SpellStep(a: seq<Piece>, b: seq<Piece>)
    requires a != [] && Spellable(a) && Spellable(b)
    ensures SpellAll(a + b) == Spell(a[0]) + SpellAll(a[1..] + b) && SpellAll(a) == Spell(a[0]) + SpellAll(a[1..])
  {
    hide Spell;
    assert (a + b)[1..] == a[1..] + b && (a + b)[0] == a[0];
  }

  function StringText(s: string, asciiOnly: bool): string {
    "\"" + SpellAll(Pieces(s, asciiOnly)) + "\""
  }

  // ---- numbers ----------------------------------------------------------

  /** The numbers that are printed with `%lld`. */
  predicate OnIntegerPath(n: real) {
    n == n.Floor as real && -9000000000000000.0 < n < 9000000000000000.0
  }

  function NumberText(n: real, format: NumberFormat): string {
    if OnIntegerPath(n) then Decimal(n.Floor) else format(n)
  }

  // ---- values -----------------------------------------------------------

  function Spaces(n: nat): (s: string)
    ensures |s| == n && forall i :: 0 <= i < n ==> s[i] == ' '
  {
    if n == 0 then [] else [' '] + Spaces(n - 1)
  }

  /** The line break and padding before an item (or before a closing bracket), when pretty. */
  function Break(indent: int, depth: nat): string {
    if indent >= 0 then "\n" + Spaces(indent * depth) else []
  }

  function Colon(indent: int): string {
    if indent >= 0 then ": " else ":"
  }

  datatype Style = Style(indent: int, asciiOnly: bool, format: NumberFormat)

  function ValueText(v: Json, depth: nat, style: Style): string {
    match v
    case Null => "null"
    case Bool(b) => if b then "true" else "false"
    case Number(n) => NumberText(n, style.format)
    case String(s) => StringText(s, style.asciiOnly)
    case Array(items) =>
      if items == [] then "[]" else "[" + ItemsText(items, true, depth, style)
    case Object(members) =>
      if members == [] then "{}" else "{" + MembersText(members, true, depth, style)
  }

  /** The rest of an array: its remaining items and the closing bracket. */
  function ItemsText(items: seq<Json>, first: bool, depth: nat, style: Style): string {
    if items == [] then Break(style.indent, depth) + "]"
    else
      Lead(first, depth, style) + (ValueText(items[0], depth + 1, style) + ItemsText(items[1..], false, depth, style))
  }

  function MembersText(members: seq<Member>, first: bool, depth: nat, style: Style): string {
    if members == [] then Break(style.indent, depth) + "}"
    else
      Lead(first, depth, style) + (StringText(members[0].key, style.asciiOnly) + (Colon(style.indent)
      + (ValueText(members[0].value, depth + 1, style) + MembersText(members[1..], false, depth, style))))
  }

  /** `dump` */
  function Dump(v: Json, style: Style): string {
    ValueText(v, 0, style)
  }

  lemma PiecesStep(s: string, i: nat, asciiOnly: bool)
    requires i < |s|
    ensures i + NextPieces(s[i..], asciiOnly).1 <= |s|
    ensures SpellAll(Pieces(s[i..], asciiOnly))
         == SpellAll(NextPieces(s[i..], asciiOnly).0)
           + SpellAll(Pieces(s[i + NextPieces(s[i..], asciiOnly).1..], asciiOnly))
  {
    hide NextPieces, Spell;
    var rest := s[i..];
    var (first, used) := NextPieces(rest, asciiOnly);
    assert rest[used..] == s[i + used..];
    SpellAllAppend(first, Pieces(rest[used..], asciiOnly));
  }

  lemma Assoc(a: string, b: string, c: string)
    ensures a + b + c == a + (b + c)
  {
  }

  /** `out` with the rest of the string's body still to come. */
  function Completed(out: string, s: string, i: nat, asciiOnly: bool): string
    requires i <= |s|
  {
    out + SpellAll(Pieces(s[i..], asciiOnly))
  }

  lemma CompletedStep(out: string, s: string, i: nat, asciiOnly: bool)
    requires i < |s|
    ensures var (first, used) := NextPieces(s[i..], asciiOnly);
      i + used <= |s| && Completed(out, s, i, asciiOnly) == Completed(out + SpellAll(first), s, i + used, asciiOnly)
  {
    hide NextPieces, SpellAll, Pieces;
    PiecesStep(s, i, asciiOnly);
    var (first, used) := NextPieces(s[i..], asciiOnly);
    Assoc(out, SpellAll(first), SpellAll(Pieces(s[i + used..], asciiOnly)));
  }

  lemma CompletedEnds(out: string, s: string, asciiOnly: bool)
    ensures Completed(out, s, |s|, asciiOnly) == out
    ensures Completed(out, s, 0, asciiOnly) == out + SpellAll(Pieces(s, asciiOnly))
  {
    assert s[|s|..] == [] && s[0..] == s;
  }

  /** What precedes an item: a comma unless it is the first, then the line break. */
  function Lead(first: bool, depth: nat, style: Style): string {
    (if first then "" else ",") + Break(style.indent, depth + 1)
  }

  function MemberText(m: Member, first: bool, depth: nat, style: Style): string {
    Lead(first, depth, style) + StringText(m.key, style.asciiOnly) + Colon(style.indent)
      + ValueText(m.value, depth + 1, style)
  }

  lemma MembersTextStep(members: seq<Member>, first: bool, depth: nat, style: Style)
    requires members != []
    ensures MembersText(members, first, depth, style)
         == MemberText(members[0], first, depth, style) + MembersText(members[1..], false, depth, style)
  {
    var m := members[0];
    var lead, key, colon := Lead(first, depth, style), StringText(m.key, style.asciiOnly), Colon(style.indent);
    var value, rest := ValueText(m.value, depth + 1, style), MembersText(members[1..], false, depth, style);
    Assoc(colon, value, rest);
    Assoc(key, colon + value, rest);
    Assoc(lead, key + (colon + value), rest);
    Assoc(lead, key, colon + value);
    Assoc(lead + key, colon, value);
  }

  // ---- the methods ------------------------------------------------------

  /** The output string that `write` and its helpers append to. */
  class Writer {
    var out: string
    const style: Style

    constructor (style: Style)
      ensures out == "" && this.style == style
    {
      this.style := style;
      out := "";
    }

    method WriteEscapedCodePoint(codePoint: nat)
      requires codePoint < 0x200000
      modifies this
      ensures out == old(out) + SpellAll(CodeUnits(codePoint))
    {
      if codePoint < 0x10000 {
        out := out + UnitText(codePoint);
        assert SpellAll(CodeUnits(codePoint)) == UnitText(codePoint);
        return;
      }
      var value := codePoint - 0x10000;
      out := out + (UnitText(0xD800 + value / 1024) + UnitText(0xDC00 + value % 1024));
      var units := CodeUnits(codePoint);
      assert units[1..] == [units[1]] && units[1..][1..] == [];
      assert SpellAll(units) == UnitText(0xD800 + value / 1024) + SpellAll(units[1..]);
      assert SpellAll(units[1..]) == UnitText(0xDC00 + value % 1024) + SpellAll([]);
    }

    /** The inner loop of `writeString` over the continuation bytes. */
    method DecodeSequence(value: string, i: nat, extra: nat) returns (valid: bool, codePoint: nat)
      requires i + extra < |value| && Extra(value[i]) == extra > 0
      ensures valid == AllContinuation(value[i + 1..i + 1 + extra])
      ensures valid ==> codePoint == Accumulate(LeadBits(value[i]), value[i + 1..i + 1 + extra])
    {
      var end := i + 1 + extra;
      codePoint := LeadBits(value[i]);
      valid := true;
      var k := 1;
      while k <= extra
        invariant 1 <= k <= extra + 1
        invariant forall j :: i + 1 <= j < i + k ==> IsContinuation(value[j])
        invariant Accumulate(codePoint, value[i + k..end]) == Accumulate(LeadBits(value[i]), value[i + 1..end])
      {
        var continuation := value[i + k];
        if !IsContinuation(continuation) {
          valid := false;
          assert value[i + 1..end][k - 1] == continuation;
          return;
        }
        assert value[i + k..end][1..] == value[i + k + 1..end];
        codePoint := codePoint * 64 + continuation as nat % 64;
        k := k + 1;
      }
      assert value[i + k..end] == [];
    }

    /** One piece at the current position, spelled out. */
    method WritePlain(c: char)
      modifies this
      ensures out == old(out) + SpellAll(NextPieces([c], false).0)
    {
      assert forall p: Piece | p.Unit? ==> p.u < 0x10000 :: SpellAll([p]) == Spell(p) by {
        assert forall p: Piece :: [p][1..] == [];
      }
      if c == '"' { out := out + "\\\""; }
      else if c == '\\' { out := out + "\\\\"; }
      else if c == 8 as char { out := out + "\\b"; }
      else if c == 12 as char { out := out + "\\f"; }
      else if c == '\n' { out := out + "\\n"; }
      else if c == '\r' { out := out + "\\r"; }
      else if c == '\t' { out := out + "\\t"; }
      else if c as int < 0x20 { WriteEscapedCodePoint(c as nat); }
      else { out := out + [c]; }
    }

    /** One turn of the loop of `writeString`: the pieces at `i` are appended and skipped. */
    method WriteNext(value: string, i: nat) returns (next: nat)
      requires i < |value|
      modifies this
      ensures next == i + NextPieces(value[i..], style.asciiOnly).1
      ensures out == old(out) + SpellAll(NextPieces(value[i..], style.asciiOnly).0)
    {
      ghost var rest := value[i..];
      var c := value[i];
      next := i + 1;
      if style.asciiOnly && c as int >= 0x80 {
        SpellReplacement();
        var extra := Extra(c);
        if extra == 0 {
          out := out + UnitText(0xFFFD);
        } else if i + extra >= |value| {
          out := out + UnitText(0xFFFD);
          next := |value|;
        } else {
          assert rest[1..1 + extra] == value[i + 1..i + 1 + extra];
          SequenceBound(c, rest[1..1 + extra]);
          var valid, codePoint := DecodeSequence(value, i, extra);
          if !valid {
            out := out + UnitText(0xFFFD);
          } else {
            next := i + extra + 1;
            WriteEscapedCodePoint(codePoint);
          }
        }
      } else {
        WritePlain(c);
        assert NextPieces([c], false) == NextPieces(rest, style.asciiOnly);
      }
    }

    /** The loop of `writeString`. */
    method WriteBody(value: string)
      modifies this
      ensures out == old(out) + SpellAll(Pieces(value, style.asciiOnly))
    {
      hide NextPieces, Pieces, SpellAll, Completed;
      CompletedEnds(out, value, style.asciiOnly);
      var i := 0;
      while i < |value|
        invariant 0 <= i <= |value|
        invariant Completed(out, value, i, style.asciiOnly) == Completed(old(out), value, 0, style.asciiOnly)
      {
        CompletedStep(out, value, i, style.asciiOnly);
        i := WriteNext(value, i);
      }
      CompletedEnds(out, value, style.asciiOnly);
    }

    method WriteString(value: string)
      modifies this
      ensures out == old(out) + StringText(value, style.asciiOnly)
    {
      hide Pieces, SpellAll;
      ghost var body := SpellAll(Pieces(value, style.asciiOnly));
      out := out + "\"";
      WriteBody(value);
      Assoc(old(out), "\"", body);
      out := out + "\"";
      Assoc(old(out), "\"" + body, "\"");
    }

    lemma SpellReplacement()
      ensures SpellAll([Unit(0xFFFD)]) == UnitText(0xFFFD)
    {
      assert [Unit(0xFFFD)][1..] == [];
    }

    method WriteNumber(value: real)
      modifies this
      ensures out == old(out) + NumberText(value, style.format)
    {
      if value == value.Floor as real && -9000000000000000.0 < value < 9000000000000000.0 {
        out := out + Decimal(value.Floor);
      } else {
        out := out + style.format(value);
      }
    }

    /** `write` */
    method Write(v: Json, depth: nat)
      modifies this
      ensures out == old(out) + ValueText(v, depth, style)
      decreases v, 1
    {
      match v
      case Null => out := out + "null";
      case Bool(b) => out := out + if b then "true" else "false";
      case Number(n) => WriteNumber(n);
      case String(s) => WriteString(s);
      case Array(items) =>
        if items == [] {
          out := out + "[]";
        } else {
          WriteItems(v, depth);
        }
      case Object(members) =>
        if members == [] {
          out := out + "{}";
        } else {
          WriteMembers(v, depth);
        }
    }

    method WriteLead(first: bool, depth: nat)
      modifies this
      ensures out == old(out) + Lead(first, depth, style)
    {
      if !first {
        out := out + ",";
      }
      WriteBreak(depth + 1);
    }

    method WriteBreak(depth: nat)
      modifies this
      ensures out == old(out) + Break(style.indent, depth)
    {
      if style.indent >= 0 {
        out := out + "\n";
        out := out + Spaces(style.indent * depth);
      }
    }

    method WriteItems(v: Json, depth: nat)
      requires v.Array? && v.items != []
      modifies this
      ensures out == old(out) + ValueText(v, depth, style)
      decreases v, 0
    {
      var items := v.items;
      out := out + "[";
      ghost var start := out;
      var i := 0;
      while i < |items|
        invariant 0 <= i <= |items|
        invariant out + ItemsText(items[i..], i == 0, depth, style) == start + ItemsText(items, true, depth, style)
      {
        ghost var before := out;
        WriteLead(i == 0, depth);
        ghost var middle := out;
        Write(items[i], depth + 1);
        assert items[i..][1..] == items[i + 1..];
        ghost var rest := ItemsText(items[i + 1..], false, depth, style);
        Assoc(before, Lead(i == 0, depth, style), ValueText(items[i], depth + 1, style) + rest);
        Assoc(middle, ValueText(items[i], depth + 1, style), rest);
        i := i + 1;
      }
      assert items[i..] == [];
      ghost var done := out;
      WriteBreak(depth);
      out := out + "]";
      Assoc(done, Break(style.indent, depth), "]");
      Assoc(old(out), "[", ItemsText(items, true, depth, style));
    }

    method WriteColon()
      modifies this
      ensures out == old(out) + Colon(style.indent)
    {
      out := out + ":";
      if style.indent >= 0 {
        out := out + " ";
      }
    }

    method WriteMember(m: Member, first: bool, depth: nat)
      modifies this
      ensures out == old(out) + MemberText(m, first, depth, style)
      decreases m, 0
    {
      ghost var lead, key := Lead(first, depth, style), StringText(m.key, style.asciiOnly);
      WriteLead(first, depth);
      WriteString(m.key);
      Assoc(old(out), lead, key);
      WriteColon();
      Assoc(old(out), lead + key, Colon(style.indent));
      Assoc(old(out), lead + key + Colon(style.indent), ValueText(m.value, depth + 1, style));
      Write(m.value, depth + 1);
    }

    method WriteMembers(v: Json, depth: nat)
      requires v.Object? && v.members != []
      modifies this
      ensures out == old(out) + ValueText(v, depth, style)
      decreases v, 0
    {
      var members := v.members;
      out := out + "{";
      ghost var start := out;
      var i := 0;
      while i < |members|
        invariant 0 <= i <= |members|
        invariant out + MembersText(members[i..], i == 0, depth, style)
          == start + MembersText(members, true, depth, style)
      {
        ghost var before := out;
        WriteMember(members[i], i == 0, depth);
        assert members[i..][1..] == members[i + 1..];
        MembersTextStep(members[i..], i == 0, depth, style);
        Assoc(before, MemberText(members[i], i == 0, depth, style), MembersText(members[i + 1..], false, depth, style));
        i := i + 1;
      }
      assert members[i..] == [];
      ghost var done := out;
      WriteBreak(depth);
      out := out + "}";
      Assoc(done, Break(style.indent, depth), "}");
      Assoc(old(out), "{", MembersText(members, true, depth, style));
    }
  }
}
