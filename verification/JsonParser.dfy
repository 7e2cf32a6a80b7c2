/** The parser of daemon/src/json.hpp: what every step returns, on byte strings and offsets, and the cursor that takes
    the steps, each method of which equals one of these functions. */
module JsonParser {
  import opened Text
  import opened JsonValue

  /** The text of a failure is never empty, so an empty error means success. */
  type Problem = e: string | e != "" witness "?"

  datatype Parsed<+T> = Ok(value: T, pos: nat) | Err(error: Problem)

  /** What `std::stod` does with a token: throw, or read a value from its first `consumed` characters. */
  datatype Strtod = Threw | Read(value: real, consumed: nat)
  type NumberReader = string -> Strtod

  const MAX_DEPTH := 64

  function Message(text: string, pos: nat): Problem {
    text + " at offset " + Decimal(pos)
  }

  // ---- tokens -----------------------------------------------------------

  predicate IsSpace(c: char) {
    c == ' ' || c == '\t' || c == '\n' || c == '\r'
  }

  function Skip(t: string, p: nat): (r: nat)
    requires p <= |t|
    ensures p <= r <= |t|
    decreases |t| - p
  {
    if p < |t| && IsSpace(t[p]) then Skip(t, p + 1) else p
  }

  function Literal(t: string, p: nat, word: string, value: Json): (r: Parsed<Json>)
    requires p <= |t|
    ensures r.Ok? ==> p + |word| == r.pos <= |t|
  {
    if p + |word| <= |t| && t[p..p + |word|] == word then Ok(value, p + |word|) else Err(Message("invalid literal", p))
  }

  predicate IsNumberChar(c: char) {
    IsDigit(c) || c == '.' || c == 'e' || c == 'E' || c == '+' || c == '-'
  }

  /** The greedy scan: it does not look at the grammar of a number at all. */
  function NumberEnd(t: string, p: nat): (r: nat)
    requires p <= |t|
    ensures p <= r <= |t|
    decreases |t| - p
  {
    if p < |t| && IsNumberChar(t[p]) then NumberEnd(t, p + 1) else p
  }

  function Unsigned(token: string): string {
    if token != [] && (token[0] == '-' || token[0] == '+') then token[1..] else token
  }

  /** An optional sign and digits only, small enough for a double to hold the value exactly. */
  predicate IsExactInteger(token: string) {
    var digits := Unsigned(token);
    digits != [] && AllDigits(digits) && DigitsValue(digits) <= 9007199254740992
  }

  /** `std::stod`: exact on such integers; anything else is left to the library. */
  function Stod(token: string, strtod: NumberReader): Strtod {
    if IsExactInteger(token) then
      var n: int := DigitsValue(Unsigned(token));
      Read((if token[0] == '-' then -n else n) as real, |token|)
    else strtod(token)
  }

  function ParseNumber(t: string, p: nat, strtod: NumberReader): (r: Parsed<Json>)
    requires p <= |t|
    ensures r.Ok? ==> p < r.pos <= |t|
  {
    var end := NumberEnd(t, p);
    if end == p then Err(Message("unexpected character", p))
    else
      match Stod(t[p..end], strtod)
      case Threw => Err(Message("malformed number", end))
      case Read(value, consumed) =>
        if consumed != end - p then Err(Message("malformed number", end)) else Ok(Number(value), end)
  }

  // ---- strings ----------------------------------------------------------

  function ByteChar(b: nat): char
    requires b < 256
  {
    b as char
  }

  /** `appendUtf8` */
  function Utf8(cp: nat): string
    requires cp < 0x200000
  {
    if cp < 0x80 then [ByteChar(cp)]
    else if cp < 0x800 then [ByteChar(0xC0 + cp / 64), ByteChar(0x80 + cp % 64)]
    else if cp < 0x10000 then [ByteChar(0xE0 + cp / 4096), ByteChar(0x80 + cp / 64 % 64), ByteChar(0x80 + cp % 64)]
    else [ByteChar(0xF0 + cp / 262144), ByteChar(0x80 + cp / 4096 % 64), ByteChar(0x80 + cp / 64 % 64),
          ByteChar(0x80 + cp % 64)]
  }

  /** The value of a hexadecimal digit, or 16 for any other character. */
  function HexValue(c: char): (h: nat)
    ensures h <= 16
  {
    if '0' <= c <= '9' then (c - '0') as nat
    else if 'a' <= c <= 'f' then (c - 'a') as nat + 10
    else if 'A' <= c <= 'F' then (c - 'A') as nat + 10
    else 16
  }

  /** What `4 - count` hexadecimal digits can add up to. */
  function HexLimit(count: nat): nat {
    if count == 4 then 1 else if count == 3 then 0x10 else if count == 2 then 0x100 else if count == 1 then 0x1000
      else 0x10000
  }

  function HexTail(t: string, p: nat, count: nat, acc: nat): (r: Parsed<nat>)
    requires p + count <= |t| && count <= 4
    requires acc < HexLimit(count)
    ensures r.Ok? ==> r.pos == p + count && r.value < 0x10000
    decreases count
  {
    if count == 0 then Ok(acc, p)
    else if HexValue(t[p]) == 16 then Err(Message("invalid hex digit", p + 1))
    else HexTail(t, p + 1, count - 1, acc * 16 + HexValue(t[p]))
  }

  lemma HexStep(t: string, p: nat, count: nat, acc: nat)
    requires p + count <= |t| && 0 < count <= 4 && acc < HexLimit(count)
    ensures HexValue(t[p]) == 16 ==> HexTail(t, p, count, acc) == Err(Message("invalid hex digit", p + 1))
    ensures HexValue(t[p]) < 16 ==> acc * 16 + HexValue(t[p]) < HexLimit(count - 1)
    ensures HexValue(t[p]) < 16 ==> HexTail(t, p, count, acc) == HexTail(t, p + 1, count - 1, acc * 16 + HexValue(t[p]))
  {
  }

  lemma HexStart(t: string, p: nat)
    requires p + 4 <= |t|
    ensures HexLimit(4) == 1 && ParseHex4(t, p) == HexTail(t, p, 4, 0)
  {
  }

  lemma HexEnd(t: string, p: nat, acc: nat)
    requires p <= |t| && acc < HexLimit(0)
    ensures HexTail(t, p, 0, acc) == Ok(acc, p)
  {
  }

  function ParseHex4(t: string, p: nat): (r: Parsed<nat>)
    requires p <= |t|
    ensures r.Ok? ==> r.pos == p + 4 <= |t| && r.value < 0x10000
  {
    if p + 4 > |t| then Err(Message("truncated \\u escape", p)) else HexTail(t, p, 4, 0)
  }

  predicate IsHigh(u: nat) {
    0xD800 <= u <= 0xDBFF
  }

  predicate IsLow(u: nat) {
    0xDC00 <= u <= 0xDFFF
  }

  /** The code point of a surrogate pair. */
  function Join(high: nat, low: nat): (cp: nat)
    requires IsHigh(high) && IsLow(low)
    ensures 0x10000 <= cp < 0x110000
  {
    0x10000 + (high - 0xD800) * 1024 + (low - 0xDC00)
  }

  /** The text of a \u escape whose digits start at `p`, pairing it with a second escape when it is a high surrogate. */
  function ParseUnicode(t: string, p: nat): (r: Parsed<string>)
    requires p <= |t|
    ensures r.Ok? ==> p < r.pos <= |t|
  {
    match ParseHex4(t, p)
    case Err(e) => Err(e)
    case Ok(cp, q) =>
      if IsHigh(cp) && q + 1 < |t| && t[q] == '\\' && t[q + 1] == 'u' then
        match ParseHex4(t, q + 2)
        case Err(e) => Err(e)
        case Ok(low, end) => Ok(if IsLow(low) then Utf8(Join(cp, low)) else Utf8(cp) + Utf8(low), end)
      else Ok(Utf8(cp), q)
  }

  /** The character a one-letter escape stands for; none for other letters. */
  function Unescape(c: char): string {
    if c == '"' || c == '\\' || c == '/' then [c]
    else if c == 'b' then [8 as char]
    else if c == 'f' then [12 as char]
    else if c == 'n' then "\n"
    else if c == 'r' then "\r"
    else if c == 't' then "\t"
    else []
  }

  /** The rest of a string from `p`, after `acc` has been read. */
  function StringTail(t: string, p: nat, acc: string): (r: Parsed<string>)
    requires p <= |t|
    ensures r.Ok? ==> p < r.pos <= |t|
    decreases |t| - p
  {
    if p == |t| then Err(Message("unterminated string", p))
    else if t[p] == '"' then Ok(acc, p + 1)
    else if t[p] != '\\' then StringTail(t, p + 1, acc + [t[p]])
    else if p + 1 == |t| then Err(Message("unterminated escape", p + 1))
    else if t[p + 1] == 'u' then
      match ParseUnicode(t, p + 2)
      case Err(e) => Err(e)
      case Ok(s, q) => StringTail(t, q, acc + s)
    else if Unescape(t[p + 1]) == [] then Err(Message("invalid escape", p + 2))
    else StringTail(t, p + 2, acc + Unescape(t[p + 1]))
  }

  function ParseString(t: string, p: nat): (r: Parsed<string>)
    requires p <= |t|
    ensures r.Ok? ==> p < r.pos <= |t|
  {
    if p == |t| || t[p] != '"' then Err(Message("expected string", p)) else StringTail(t, p + 1, "")
  }

  // ---- values -----------------------------------------------------------

  /** `parseValue` at nesting depth `d`. */
  function ParseValue(t: string, p: nat, d: nat, strtod: NumberReader): (r: Parsed<Json>)
    requires p <= |t|
    ensures r.Ok? ==> p < r.pos <= |t|
    decreases |t| - p, 2
  {
    if d + 1 > MAX_DEPTH then Err(Message("nesting too deep", p)) else ParseInner(t, p, d + 1, strtod)
  }

  function ParseInner(t: string, p: nat, d: nat, strtod: NumberReader): (r: Parsed<Json>)
    requires p <= |t|
    ensures r.Ok? ==> p < r.pos <= |t|
    decreases |t| - p, 1
  {
    var p := Skip(t, p);
    if p == |t| then Err(Message("unexpected end of input", p))
    else match t[p]
      case 'n' => Literal(t, p, "null", Null)
      case 't' => Literal(t, p, "true", Bool(true))
      case 'f' => Literal(t, p, "false", Bool(false))
      case '"' =>
        (match ParseString(t, p)
         case Err(e) => Err(e)
         case Ok(s, q) => Ok(String(s), q))
      case '[' => ParseArray(t, p, d, strtod)
      case '{' => ParseObject(t, p, d, strtod)
      case _ => ParseNumber(t, p, strtod)
  }

  function ParseArray(t: string, p: nat, d: nat, strtod: NumberReader): (r: Parsed<Json>)
    requires p < |t|
    ensures r.Ok? ==> p < r.pos <= |t|
    decreases |t| - p, 0
  {
    var q := Skip(t, p + 1);
    if q < |t| && t[q] == ']' then Ok(Array([]), q + 1) else ArrayTail(t, q, d, [], strtod)
  }

  /** The loop of `parseArray` with `acc` already pushed. */
  function ArrayTail(t: string, p: nat, d: nat, acc: seq<Json>, strtod: NumberReader): (r: Parsed<Json>)
    requires p <= |t|
    ensures r.Ok? ==> p < r.pos <= |t|
    decreases |t| - p, 3
  {
    match ParseValue(t, p, d, strtod)
    case Err(e) => Err(e)
    case Ok(v, q0) =>
      var q := Skip(t, q0);
      if q == |t| then Err(Message("unterminated array", q))
      else if t[q] == ',' then ArrayTail(t, q + 1, d, acc + [v], strtod)
      else if t[q] == ']' then Ok(Array(acc + [v]), q + 1)
      else Err(Message("expected ',' or ']'", q))
  }

  function ParseObject(t: string, p: nat, d: nat, strtod: NumberReader): (r: Parsed<Json>)
    requires p < |t|
    ensures r.Ok? ==> p < r.pos <= |t|
    decreases |t| - p, 0
  {
    var q := Skip(t, p + 1);
    if q < |t| && t[q] == '}' then Ok(Object([]), q + 1) else ObjectTail(t, q, d, [], strtod)
  }

  /** A key and the colon after it. */
  function ParseKey(t: string, p: nat): (r: Parsed<string>)
    requires p <= |t|
    ensures r.Ok? ==> p < r.pos <= |t|
  {
    match ParseString(t, Skip(t, p))
    case Err(e) => Err(e)
    case Ok(key, k) =>
      var q := Skip(t, k);
      if q == |t| || t[q] != ':' then Err(Message("expected ':'", q)) else Ok(key, q + 1)
  }

  function ParseMember(t: string, p: nat, d: nat, strtod: NumberReader): (r: Parsed<Member>)
    requires p <= |t|
    ensures r.Ok? ==> p < r.pos <= |t|
    decreases |t| - p, 3
  {
    match ParseKey(t, p)
    case Err(e) => Err(e)
    case Ok(key, k) =>
      match ParseValue(t, k, d, strtod)
      case Err(e) => Err(e)
      case Ok(v, q) => Ok(Member(key, v), q)
  }

  /** The loop of `parseObject` with `acc` already set. */
  function ObjectTail(t: string, p: nat, d: nat, acc: seq<Member>, strtod: NumberReader): (r: Parsed<Json>)
    requires p <= |t|
    ensures r.Ok? ==> p < r.pos <= |t|
    decreases |t| - p, 4
  {
    match ParseMember(t, p, d, strtod)
    case Err(e) => Err(e)
    case Ok(m, q0) =>
      var q := Skip(t, q0);
      if q == |t| then Err(Message("unterminated object", q))
      else if t[q] == ',' then ObjectTail(t, q + 1, d, SetMember(acc, m.key, m.value), strtod)
      else if t[q] == '}' then Ok(Object(SetMember(acc, m.key, m.value)), q + 1)
      else Err(Message("expected ',' or '}'", q))
  }

  /** `Json::parse`: the value and the error text. */
  function Parse(t: string, strtod: NumberReader): (Json, string) {
    match ParseValue(t, 0, 0, strtod)
    case Err(e) => (Null, e)
    case Ok(v, q) => if Skip(t, q) != |t| then (Null, "trailing data after JSON document") else (v, "")
  }

  // ---- the cursor -------------------------------------------------------

  class Parser {
    const text: string
    const strtod: NumberReader
    var pos: nat
    var depth: nat
    var error: string

    constructor (text: string, strtod: NumberReader)
      ensures this.text == text && this.strtod == strtod
      ensures pos == 0 && depth == 0 && error == ""
    {
      this.text := text;
      this.strtod := strtod;
      pos, depth, error := 0, 0, "";
    }

    ghost predicate Valid()
      reads this
    {
      pos <= |text| && depth <= MAX_DEPTH
    }

    /** The state after a step whose specified outcome is `r`. */
    ghost predicate Outcome<T>(r: Parsed<T>, ok: bool, out: T)
      reads this
    {
      Valid() && ok == r.Ok? && (if ok then out == r.value && pos == r.pos && error == "" else error == r.error)
    }

    method SkipWhitespace()
      requires Valid()
      modifies this`pos
      ensures Valid() && pos == Skip(text, old(pos))
    {
      while pos < |text|
        invariant pos <= |text|
        invariant Skip(text, old(pos)) == Skip(text, pos)
      {
        var c := text[pos];
        if c == ' ' || c == '\t' || c == '\n' || c == '\r' {
          pos := pos + 1;
        } else {
          break;
        }
      }
    }

    method Fail(message: string)
      modifies this`error
      ensures error == if old(error) == "" then Message(message, pos) else old(error)
    {
      if error == "" {
        error := message + " at offset " + Decimal(pos);
      }
    }

    method MatchLiteral(word: string, value: Json) returns (ok: bool, out: Json)
      requires Valid() && error == ""
      modifies this`pos, this`error
      ensures Outcome(Literal(text, old(pos), word, value), ok, out)
    {
      out := value;
      if |text| < pos + |word| || text[pos..pos + |word|] != word {
        Fail("invalid literal");
        return false, out;
      }
      pos := pos + |word|;
      ok := true;
    }

    method ReadNumber() returns (ok: bool, out: Json)
      requires Valid() && error == ""
      modifies this`pos, this`error
      ensures Outcome(ParseNumber(text, old(pos), strtod), ok, out)
    {
      var start := pos;
      out := Null;
      if pos < |text| && (text[pos] == '-' || text[pos] == '+') {
        pos := pos + 1;
      }
      while pos < |text|
        invariant start <= pos <= |text| && error == ""
        invariant NumberEnd(text, start) == NumberEnd(text, pos)
      {
        var c := text[pos];
        if ('0' <= c <= '9') || c == '.' || c == 'e' || c == 'E' || c == '+' || c == '-' {
          pos := pos + 1;
        } else {
          break;
        }
      }
      if pos == start {
        Fail("unexpected character");
        return false, out;
      }
      var token := text[start..pos];
      match Stod(token, strtod)
      case Threw =>
        Fail("malformed number");
        ok := false;
      case Read(value, consumed) =>
        if consumed != |token| {
          Fail("malformed number");
          return false, out;
        }
        ok, out := true, Number(value);
    }

    /** One turn of the loop of `parseHex4`, with `count` digits to go. */
    method ReadHexDigit(ghost count: nat, acc: nat) returns (ok: bool, out: nat)
      requires 0 < count <= 4 && pos + count <= |text| && acc < HexLimit(count) && error == ""
      modifies this`pos, this`error
      ensures pos == old(pos) + 1
      ensures ok ==> error == "" && out < HexLimit(count - 1)
      ensures ok ==> HexTail(text, old(pos), count, acc) == HexTail(text, pos, count - 1, out)
      ensures !ok ==> error != "" && HexTail(text, old(pos), count, acc) == Err(error)
    {
      HexStep(text, pos, count, acc);
      var c := text[pos];
      pos := pos + 1;
      ok, out := true, acc * 16;
      if '0' <= c <= '9' {
        out := out + (c - '0') as nat;
      } else if 'a' <= c <= 'f' {
        out := out + (c - 'a') as nat + 10;
      } else if 'A' <= c <= 'F' {
        out := out + (c - 'A') as nat + 10;
      } else {
        Fail("invalid hex digit");
        ok := false;
      }
    }

    method ReadHex4() returns (ok: bool, out: nat)
      requires Valid() && error == ""
      modifies this`pos, this`error
      ensures Outcome(ParseHex4(text, old(pos)), ok, out)
    {
      out := 0;
      if pos + 4 > |text| {
        Fail("truncated \\u escape");
        return false, out;
      }
      ok := true;
      hide HexTail, HexLimit, ParseHex4, Message;
      ghost var whole := ParseHex4(text, pos);
      HexStart(text, pos);
      var i := 0;
      while i < 4
        invariant 0 <= i <= 4
        invariant pos == old(pos) + i && error == "" && ok
        invariant out < HexLimit(4 - i) && HexTail(text, pos, 4 - i, out) == whole
      {
        ok, out := ReadHexDigit(4 - i, out);
        if !ok {
          return;
        }
        i := i + 1;
      }
      HexEnd(text, pos, out);
    }

    method ReadUnicode() returns (ok: bool, out: string)
      requires Valid() && error == ""
      modifies this`pos, this`error
      ensures Outcome(ParseUnicode(text, old(pos)), ok, out)
    {
      out := "";
      var cp;
      ok, cp := ReadHex4();
      if !ok {
        return;
      }
      if 0xD800 <= cp <= 0xDBFF && pos + 1 < |text| && text[pos] == '\\' && text[pos + 1] == 'u' {
        pos := pos + 2;
        var low;
        ok, low := ReadHex4();
        if !ok {
          return;
        }
        if 0xDC00 <= low <= 0xDFFF {
          return true, Utf8(Join(cp, low));
        }
        return true, Utf8(cp) + Utf8(low);
      }
      out := Utf8(cp);
    }

    method ReadString() returns (ok: bool, out: string)
      requires Valid() && error == ""
      modifies this`pos, this`error
      ensures Outcome(ParseString(text, old(pos)), ok, out)
    {
      out := "";
      if pos >= |text| || text[pos] != '"' {
        Fail("expected string");
        return false, out;
      }
      pos := pos + 1;
      while true
        invariant old(pos) < pos <= |text| && Valid() && error == ""
        invariant StringTail(text, pos, out) == ParseString(text, old(pos))
        decreases |text| - pos
      {
        if pos >= |text| {
          Fail("unterminated string");
          return false, out;
        }
        var c := text[pos];
        pos := pos + 1;
        if c == '"' {
          return true, out;
        }
        if c != '\\' {
          out := out + [c];
          continue;
        }
        if pos >= |text| {
          Fail("unterminated escape");
          return false, out;
        }
        var esc := text[pos];
        pos := pos + 1;
        if esc == 'u' {
          var s;
          ok, s := ReadUnicode();
          if !ok {
            return;
          }
          out := out + s;
        } else if Unescape(esc) != [] {
          out := out + Unescape(esc);
        } else {
          Fail("invalid escape");
          return false, out;
        }
      }
    }

    method ReadValue() returns (ok: bool, out: Json)
      requires Valid() && error == ""
      modifies this
      ensures Outcome(ParseValue(text, old(pos), old(depth), strtod), ok, out) && depth == old(depth)
      decreases |text| - pos, 2
    {
      depth := depth + 1;
      if depth > MAX_DEPTH {
        depth := depth - 1;
        Fail("nesting too deep");
        return false, Null;
      }
      ok, out := ReadInner();
      depth := depth - 1;
    }

    method ReadInner() returns (ok: bool, out: Json)
      requires Valid() && error == ""
      modifies this
      ensures Outcome(ParseInner(text, old(pos), depth, strtod), ok, out) && depth == old(depth)
      decreases |text| - pos, 1
    {
      SkipWhitespace();
      if pos >= |text| {
        Fail("unexpected end of input");
        return false, Null;
      }
      match text[pos]
      case 'n' => ok, out := MatchLiteral("null", Null);
      case 't' => ok, out := MatchLiteral("true", Bool(true));
      case 'f' => ok, out := MatchLiteral("false", Bool(false));
      case '"' =>
        var s;
        ok, s := ReadString();
        out := String(s);
      case '[' => ok, out := ReadArray();
      case '{' => ok, out := ReadObject();
      case _ => ok, out := ReadNumber();
    }

    method ReadArray() returns (ok: bool, out: Json)
      requires Valid() && error == "" && pos < |text|
      modifies this
      ensures Outcome(ParseArray(text, old(pos), depth, strtod), ok, out) && depth == old(depth)
      decreases |text| - pos, 0
    {
      pos := pos + 1;
      var items := [];
      SkipWhitespace();
      if pos < |text| && text[pos] == ']' {
        pos := pos + 1;
        return true, Array(items);
      }
      out := Null;
      while true
        invariant old(pos) < pos <= |text| && depth == old(depth) && error == ""
        invariant ArrayTail(text, pos, depth, items, strtod) == ParseArray(text, old(pos), depth, strtod)
        decreases |text| - pos
      {
        var value;
        ok, value := ReadValue();
        if !ok {
          return;
        }
        items := items + [value];
        SkipWhitespace();
        if pos >= |text| {
          Fail("unterminated array");
          return false, out;
        }
        if text[pos] == ',' {
          pos := pos + 1;
          continue;
        }
        if text[pos] == ']' {
          pos := pos + 1;
          return true, Array(items);
        }
        Fail("expected ',' or ']'");
        return false, out;
      }
    }

    method ReadKey() returns (ok: bool, key: string)
      requires Valid() && error == ""
      modifies this`pos, this`error
      ensures Outcome(ParseKey(text, old(pos)), ok, key)
    {
      SkipWhitespace();
      ok, key := ReadString();
      if !ok {
        return;
      }
      SkipWhitespace();
      if pos >= |text| || text[pos] != ':' {
        Fail("expected ':'");
        return false, key;
      }
      pos := pos + 1;
    }

    method ReadMember() returns (ok: bool, out: Member)
      requires Valid() && error == ""
      modifies this
      ensures Outcome(ParseMember(text, old(pos), depth, strtod), ok, out) && depth == old(depth)
      decreases |text| - pos, 3
    {
      out := Member("", Null);
      var key, value;
      ok, key := ReadKey();
      if !ok {
        return;
      }
      ok, value := ReadValue();
      out := Member(key, value);
    }

    method ReadObject() returns (ok: bool, out: Json)
      requires Valid() && error == "" && pos < |text|
      modifies this
      ensures Outcome(ParseObject(text, old(pos), depth, strtod), ok, out) && depth == old(depth)
      decreases |text| - pos, 0
    {
      hide ParseMember, SetMember, Skip;
      pos := pos + 1;
      var members := [];
      SkipWhitespace();
      if pos < |text| && text[pos] == '}' {
        pos := pos + 1;
        return true, Object(members);
      }
      out := Null;
      while true
        invariant old(pos) < pos <= |text| && depth == old(depth) && error == ""
        invariant ObjectTail(text, pos, depth, members, strtod) == ParseObject(text, old(pos), depth, strtod)
        decreases |text| - pos
      {
        var m;
        ok, m := ReadMember();
        if !ok {
          return;
        }
        members := SetInPlace(members, m.key, m.value);
        SkipWhitespace();
        if pos >= |text| {
          Fail("unterminated object");
          return false, out;
        }
        if text[pos] == ',' {
          pos := pos + 1;
          continue;
        }
        if text[pos] == '}' {
          pos := pos + 1;
          return true, Object(members);
        }
        Fail("expected ',' or '}'");
        return false, out;
      }
    }
  }

  /** `Json::parse` */
  method ParseDocument(text: string, strtod: NumberReader) returns (value: Json, error: string)
    ensures (value, error) == Parse(text, strtod)
  {
    var parser := new Parser(text, strtod);
    var ok, v := parser.ReadValue();
    if !ok {
      return Null, parser.error;
    }
    parser.SkipWhitespace();
    if parser.pos != |text| {
      return Null, "trailing data after JSON document";
    }
    return v, "";
  }
}
