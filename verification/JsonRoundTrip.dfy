/** Printing a document and parsing its text, for every document, every indent and both printing modes: what each value
    becomes, piece by piece. */
module JsonRoundTrip {
  import opened Text
  import opened JsonValue
  import opened JsonPrinter
  import opened JsonParser
  import opened JsonStrings

  /** The text of the number is a number token that `std::stod` reads to its end. */
  predicate Readable(n: real, format: NumberFormat, strtod: NumberReader) {
    OnIntegerPath(n)
    || (format(n) != "" && (forall i :: 0 <= i < |format(n)| ==> IsNumberChar(format(n)[i]))
        && Stod(format(n), strtod).Read? && Stod(format(n), strtod).consumed == |format(n)|)
  }

  /** What the number becomes by being printed and read. */
  function ReadNumber(n: real, format: NumberFormat, strtod: NumberReader): real {
    if OnIntegerPath(n) then n
    else match Stod(format(n), strtod)
      case Read(value, _) => value
      case Threw => n
  }

  predicate ReadableNumbers(v: Json, format: NumberFormat, strtod: NumberReader) {
    match v
    case Number(n) => Readable(n, format, strtod)
    case Array(items) => ReadableItems(items, format, strtod)
    case Object(members) => ReadableMembers(members, format, strtod)
    case _ => true
  }

  predicate ReadableItems(items: seq<Json>, format: NumberFormat, strtod: NumberReader) {
    items == [] || (ReadableNumbers(items[0], format, strtod) && ReadableItems(items[1..], format, strtod))
  }

  predicate ReadableMembers(members: seq<Member>, format: NumberFormat, strtod: NumberReader) {
    members == []
    || (ReadableNumbers(members[0].value, format, strtod) && ReadableMembers(members[1..], format, strtod))
  }

  /** What a document becomes by being printed and parsed: numbers and strings are reread, members are set one by
      one. */
  function Image(v: Json, style: Style, strtod: NumberReader): Json {
    match v
    case Number(n) => Number(ReadNumber(n, style.format, strtod))
    case String(s) => String(Reread(s, style.asciiOnly))
    case Array(items) => Array(ImageOfItems(items, style, strtod))
    case Object(members) => Object(SetAll([], members, style, strtod))
    case _ => v
  }

  function ImageOfItems(items: seq<Json>, style: Style, strtod: NumberReader): (r: seq<Json>)
    ensures |r| == |items|
  {
    if items == [] then [] else [Image(items[0], style, strtod)] + ImageOfItems(items[1..], style, strtod)
  }

  function SetAll(acc: seq<Member>, members: seq<Member>, style: Style, strtod: NumberReader): seq<Member>
    decreases members
  {
    if members == [] then acc
    else
      SetAll(SetMember(acc, Reread(members[0].key, style.asciiOnly), Image(members[0].value, style, strtod)),
             members[1..], style, strtod)
  }

  // ---- what stands between values ---------------------------------------

  /** A number token cannot run past this point. */
  predicate Stops(t: string, p: nat) {
    p >= |t| || !IsNumberChar(t[p])
  }

  lemma {:induction false} SkipSpaces(t: string, p: nat, n: nat)
    requires p + n < |t| && !IsSpace(t[p + n])
    requires forall k :: p <= k < p + n ==> IsSpace(t[k])
    ensures Skip(t, p) == p + n
    decreases n
  {
    if n > 0 {
      SkipSpaces(t, p + 1, n - 1);
    }
  }

  /** Padding is skipped, wherever something else follows it. */
  lemma SkipBreak(t: string, p: nat, indent: int, depth: nat)
    requires At(t, p, Break(indent, depth))
    requires p + |Break(indent, depth)| < |t| && !IsSpace(t[p + |Break(indent, depth)|])
    ensures Skip(t, p) == p + |Break(indent, depth)|
  {
    var w := Break(indent, depth);
    forall k | p <= k < p + |w| ensures IsSpace(t[k]) {
      AtIndex(t, p, w, k - p);
    }
    SkipSpaces(t, p, |w|);
  }

  lemma DecimalStart(n: int)
    ensures |Decimal(n)| > 0 && forall i :: 0 <= i < |Decimal(n)| ==> IsNumberChar(Decimal(n)[i])
  {
  }

  /** A printed value starts with a character that is neither padding nor a closing bracket. */
  lemma ValueStart(v: Json, depth: nat, style: Style, strtod: NumberReader)
    requires ReadableNumbers(v, style.format, strtod)
    ensures |ValueText(v, depth, style)| > 0
    ensures var c := ValueText(v, depth, style)[0]; !IsSpace(c) && c != ']' && c != '}'
  {
    if v.Number? {
      DecimalStart(v.n.Floor);
      assert IsNumberChar(ValueText(v, depth, style)[0]);
    }
  }

  lemma ItemsStart(items: seq<Json>, depth: nat, style: Style)
    ensures |ItemsText(items, false, depth, style)| > 0
    ensures ItemsText(items, false, depth, style)[0] in ",\n]"
  {
  }

  lemma MembersStart(members: seq<Member>, depth: nat, style: Style)
    ensures |MembersText(members, false, depth, style)| > 0
    ensures MembersText(members, false, depth, style)[0] in ",\n}"
  {
  }

  // ---- scalars ----------------------------------------------------------

  lemma {:induction false} ScanNumber(t: string, p: nat, n: nat)
    requires p + n <= |t| && Stops(t, p + n)
    requires forall k :: p <= k < p + n ==> IsNumberChar(t[k])
    ensures NumberEnd(t, p) == p + n
    decreases n
  {
    if n > 0 {
      ScanNumber(t, p + 1, n - 1);
    }
  }

  lemma {:induction false} DigitsBound(n: nat)
    requires n <= 9007199254740992
    ensures IsExactInteger(Digits(n))
  {
    DigitsReadBack(n);
    var s := Digits(n);
    assert IsDigit(s[0]);
  }

  lemma DecimalReads(n: int, strtod: NumberReader)
    requires -9007199254740992 <= n <= 9007199254740992
    ensures Stod(Decimal(n), strtod) == Read(n as real, |Decimal(n)|)
  {
    if n < 0 {
      DigitsReadBack(-n);
      assert Unsigned(Decimal(n)) == Digits(-n);
    } else {
      DigitsBound(n);
      DigitsReadBack(n);
      assert IsDigit(Digits(n)[0]);
      assert Unsigned(Decimal(n)) == Digits(n);
    }
  }

  lemma NumberReadBack(t: string, p: nat, n: int, strtod: NumberReader)
    requires -9007199254740992 <= n <= 9007199254740992
    requires At(t, p, Decimal(n)) && Stops(t, p + |Decimal(n)|)
    ensures ParseNumber(t, p, strtod) == Ok(Number(n as real), p + |Decimal(n)|)
    ensures IsNumberChar(t[p])
  {
    DecimalStart(n);
    DecimalReads(n, strtod);
    NumberTokenEnds(t, p, Decimal(n));
    TokenReads(t, p, Decimal(n), n as real, strtod);
  }

  lemma TokenReads(t: string, p: nat, w: string, value: real, strtod: NumberReader)
    requires w != "" && At(t, p, w) && NumberEnd(t, p) == p + |w|
    requires Stod(w, strtod) == Read(value, |w|)
    ensures ParseNumber(t, p, strtod) == Ok(Number(value), p + |w|)
  {
  }

  lemma NumberTokenEnds(t: string, p: nat, w: string)
    requires w != "" && At(t, p, w) && Stops(t, p + |w|)
    requires forall i :: 0 <= i < |w| ==> IsNumberChar(w[i])
    ensures NumberEnd(t, p) == p + |w| && IsNumberChar(t[p])
  {
    forall k | p <= k < p + |w| ensures IsNumberChar(t[k]) {
      AtIndex(t, p, w, k - p);
    }
    ScanNumber(t, p, |w|);
  }

  predicate IsScalarValue(v: Json) {
    !v.Array? && !v.Object?
  }

  lemma ScalarReadBack(v: Json, t: string, p: nat, d: nat, depth: nat, style: Style, strtod: NumberReader)
    requires IsScalarValue(v) && ReadableNumbers(v, style.format, strtod) && p <= |t|
    requires At(t, p, ValueText(v, depth, style)) && Stops(t, p + |ValueText(v, depth, style)|)
    ensures ParseInner(t, p, d, strtod) == Ok(Image(v, style, strtod), p + |ValueText(v, depth, style)|)
  {
    var w := ValueText(v, depth, style);
    ValueStart(v, depth, style, strtod);
    AtIndex(t, p, w, 0);
    assert Skip(t, p) == p;
    hide ParseInner, ParseNumber, ParseString, StringText, At, Skip, Decimal, Stod;
    match v
    case Null => LiteralReadBack(t, p, d, "null", v, strtod);
    case Bool(b) => LiteralReadBack(t, p, d, if b then "true" else "false", v, strtod);
    case Number(n) =>
      if OnIntegerPath(n) {
        NumberReadBack(t, p, n.Floor, strtod);
      } else {
        NumberTokenEnds(t, p, w);
        TokenReads(t, p, w, ReadNumber(n, style.format, strtod), strtod);
      }
      InnerReadsToken(t, p, d, strtod);
    case String(s) =>
      StringReadBack(t, p, s, style.asciiOnly);
      InnerReadsToken(t, p, d, strtod);
  }

  lemma LiteralReadBack(t: string, p: nat, d: nat, word: string, v: Json, strtod: NumberReader)
    requires p <= |t| && Skip(t, p) == p && At(t, p, word)
    requires (word == "null" && v == Null) || (word == "true" && v == Bool(true))
      || (word == "false" && v == Bool(false))
    ensures ParseInner(t, p, d, strtod) == Ok(v, p + |word|)
  {
    AtIndex(t, p, word, 0);
  }

  lemma InnerReadsToken(t: string, p: nat, d: nat, strtod: NumberReader)
    requires p < |t| && Skip(t, p) == p
    ensures IsNumberChar(t[p]) ==> ParseInner(t, p, d, strtod) == ParseNumber(t, p, strtod)
    ensures t[p] == '"' && ParseString(t, p).Ok? ==>
      ParseInner(t, p, d, strtod) == Ok(String(ParseString(t, p).value), ParseString(t, p).pos)
  {
    hide ParseNumber, ParseString, ParseArray, ParseObject, Literal;
  }

  // ---- the outcome of parsing at a depth --------------------------------

  /** Reading something `height` levels high at depth `d`: `v` up to `end` within the budget, an error beyond it. */
  ghost predicate ReadsAs(r: Parsed<Json>, d: nat, height: nat, v: Json, end: nat) {
    if d + height <= MAX_DEPTH then r == Ok(v, end) else r.Err?
  }

  lemma ValueIsInner(t: string, p: nat, d: nat, strtod: NumberReader)
    requires p <= |t| && d + 1 <= MAX_DEPTH
    ensures ParseValue(t, p, d, strtod) == ParseInner(t, Skip(t, p), d + 1, strtod)
  {
    SkipTwice(t, p);
  }

  lemma {:induction false} SkipTwice(t: string, p: nat)
    requires p <= |t|
    ensures Skip(t, Skip(t, p)) == Skip(t, p)
    decreases |t| - p
  {
    if p < |t| && IsSpace(t[p]) {
      SkipTwice(t, p + 1);
    }
  }

  /** The heart of the round trip: `q` is where the value's text stands, `p` where the parser is before padding. */
  lemma {:induction false} ValueReadBack(v: Json, t: string, p: nat, q: nat, d: nat, depth: nat, style: Style,
                                         strtod: NumberReader)
    requires ReadableNumbers(v, style.format, strtod) && p <= |t| && q == Skip(t, p)
    requires At(t, q, ValueText(v, depth, style)) && Stops(t, q + |ValueText(v, depth, style)|)
    ensures ReadsAs(ParseValue(t, p, d, strtod), d, Depth(v), Image(v, style, strtod),
                    q + |ValueText(v, depth, style)|)
    decreases v, 1
  {
    hide ParseValue, ParseInner, ReadsAs, ValueText, Image, At, Skip, Stops, ReadableNumbers, Depth, IsScalarValue;
    if d + 1 > MAX_DEPTH {
      BudgetSpent(v, t, p, d, Image(v, style, strtod), q + |ValueText(v, depth, style)|, strtod);
    } else {
      ValueIsInner(t, p, d, strtod);
      SkipTwice(t, p);
      if IsScalarValue(v) {
        ScalarReadBack(v, t, q, d + 1, depth, style, strtod);
        ScalarWithinBudget(v, d, Image(v, style, strtod), q + |ValueText(v, depth, style)|);
      } else {
        ContainerReadBack(v, t, q, d, depth, style, strtod);
      }
    }
  }

  lemma BudgetSpent(v: Json, t: string, p: nat, d: nat, image: Json, end: nat, strtod: NumberReader)
    requires p <= |t| && d + 1 > MAX_DEPTH
    ensures ReadsAs(ParseValue(t, p, d, strtod), d, Depth(v), image, end)
  {
  }

  lemma ScalarWithinBudget(v: Json, d: nat, image: Json, end: nat)
    requires IsScalarValue(v) && d + 1 <= MAX_DEPTH
    ensures ReadsAs(Ok(image, end), d, Depth(v), image, end)
  {
  }

  lemma {:induction false} ContainerReadBack(v: Json, t: string, p: nat, d: nat, depth: nat, style: Style,
                                             strtod: NumberReader)
    requires !IsScalarValue(v) && ReadableNumbers(v, style.format, strtod) && d + 1 <= MAX_DEPTH
    requires p <= |t| && Skip(t, p) == p && At(t, p, ValueText(v, depth, style))
    ensures ReadsAs(ParseInner(t, p, d + 1, strtod), d, Depth(v), Image(v, style, strtod),
                    p + |ValueText(v, depth, style)|)
    decreases v, 0
  {
    hide ParseInner, Skip, At, ItemsText, MembersText;
    if v == Array([]) || v == Object([]) {
      EmptyReadBack(t, p, d + 1, ValueText(v, depth, style), v, strtod);
    } else if v.Array? {
      ArrayReadBack(v.items, t, p, d + 1, depth, style, strtod);
    } else {
      ObjectReadBack(v.members, t, p, d + 1, depth, style, strtod);
    }
  }

  lemma {:induction false} ArrayReadBack(items: seq<Json>, t: string, p: nat, d: nat, depth: nat, style: Style,
                                         strtod: NumberReader)
    requires items != [] && ReadableItems(items, style.format, strtod)
    requires p <= |t| && Skip(t, p) == p && At(t, p, "[" + ItemsText(items, true, depth, style))
    ensures ReadsAs(ParseInner(t, p, d, strtod), d, DepthOfItems(items), Array(ImageOfItems(items, style, strtod)),
                    p + 1 + |ItemsText(items, true, depth, style)|)
    decreases items, 4
  {
    AtSplit(t, p, "[", ItemsText(items, true, depth, style));
    AtIndex(t, p, "[", 0);
    var q := ItemAhead(items, true, t, p + 1, depth, style, strtod);
    ArrayOpens(t, p, d, q, strtod);
    ItemsReadBack(items, t, q, q, d, [], depth, style, strtod);
    assert [] + ImageOfItems(items, style, strtod) == ImageOfItems(items, style, strtod);
  }

  lemma {:induction false} ObjectReadBack(members: seq<Member>, t: string, p: nat, d: nat, depth: nat, style: Style,
                                          strtod: NumberReader)
    requires members != [] && ReadableMembers(members, style.format, strtod)
    requires p <= |t| && Skip(t, p) == p && At(t, p, "{" + MembersText(members, true, depth, style))
    ensures ReadsAs(ParseInner(t, p, d, strtod), d, DepthOfMembers(members),
                    Object(SetAll([], members, style, strtod)),
                    p + 1 + |MembersText(members, true, depth, style)|)
    decreases members, 4
  {
    AtSplit(t, p, "{", MembersText(members, true, depth, style));
    AtIndex(t, p, "{", 0);
    var q := MemberAhead(members, true, t, p + 1, depth, style);
    ObjectOpens(t, p, d, q, strtod);
    MembersReadBack(members, t, q, q, d, [], depth, style, strtod);
  }

  lemma EmptyReadBack(t: string, p: nat, d: nat, text: string, v: Json, strtod: NumberReader)
    requires p <= |t| && Skip(t, p) == p && At(t, p, text)
    requires (v == Array([]) && text == "[]") || (v == Object([]) && text == "{}")
    ensures ParseInner(t, p, d, strtod) == Ok(v, p + 2)
  {
    AtIndex(t, p, text, 0);
    AtIndex(t, p, text, 1);
    assert Skip(t, p + 1) == p + 1;
  }

  // ---- single steps of the container loops ------------------------------

  lemma ArrayOpens(t: string, p: nat, d: nat, q: nat, strtod: NumberReader)
    requires p < |t| && t[p] == '[' && q == Skip(t, p + 1) && (q < |t| ==> t[q] != ']')
    ensures ParseInner(t, p, d, strtod) == ArrayTail(t, q, d, [], strtod)
  {
  }

  lemma ObjectOpens(t: string, p: nat, d: nat, q: nat, strtod: NumberReader)
    requires p < |t| && t[p] == '{' && q == Skip(t, p + 1) && (q < |t| ==> t[q] != '}')
    ensures ParseInner(t, p, d, strtod) == ObjectTail(t, q, d, [], strtod)
  {
  }

  /** `whole` is what an array parses to when `acc` has been pushed and the text goes on at `e`. */
  ghost predicate ArrayGoesOn(whole: Parsed<Json>, t: string, e: nat, d: nat, acc: seq<Json>, strtod: NumberReader) {
    e <= |t| && var q := Skip(t, e);
    q < |t| ==>
      (t[q] == ',' ==> whole == ArrayTail(t, q + 1, d, acc, strtod))
      && (t[q] == ']' ==> whole == Ok(Array(acc), q + 1))
  }

  ghost predicate ObjectGoesOn(whole: Parsed<Json>, t: string, e: nat, d: nat, acc: seq<Member>, strtod: NumberReader) {
    e <= |t| && var q := Skip(t, e);
    q < |t| ==>
      (t[q] == ',' ==> whole == ObjectTail(t, q + 1, d, acc, strtod))
      && (t[q] == '}' ==> whole == Ok(Object(acc), q + 1))
  }

  /** The array fails or goes on as its next value does. */
  ghost predicate FollowsItem(whole: Parsed<Json>, value: Parsed<Json>, t: string, d: nat, acc: seq<Json>,
                              strtod: NumberReader) {
    match value
    case Err(_) => whole.Err?
    case Ok(v, e) => ArrayGoesOn(whole, t, e, d, acc + [v], strtod)
  }

  lemma ArrayStep(t: string, p: nat, d: nat, acc: seq<Json>, strtod: NumberReader)
    requires p <= |t|
    ensures FollowsItem(ArrayTail(t, p, d, acc, strtod), ParseValue(t, p, d, strtod), t, d, acc, strtod)
  {
  }

  lemma ObjectStep(t: string, p: nat, d: nat, acc: seq<Member>, m: Member, e: nat, strtod: NumberReader)
    requires p <= |t| && ParseMember(t, p, d, strtod) == Ok(m, e)
    ensures ObjectGoesOn(ObjectTail(t, p, d, acc, strtod), t, e, d, SetMember(acc, m.key, m.value), strtod)
  {
  }

  /** Something stands after padding: the parser finds it by skipping. */
  lemma PaddedAhead(t: string, p: nat, indent: int, depth: nat, body: string)
    requires At(t, p, Break(indent, depth) + body) && body != "" && !IsSpace(body[0])
    ensures var q := p + |Break(indent, depth)|;
      Skip(t, p) == q < |t| && Skip(t, q) == q && t[q] == body[0] && At(t, q, body)
  {
    AtSplit(t, p, Break(indent, depth), body);
    AtIndex(t, p + |Break(indent, depth)|, body, 0);
    SkipBreak(t, p, indent, depth);
  }

  /** The same after a comma, unless it is the first item. */
  lemma LeadAhead(t: string, p: nat, first: bool, depth: nat, style: Style, body: string)
    requires At(t, p, Lead(first, depth, style) + body) && body != "" && !IsSpace(body[0])
    ensures var q := p + |Lead(first, depth, style)|;
      q < |t| && Skip(t, q) == q && t[q] == body[0] && At(t, q, body)
      && (if first then q == Skip(t, p) else t[p] == ',' && Skip(t, p) == p && q == Skip(t, p + 1))
  {
    var brk := Break(style.indent, depth + 1);
    if first {
      assert Lead(first, depth, style) == brk;
      PaddedAhead(t, p, style.indent, depth + 1, body);
    } else {
      Assoc(",", brk, body);
      AtSplit(t, p, ",", brk + body);
      AtIndex(t, p, ",", 0);
      PaddedAhead(t, p + 1, style.indent, depth + 1, body);
    }
  }

  // ---- arrays -----------------------------------------------------------

  /** An item and everything printed after it. */
  function ItemBody(items: seq<Json>, depth: nat, style: Style): string
    requires items != []
  {
    ValueText(items[0], depth + 1, style) + ItemsText(items[1..], false, depth, style)
  }

  lemma ItemBodyStart(items: seq<Json>, depth: nat, style: Style, strtod: NumberReader)
    requires items != [] && ReadableNumbers(items[0], style.format, strtod)
    ensures var body := ItemBody(items, depth, style); body != "" && !IsSpace(body[0]) && body[0] != ']'
  {
    ValueStart(items[0], depth + 1, style, strtod);
  }

  /** The next item of a printed array: after the comma, if any, and the padding. */
  lemma ItemAhead(items: seq<Json>, first: bool, t: string, p: nat, depth: nat, style: Style, strtod: NumberReader)
    returns (q: nat)
    requires items != [] && ReadableNumbers(items[0], style.format, strtod)
    requires At(t, p, ItemsText(items, first, depth, style))
    ensures if first then q == Skip(t, p) else p < |t| && t[p] == ',' && Skip(t, p) == p && q == Skip(t, p + 1)
    ensures p <= q < |t| && Skip(t, q) == q && t[q] != ']'
    ensures At(t, q, ItemBody(items, depth, style))
    ensures q + |ItemBody(items, depth, style)| == p + |ItemsText(items, first, depth, style)|
  {
    ItemBodyStart(items, depth, style, strtod);
    assert ItemsText(items, first, depth, style) == Lead(first, depth, style) + ItemBody(items, depth, style);
    LeadAhead(t, p, first, depth, style, ItemBody(items, depth, style));
    q := p + |Lead(first, depth, style)|;
  }

  lemma ItemBodySplits(items: seq<Json>, t: string, q: nat, depth: nat, style: Style)
    requires items != [] && At(t, q, ItemBody(items, depth, style))
    ensures var text, rest := ValueText(items[0], depth + 1, style), ItemsText(items[1..], false, depth, style);
      At(t, q, text) && At(t, q + |text|, rest) && Stops(t, q + |text|)
      && |ItemBody(items, depth, style)| == |text| + |rest|
  {
    var text, rest := ValueText(items[0], depth + 1, style), ItemsText(items[1..], false, depth, style);
    AtSplit(t, q, text, rest);
    ItemsStart(items[1..], depth, style);
    AtIndex(t, q + |text|, rest, 0);
  }

  lemma {:induction false} ItemsReadBack(items: seq<Json>, t: string, p: nat, q: nat, d: nat, acc: seq<Json>,
                                         depth: nat, style: Style, strtod: NumberReader)
    requires items != [] && ReadableItems(items, style.format, strtod)
    requires p <= |t| && q == Skip(t, p) && At(t, q, ItemBody(items, depth, style))
    ensures ReadsAs(ArrayTail(t, p, d, acc, strtod), d, DepthOfItems(items),
                    Array(acc + ImageOfItems(items, style, strtod)),
                    q + |ItemBody(items, depth, style)|)
    decreases items, 3
  {
    hide ParseValue, ArrayTail, ItemBody, FollowsItem, ReadsAs, At, Skip, Image;
    ItemBodySplits(items, t, q, depth, style);
    ValueReadBack(items[0], t, p, q, d, depth + 1, style, strtod);
    ArrayStep(t, p, d, acc, strtod);
    ItemsGoOn(items, ArrayTail(t, p, d, acc, strtod), ParseValue(t, p, d, strtod), t,
              q + |ValueText(items[0], depth + 1, style)|, d, acc, depth, style, strtod);
  }

  /** The item has been read up to `e`; what follows is the bracket or the next item. */
  lemma {:induction false} ItemsGoOn(items: seq<Json>, whole: Parsed<Json>, value: Parsed<Json>, t: string, e: nat,
                                     d: nat, acc: seq<Json>, depth: nat, style: Style, strtod: NumberReader)
    requires items != [] && ReadableItems(items, style.format, strtod)
    requires ReadsAs(value, d, Depth(items[0]), Image(items[0], style, strtod), e)
    requires FollowsItem(whole, value, t, d, acc, strtod)
    requires At(t, e, ItemsText(items[1..], false, depth, style))
    ensures ReadsAs(whole, d, DepthOfItems(items), Array(acc + ImageOfItems(items, style, strtod)),
                    e + |ItemsText(items[1..], false, depth, style)|)
    decreases items, 1
  {
    var more := items[1..];
    ImageOfItemsStep(items, acc, style, strtod);
    if more == [] {
      PaddedAhead(t, e, style.indent, depth, "]");
    } else if value.Ok? {
      NextItemReadBack(items, whole, t, e, d, acc + [Image(items[0], style, strtod)], depth, style, strtod);
    }
  }

  lemma {:induction false} NextItemReadBack(items: seq<Json>, whole: Parsed<Json>, t: string, e: nat, d: nat,
                                            acc: seq<Json>, depth: nat, style: Style, strtod: NumberReader)
    requires |items| > 1 && ReadableItems(items, style.format, strtod)
    requires At(t, e, ItemsText(items[1..], false, depth, style))
    requires e <= |t|
    requires Skip(t, e) < |t| && t[Skip(t, e)] == ',' ==> whole == ArrayTail(t, Skip(t, e) + 1, d, acc, strtod)
    ensures ReadsAs(whole, d, DepthOfItems(items[1..]), Array(acc + ImageOfItems(items[1..], style, strtod)),
                    e + |ItemsText(items[1..], false, depth, style)|)
    decreases items, 0
  {
    hide Image, ArrayTail, ReadsAs, DepthOfItems, ImageOfItems;
    var more := items[1..];
    var next := ItemAhead(more, false, t, e, depth, style, strtod);
    ItemsReadBack(more, t, e + 1, next, d, acc, depth, style, strtod);
  }

  lemma ImageOfItemsStep(items: seq<Json>, acc: seq<Json>, style: Style, strtod: NumberReader)
    requires items != []
    ensures acc + [Image(items[0], style, strtod)] + ImageOfItems(items[1..], style, strtod)
      == acc + ImageOfItems(items, style, strtod)
    ensures items[1..] == [] ==> acc + [Image(items[0], style, strtod)] == acc + ImageOfItems(items, style, strtod)
  {
    var first, rest := [Image(items[0], style, strtod)], ImageOfItems(items[1..], style, strtod);
    assert ImageOfItems(items, style, strtod) == first + rest;
    assert items[1..] == [] ==> rest == [];
    hide Image, ImageOfItems;
    assert acc + first + rest == acc + (first + rest);
  }

  // ---- objects ----------------------------------------------------------

  /** A member without what precedes its key, and everything printed after it. */
  function MemberBody(members: seq<Member>, depth: nat, style: Style): string
    requires members != []
  {
    StringText(members[0].key, style.asciiOnly) + (Colon(style.indent) + AfterColon(members, depth, style))
  }

  function AfterColon(members: seq<Member>, depth: nat, style: Style): string
    requires members != []
  {
    ValueText(members[0].value, depth + 1, style) + MembersText(members[1..], false, depth, style)
  }

  lemma AfterColonStart(members: seq<Member>, depth: nat, style: Style, strtod: NumberReader)
    requires members != [] && ReadableNumbers(members[0].value, style.format, strtod)
    ensures AfterColon(members, depth, style) != "" && !IsSpace(AfterColon(members, depth, style)[0])
  {
    ValueStart(members[0].value, depth + 1, style, strtod);
  }

  lemma MemberBodyStart(members: seq<Member>, depth: nat, style: Style)
    requires members != []
    ensures MemberBody(members, depth, style) != "" && MemberBody(members, depth, style)[0] == '"'
  {
  }

  lemma MemberAhead(members: seq<Member>, first: bool, t: string, p: nat, depth: nat, style: Style) returns (q: nat)
    requires members != [] && At(t, p, MembersText(members, first, depth, style))
    ensures if first then q == Skip(t, p) else p < |t| && t[p] == ',' && Skip(t, p) == p && q == Skip(t, p + 1)
    ensures p <= q < |t| && Skip(t, q) == q && t[q] == '"'
    ensures At(t, q, MemberBody(members, depth, style))
    ensures q + |MemberBody(members, depth, style)| == p + |MembersText(members, first, depth, style)|
  {
    hide StringText, Skip, At, ValueText;
    MemberBodyStart(members, depth, style);
    assert MembersText(members, first, depth, style) == Lead(first, depth, style) + MemberBody(members, depth, style);
    LeadAhead(t, p, first, depth, style, MemberBody(members, depth, style));
    q := p + |Lead(first, depth, style)|;
  }

  lemma ColonAhead(t: string, p: nat, indent: int, body: string)
    requires At(t, p, Colon(indent) + body) && body != "" && !IsSpace(body[0])
    ensures p < |t| && t[p] == ':' && Skip(t, p) == p
    ensures var q := p + |Colon(indent)|; Skip(t, p + 1) == q && At(t, q, body)
  {
    var colon := Colon(indent);
    AtSplit(t, p, colon, body);
    AtIndex(t, p, colon, 0);
    AtIndex(t, p + |colon|, body, 0);
    if |colon| == 2 {
      AtIndex(t, p, colon, 1);
    }
    SkipSpaces(t, p + 1, |colon| - 1);
  }

  /** A printed key and colon are read, and the padding after the colon ends where the value starts. */
  lemma KeyReadBack(t: string, p: nat, q: nat, key: string, style: Style, after: string)
    requires p <= |t| && q == Skip(t, p) && after != "" && !IsSpace(after[0])
    requires At(t, q, StringText(key, style.asciiOnly) + (Colon(style.indent) + after))
    ensures var k := q + |StringText(key, style.asciiOnly)| + 1; var r := k - 1 + |Colon(style.indent)|;
      k <= |t| && ParseKey(t, p) == Ok(Reread(key, style.asciiOnly), k) && r == Skip(t, k) && At(t, r, after)
  {
    hide StringText, Reread, ParseString, ParseKey, Colon, At;
    var end := q + |StringText(key, style.asciiOnly)|;
    AtSplit(t, q, StringText(key, style.asciiOnly), Colon(style.indent) + after);
    StringReadBack(t, q, key, style.asciiOnly);
    ColonAhead(t, end, style.indent, after);
    KeyReads(t, p, q, Reread(key, style.asciiOnly), end);
  }

  lemma KeyReads(t: string, p: nat, q: nat, key: string, end: nat)
    requires p <= |t| && q == Skip(t, p) && ParseString(t, q) == Ok(key, end)
    requires end < |t| && Skip(t, end) == end && t[end] == ':'
    ensures ParseKey(t, p) == Ok(key, end + 1)
  {
  }

  lemma AfterColonSplits(members: seq<Member>, t: string, r: nat, depth: nat, style: Style)
    requires members != [] && At(t, r, AfterColon(members, depth, style))
    ensures var text := ValueText(members[0].value, depth + 1, style);
      var rest := MembersText(members[1..], false, depth, style);
      At(t, r, text) && At(t, r + |text|, rest) && Stops(t, r + |text|)
      && |AfterColon(members, depth, style)| == |text| + |rest|
  {
    var text, rest := ValueText(members[0].value, depth + 1, style), MembersText(members[1..], false, depth, style);
    hide At, ValueText, MembersText;
    AtSplit(t, r, text, rest);
    MembersStart(members[1..], depth, style);
    AtIndex(t, r + |text|, rest, 0);
  }

  /** After a key, the object fails or goes on as the value at `k` does. */
  ghost predicate FollowsValue(whole: Parsed<Json>, value: Parsed<Json>, t: string, d: nat, acc: seq<Member>,
                               key: string, strtod: NumberReader) {
    match value
    case Err(_) => whole.Err?
    case Ok(v, e) => ObjectGoesOn(whole, t, e, d, SetMember(acc, key, v), strtod)
  }

  lemma KeyThenValue(t: string, p: nat, d: nat, acc: seq<Member>, key: string, k: nat, strtod: NumberReader)
    requires p <= |t| && ParseKey(t, p) == Ok(key, k) && k <= |t|
    ensures FollowsValue(ObjectTail(t, p, d, acc, strtod), ParseValue(t, k, d, strtod), t, d, acc, key, strtod)
  {
    var value := ParseValue(t, k, d, strtod);
    if value.Ok? {
      assert ParseMember(t, p, d, strtod) == Ok(Member(key, value.value), value.pos);
      ObjectStep(t, p, d, acc, Member(key, value.value), value.pos, strtod);
    }
  }

  lemma {:induction false} MembersReadBack(members: seq<Member>, t: string, p: nat, q: nat, d: nat, acc: seq<Member>,
                                           depth: nat, style: Style, strtod: NumberReader)
    requires members != [] && ReadableMembers(members, style.format, strtod)
    requires p <= |t| && q == Skip(t, p) && At(t, q, MemberBody(members, depth, style))
    ensures ReadsAs(ObjectTail(t, p, d, acc, strtod), d, DepthOfMembers(members),
                    Object(SetAll(acc, members, style, strtod)),
                    q + |MemberBody(members, depth, style)|)
    decreases members, 3
  {
    hide ParseValue, ObjectTail, StringText, ParseKey, AfterColon, FollowsValue, ReadsAs, At, Skip, Reread, Image;
    var k := q + |StringText(members[0].key, style.asciiOnly)| + 1;
    AfterColonStart(members, depth, style, strtod);
    KeyReadBack(t, p, q, members[0].key, style, AfterColon(members, depth, style));
    KeyThenValue(t, p, d, acc, Reread(members[0].key, style.asciiOnly), k, strtod);
    MemberValueReadBack(members, t, k, k - 1 + |Colon(style.indent)|, d, depth, style, strtod);
    MembersGoOn(members, ObjectTail(t, p, d, acc, strtod), ParseValue(t, k, d, strtod), t,
                k - 1 + |Colon(style.indent)| + |ValueText(members[0].value, depth + 1, style)|, d, acc, depth, style,
                strtod);
  }

  /** The value stands at `r`, after padding from `k`. */
  lemma {:induction false} MemberValueReadBack(members: seq<Member>, t: string, k: nat, r: nat, d: nat, depth: nat,
                                               style: Style, strtod: NumberReader)
    requires members != [] && ReadableMembers(members, style.format, strtod)
    requires k <= |t| && r == Skip(t, k) && At(t, r, AfterColon(members, depth, style))
    ensures var e := r + |ValueText(members[0].value, depth + 1, style)|;
      ReadsAs(ParseValue(t, k, d, strtod), d, Depth(members[0].value), Image(members[0].value, style, strtod), e)
      && At(t, e, MembersText(members[1..], false, depth, style))
      && e + |MembersText(members[1..], false, depth, style)| == r + |AfterColon(members, depth, style)|
    decreases members, 2
  {
    hide ParseValue, AfterColon, ReadsAs, Skip, At, ValueText, MembersText, Stops, Depth, Image;
    AfterColonSplits(members, t, r, depth, style);
    ValueReadBack(members[0].value, t, k, r, d, depth + 1, style, strtod);
  }

  /** The member has been read up to `e`; what follows is the bracket or the next member. */
  lemma {:induction false} MembersGoOn(members: seq<Member>, whole: Parsed<Json>, value: Parsed<Json>, t: string,
                                       e: nat, d: nat, acc: seq<Member>, depth: nat, style: Style,
                                       strtod: NumberReader)
    requires members != [] && ReadableMembers(members, style.format, strtod)
    requires ReadsAs(value, d, Depth(members[0].value), Image(members[0].value, style, strtod), e)
    requires FollowsValue(whole, value, t, d, acc, Reread(members[0].key, style.asciiOnly), strtod)
    requires At(t, e, MembersText(members[1..], false, depth, style))
    ensures ReadsAs(whole, d, DepthOfMembers(members), Object(SetAll(acc, members, style, strtod)),
                    e + |MembersText(members[1..], false, depth, style)|)
    decreases members, 1
  {
    SetAllStep(acc, members, style, strtod);
    hide SetAll, SetMember, Image, Reread, ObjectTail, ParseValue;
    if members[1..] == [] {
      PaddedAhead(t, e, style.indent, depth, "}");
    } else {
      NextMemberReadBack(members, whole, value, t, e, d, acc, depth, style, strtod);
    }
  }

  lemma {:induction false} NextMemberReadBack(members: seq<Member>, whole: Parsed<Json>, value: Parsed<Json>,
                                              t: string, e: nat, d: nat, acc: seq<Member>, depth: nat, style: Style,
                                              strtod: NumberReader)
    requires |members| > 1 && ReadableMembers(members, style.format, strtod)
    requires ReadsAs(value, d, Depth(members[0].value), Image(members[0].value, style, strtod), e)
    requires FollowsValue(whole, value, t, d, acc, Reread(members[0].key, style.asciiOnly), strtod)
    requires At(t, e, MembersText(members[1..], false, depth, style))
    ensures var acc' := SetMember(acc, Reread(members[0].key, style.asciiOnly),
                                  Image(members[0].value, style, strtod));
      ReadsAs(whole, d, DepthOfMembers(members), Object(SetAll(acc', members[1..], style, strtod)),
              e + |MembersText(members[1..], false, depth, style)|)
    decreases members, 0
  {
    hide At, Image, Reread, SetAll, MemberBody, SetMember, MembersText, ObjectTail;
    var more := members[1..];
    if value.Ok? {
      var next := MemberAhead(more, false, t, e, depth, style);
      var acc' := SetMember(acc, Reread(members[0].key, style.asciiOnly), Image(members[0].value, style, strtod));
      MembersReadBack(more, t, e + 1, next, d, acc', depth, style, strtod);
    }
  }

  lemma SetAllStep(acc: seq<Member>, members: seq<Member>, style: Style, strtod: NumberReader)
    requires members != []
    ensures var acc' := SetMember(acc, Reread(members[0].key, style.asciiOnly), Image(members[0].value, style, strtod));
      SetAll(acc, members, style, strtod)
        == (if members[1..] == [] then acc' else SetAll(acc', members[1..], style, strtod))
  {
  }

  /** For every document and style: within the depth budget the text parses to the image of the document, with no error;
      beyond it, to null with an error. */
  lemma DumpThenParse(v: Json, style: Style, strtod: NumberReader)
    requires ReadableNumbers(v, style.format, strtod)
    ensures Depth(v) <= 64 ==> Parse(Dump(v, style), strtod) == (Image(v, style, strtod), "")
    ensures Depth(v) > 64 ==> Parse(Dump(v, style), strtod).0 == Null && Parse(Dump(v, style), strtod).1 != ""
  {
    var t := Dump(v, style);
    ValueStart(v, 0, style, strtod);
    assert t[0..|t|] == t;
    assert Skip(t, 0) == 0;
    ValueReadBack(v, t, 0, 0, 0, 0, style, strtod);
  }
}
