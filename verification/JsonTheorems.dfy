/** When a document comes back. */
module JsonTheorems {
  import opened Text
  import opened JsonValue
  import opened JsonPrinter
  import opened JsonParser
  import opened JsonStrings
  import opened JsonSurvivors
  import opened JsonRoundTrip

  /** No object in the document has two members with the same key. */
  ghost predicate UniqueKeys(v: Json) {
    match v
    case Array(items) => UniqueInItems(items)
    case Object(members) => DistinctKeys(members) && UniqueInMembers(members)
    case _ => true
  }

  ghost predicate UniqueInItems(items: seq<Json>) {
    items == [] || (UniqueKeys(items[0]) && UniqueInItems(items[1..]))
  }

  ghost predicate UniqueInMembers(members: seq<Member>) {
    members == [] || (UniqueKeys(members[0].value) && UniqueInMembers(members[1..]))
  }

  /** Every number in the document is read as it was. */
  ghost predicate ExactNumbers(v: Json, format: NumberFormat, strtod: NumberReader) {
    match v
    case Number(n) => ReadNumber(n, format, strtod) == n
    case Array(items) => ExactItems(items, format, strtod)
    case Object(members) => ExactMembers(members, format, strtod)
    case _ => true
  }

  ghost predicate ExactItems(items: seq<Json>, format: NumberFormat, strtod: NumberReader) {
    items == [] || (ExactNumbers(items[0], format, strtod) && ExactItems(items[1..], format, strtod))
  }

  ghost predicate ExactMembers(members: seq<Member>, format: NumberFormat, strtod: NumberReader) {
    members == [] || (ExactNumbers(members[0].value, format, strtod) && ExactMembers(members[1..], format, strtod))
  }

  /** Every number in the document is printed with `%lld`. */
  ghost predicate IntegerNumbers(v: Json) {
    match v
    case Number(n) => OnIntegerPath(n)
    case Array(items) => IntegerItems(items)
    case Object(members) => IntegerMembers(members)
    case _ => true
  }

  ghost predicate IntegerItems(items: seq<Json>) {
    items == [] || (IntegerNumbers(items[0]) && IntegerItems(items[1..]))
  }

  ghost predicate IntegerMembers(members: seq<Member>) {
    members == [] || (IntegerNumbers(members[0].value) && IntegerMembers(members[1..]))
  }

  /** Whole numbers below 9e15 in magnitude are always readable, and read as they were. */
  lemma {:induction false} IntegersAreExact(v: Json, format: NumberFormat, strtod: NumberReader)
    requires IntegerNumbers(v)
    ensures ReadableNumbers(v, format, strtod) && ExactNumbers(v, format, strtod)
    decreases v, 1
  {
    match v
    case Array(items) => IntegerItemsAreExact(items, format, strtod);
    case Object(members) => IntegerMembersAreExact(members, format, strtod);
    case _ =>
  }

  lemma {:induction false} IntegerItemsAreExact(items: seq<Json>, format: NumberFormat, strtod: NumberReader)
    requires IntegerItems(items)
    ensures ReadableItems(items, format, strtod) && ExactItems(items, format, strtod)
    decreases items, 0
  {
    if items != [] {
      IntegersAreExact(items[0], format, strtod);
      IntegerItemsAreExact(items[1..], format, strtod);
    }
  }

  lemma {:induction false} IntegerMembersAreExact(members: seq<Member>, format: NumberFormat, strtod: NumberReader)
    requires IntegerMembers(members)
    ensures ReadableMembers(members, format, strtod) && ExactMembers(members, format, strtod)
    decreases members, 0
  {
    if members != [] {
      IntegersAreExact(members[0].value, format, strtod);
      IntegerMembersAreExact(members[1..], format, strtod);
    }
  }

  /** The string comes back: always from plain printing, and by the grammar of `Survives` from ASCII-only printing. */
  predicate ComesBack(s: string, asciiOnly: bool) {
    asciiOnly ==> Survives(s)
  }

  lemma ComesBackIff(s: string, asciiOnly: bool)
    ensures Reread(s, asciiOnly) == s <==> ComesBack(s, asciiOnly)
  {
    if asciiOnly {
      SurvivesIff(s);
    } else {
      PlainRereadIsIdentity(s);
    }
  }

  /** Every string and key of the document comes back. */
  ghost predicate StringsSurvive(v: Json, asciiOnly: bool) {
    match v
    case String(s) => ComesBack(s, asciiOnly)
    case Array(items) => ItemStringsSurvive(items, asciiOnly)
    case Object(members) => MemberStringsSurvive(members, asciiOnly)
    case _ => true
  }

  ghost predicate ItemStringsSurvive(items: seq<Json>, asciiOnly: bool) {
    items == [] || (StringsSurvive(items[0], asciiOnly) && ItemStringsSurvive(items[1..], asciiOnly))
  }

  ghost predicate MemberStringsSurvive(members: seq<Member>, asciiOnly: bool) {
    members == []
    || (ComesBack(members[0].key, asciiOnly) && StringsSurvive(members[0].value, asciiOnly)
        && MemberStringsSurvive(members[1..], asciiOnly))
  }

  /** Every string and key of the document is well-formed UTF-8. */
  ghost predicate WellFormedStrings(v: Json) {
    match v
    case String(s) => WellFormed(s)
    case Array(items) => WellFormedInItems(items)
    case Object(members) => WellFormedInMembers(members)
    case _ => true
  }

  ghost predicate WellFormedInItems(items: seq<Json>) {
    items == [] || (WellFormedStrings(items[0]) && WellFormedInItems(items[1..]))
  }

  ghost predicate WellFormedInMembers(members: seq<Member>) {
    members == []
    || (WellFormed(members[0].key) && WellFormedStrings(members[0].value) && WellFormedInMembers(members[1..]))
  }

  /** Any string survives plain printing, and a well-formed one survives ASCII-only printing too. */
  lemma {:induction false} GoodStringsSurvive(v: Json, asciiOnly: bool)
    requires asciiOnly ==> WellFormedStrings(v)
    ensures StringsSurvive(v, asciiOnly)
    decreases v, 1
  {
    match v
    case String(s) => GoodStringSurvives(s, asciiOnly);
    case Array(items) => GoodItemsSurvive(items, asciiOnly);
    case Object(members) => GoodMembersSurvive(members, asciiOnly);
    case _ =>
  }

  lemma GoodStringSurvives(s: string, asciiOnly: bool)
    requires asciiOnly ==> WellFormed(s)
    ensures ComesBack(s, asciiOnly)
  {
    if asciiOnly {
      WellFormedSurvives(s);
    }
  }

  lemma {:induction false} GoodItemsSurvive(items: seq<Json>, asciiOnly: bool)
    requires asciiOnly ==> WellFormedInItems(items)
    ensures ItemStringsSurvive(items, asciiOnly)
    decreases items, 0
  {
    if items != [] {
      GoodStringsSurvive(items[0], asciiOnly);
      GoodItemsSurvive(items[1..], asciiOnly);
    }
  }

  lemma {:induction false} GoodMembersSurvive(members: seq<Member>, asciiOnly: bool)
    requires asciiOnly ==> WellFormedInMembers(members)
    ensures MemberStringsSurvive(members, asciiOnly)
    decreases members, 0
  {
    if members != [] {
      GoodStringSurvives(members[0].key, asciiOnly);
      GoodStringsSurvive(members[0].value, asciiOnly);
      GoodMembersSurvive(members[1..], asciiOnly);
    }
  }

  /** The members as each is read on its own, none merged. */
  function ImageOfMembers(members: seq<Member>, style: Style, strtod: NumberReader): (r: seq<Member>)
    ensures |r| == |members|
  {
    if members == [] then []
    else
      [Member(Reread(members[0].key, style.asciiOnly), Image(members[0].value, style, strtod))]
      + ImageOfMembers(members[1..], style, strtod)
  }

  lemma {:induction false} KeysAppend(a: seq<Member>, b: seq<Member>)
    ensures Keys(a + b) == Keys(a) + Keys(b)
    ensures DistinctKeys(a + b) <==> DistinctKeys(a) && DistinctKeys(b) && Keys(a) !! Keys(b)
  {
    if a == [] {
      assert a + b == b;
    } else {
      KeysAppend(a[1..], b);
      assert (a + b)[1..] == a[1..] + b;
    }
  }

  lemma SetAllFirst(acc: seq<Member>, members: seq<Member>, style: Style, strtod: NumberReader)
    requires members != []
    ensures var m, images := ImageOfMembers(members, style, strtod)[0], ImageOfMembers(members[1..], style, strtod);
      ImageOfMembers(members, style, strtod) == [m] + images
      && SetAll(acc, members, style, strtod) == SetAll(SetMember(acc, m.key, m.value), members[1..], style, strtod)
  {
  }

  /** Setting members one by one merges some of them, or else just appends them. */
  lemma {:induction false} SetAllMerges(acc: seq<Member>, members: seq<Member>, style: Style, strtod: NumberReader)
    ensures var r := SetAll(acc, members, style, strtod);
      |r| < |acc| + |members| || r == acc + ImageOfMembers(members, style, strtod)
    decreases |members|
  {
    hide Image, SetMember;
    if members == [] {
      assert acc + [] == acc;
    } else {
      SetAllFirst(acc, members, style, strtod);
      var rest, m := members[1..], ImageOfMembers(members, style, strtod)[0];
      var images := ImageOfMembers(rest, style, strtod);
      hide SetAll, ImageOfMembers;
      SetGrows(acc, m.key, m.value);
      SetAllMerges(SetMember(acc, m.key, m.value), rest, style, strtod);
      assert acc + [m] + images == acc + ([m] + images);
    }
  }

  lemma {:induction false} SetGrows(members: seq<Member>, key: string, value: Json)
    ensures var r := SetMember(members, key, value);
      |r| == |members| || r == members + [Member(key, value)]
  {
    if members != [] {
      SetGrows(members[1..], key, value);
      assert members == [members[0]] + members[1..];
    }
  }

  /** Without repeated keys they are just appended. */
  lemma {:induction false} SetAllAppends(acc: seq<Member>, members: seq<Member>, style: Style, strtod: NumberReader)
    requires DistinctKeys(acc + ImageOfMembers(members, style, strtod))
    ensures SetAll(acc, members, style, strtod) == acc + ImageOfMembers(members, style, strtod)
    decreases |members|
  {
    hide Image, SetMember;
    if members == [] {
      assert acc + [] == acc;
    } else {
      SetAllFirst(acc, members, style, strtod);
      var rest, m := members[1..], ImageOfMembers(members, style, strtod)[0];
      var images := ImageOfMembers(rest, style, strtod);
      hide SetAll, ImageOfMembers, Keys, DistinctKeys;
      FirstKeyIsNew(acc, m, images);
      SetNewKeyAppends(acc, m.key, m.value);
      assert acc + [m] + images == acc + ([m] + images);
      SetAllAppends(acc + [m], rest, style, strtod);
    }
  }

  lemma FirstKeyIsNew(acc: seq<Member>, m: Member, rest: seq<Member>)
    requires DistinctKeys(acc + ([m] + rest))
    ensures m.key !in Keys(acc)
  {
    KeysAppend(acc, [m] + rest);
    assert ([m] + rest)[0] == m;
  }

  lemma {:induction false} SetAllIsDistinct(acc: seq<Member>, members: seq<Member>, style: Style, strtod: NumberReader)
    requires DistinctKeys(acc)
    ensures DistinctKeys(SetAll(acc, members, style, strtod))
    decreases |members|
  {
    if members != [] {
      SetThenLookup(acc, Reread(members[0].key, style.asciiOnly), Image(members[0].value, style, strtod));
      SetAllIsDistinct(SetMember(acc, Reread(members[0].key, style.asciiOnly), Image(members[0].value, style, strtod)),
                       members[1..], style, strtod);
    }
  }

  /** A document is its own image exactly when no object repeats a key, its numbers are read as they were, and its
      strings come back. */
  lemma {:induction false} ImageIsIdentity(v: Json, style: Style, strtod: NumberReader)
    ensures Image(v, style, strtod) == v
      <==> UniqueKeys(v) && ExactNumbers(v, style.format, strtod) && StringsSurvive(v, style.asciiOnly)
    decreases v, 1
  {
    match v
    case String(s) => ComesBackIff(s, style.asciiOnly);
    case Array(items) => ItemsIdentity(items, style, strtod);
    case Object(members) =>
      MembersIdentity(members, style, strtod);
      ObjectIdentity(members, style, strtod);
    case _ =>
  }

  lemma ObjectIdentity(members: seq<Member>, style: Style, strtod: NumberReader)
    ensures SetAll([], members, style, strtod) == members
      <==> DistinctKeys(members) && ImageOfMembers(members, style, strtod) == members
  {
    hide SetAll, ImageOfMembers, DistinctKeys;
    var images := ImageOfMembers(members, style, strtod);
    assert [] + images == images;
    SetAllMerges([], members, style, strtod);
    NoKeysDistinct();
    SetAllIsDistinct([], members, style, strtod);
    if DistinctKeys(members) && images == members {
      SetAllAppends([], members, style, strtod);
    }
  }

  lemma NoKeysDistinct()
    ensures DistinctKeys([])
  {
  }

  lemma {:induction false} ItemsIdentity(items: seq<Json>, style: Style, strtod: NumberReader)
    ensures ImageOfItems(items, style, strtod) == items
      <==> UniqueInItems(items) && ExactItems(items, style.format, strtod)
           && ItemStringsSurvive(items, style.asciiOnly)
    decreases items, 0
  {
    if items != [] {
      ImageIsIdentity(items[0], style, strtod);
      ItemsIdentity(items[1..], style, strtod);
      var r := ImageOfItems(items, style, strtod);
      assert r[1..] == ImageOfItems(items[1..], style, strtod);
      assert items == [items[0]] + items[1..];
    }
  }

  lemma {:induction false} MembersIdentity(members: seq<Member>, style: Style, strtod: NumberReader)
    ensures ImageOfMembers(members, style, strtod) == members
      <==> UniqueInMembers(members) && ExactMembers(members, style.format, strtod)
           && MemberStringsSurvive(members, style.asciiOnly)
    decreases members, 0
  {
    if members != [] {
      ImageIsIdentity(members[0].value, style, strtod);
      ComesBackIff(members[0].key, style.asciiOnly);
      MembersIdentity(members[1..], style, strtod);
      hide Reread, Image, ComesBack;
      var r := ImageOfMembers(members, style, strtod);
      assert r[1..] == ImageOfMembers(members[1..], style, strtod);
      assert members == [members[0]] + members[1..];
    }
  }

  /** Compact or pretty, with arbitrary bytes in its strings: a document whose numbers are printed as number tokens
      survives exactly when it is at most 64 levels deep, repeats no key inside an object, and its numbers are read
      as they were. */
  lemma RoundTrip(v: Json, indent: int, format: NumberFormat, strtod: NumberReader)
    requires ReadableNumbers(v, format, strtod)
    ensures Parse(Dump(v, Style(indent, false, format)), strtod) == (v, "")
      <==> Depth(v) <= 64 && UniqueKeys(v) && ExactNumbers(v, format, strtod)
  {
    var style := Style(indent, false, format);
    GoodStringsSurvive(v, false);
    ImageIsIdentity(v, style, strtod);
    DumpThenParse(v, style, strtod);
  }

  /** ASCII-only printing: the same, if its strings and keys survive too. */
  lemma AsciiRoundTrip(v: Json, indent: int, format: NumberFormat, strtod: NumberReader)
    requires ReadableNumbers(v, format, strtod)
    ensures Parse(Dump(v, Style(indent, true, format)), strtod) == (v, "")
      <==> Depth(v) <= 64 && UniqueKeys(v) && ExactNumbers(v, format, strtod) && StringsSurvive(v, true)
  {
    var style := Style(indent, true, format);
    ImageIsIdentity(v, style, strtod);
    DumpThenParse(v, style, strtod);
  }

  /** So well-formed UTF-8 and whole numbers below 9e15 in magnitude come back from ASCII-only printing. */
  lemma PlainDocumentsComeBack(v: Json, indent: int, format: NumberFormat, strtod: NumberReader)
    requires WellFormedStrings(v) && IntegerNumbers(v)
    ensures Parse(Dump(v, Style(indent, true, format)), strtod) == (v, "") <==> Depth(v) <= 64 && UniqueKeys(v)
  {
    IntegersAreExact(v, format, strtod);
    GoodStringsSurvive(v, true);
    AsciiRoundTrip(v, indent, format, strtod);
  }

  // ---- ASCII-only text --------------------------------------------------

  lemma AsciiAppend(a: string, b: string)
    requires IsAscii(a) && IsAscii(b)
    ensures IsAscii(a + b)
  {
  }

  /** Numbers off the integer path are printed in ASCII too. */
  predicate AsciiNumbers(v: Json, format: NumberFormat) {
    match v
    case Number(n) => OnIntegerPath(n) || IsAscii(format(n))
    case Array(items) => AsciiItems(items, format)
    case Object(members) => AsciiMembers(members, format)
    case _ => true
  }

  predicate AsciiItems(items: seq<Json>, format: NumberFormat) {
    items == [] || (AsciiNumbers(items[0], format) && AsciiItems(items[1..], format))
  }

  predicate AsciiMembers(members: seq<Member>, format: NumberFormat) {
    members == [] || (AsciiNumbers(members[0].value, format) && AsciiMembers(members[1..], format))
  }

  /** Every byte of ASCII-only text is below 0x80, for arbitrary bytes in strings and keys. */
  lemma {:induction false} TextIsAscii(v: Json, depth: nat, style: Style)
    requires AsciiNumbers(v, style.format) && style.asciiOnly
    ensures IsAscii(ValueText(v, depth, style))
    decreases v, 1
  {
    match v
    case Number(n) => NumberIsAscii(n, style.format);
    case String(s) => StringTextIsAscii(s);
    case Array(items) => ItemsAreAscii(items, true, depth, style);
    case Object(members) => MembersAreAscii(members, true, depth, style);
    case _ =>
  }

  lemma {:induction false} ReadableIsAscii(v: Json, format: NumberFormat, strtod: NumberReader)
    requires ReadableNumbers(v, format, strtod)
    ensures AsciiNumbers(v, format)
    decreases v, 1
  {
    match v
    case Number(n) => if !OnIntegerPath(n) { NumberCharsAreAscii(format(n)); }
    case Array(items) => ReadableItemsAreAscii(items, format, strtod);
    case Object(members) => ReadableMembersAreAscii(members, format, strtod);
    case _ =>
  }

  lemma {:induction false} ReadableItemsAreAscii(items: seq<Json>, format: NumberFormat, strtod: NumberReader)
    requires ReadableItems(items, format, strtod)
    ensures AsciiItems(items, format)
    decreases items, 0
  {
    if items != [] {
      ReadableIsAscii(items[0], format, strtod);
      ReadableItemsAreAscii(items[1..], format, strtod);
    }
  }

  lemma {:induction false} ReadableMembersAreAscii(members: seq<Member>, format: NumberFormat, strtod: NumberReader)
    requires ReadableMembers(members, format, strtod)
    ensures AsciiMembers(members, format)
    decreases members, 0
  {
    if members != [] {
      ReadableIsAscii(members[0].value, format, strtod);
      ReadableMembersAreAscii(members[1..], format, strtod);
    }
  }

  lemma NumberIsAscii(n: real, format: NumberFormat)
    requires OnIntegerPath(n) || IsAscii(format(n))
    ensures IsAscii(NumberText(n, format))
  {
    DecimalStart(n.Floor);
    NumberCharsAreAscii(Decimal(n.Floor));
  }

  lemma NumberCharsAreAscii(w: string)
    requires forall i :: 0 <= i < |w| ==> IsNumberChar(w[i])
    ensures IsAscii(w)
  {
  }

  lemma LeadIsAscii(first: bool, depth: nat, style: Style)
    ensures IsAscii(Lead(first, depth, style)) && IsAscii(Break(style.indent, depth))
  {
  }

  lemma {:induction false} ItemsAreAscii(items: seq<Json>, first: bool, depth: nat, style: Style)
    requires AsciiItems(items, style.format) && style.asciiOnly
    ensures IsAscii(ItemsText(items, first, depth, style))
    decreases items, 0
  {
    LeadIsAscii(first, depth, style);
    if items != [] {
      TextIsAscii(items[0], depth + 1, style);
      ItemsAreAscii(items[1..], false, depth, style);
      AsciiAppend(ValueText(items[0], depth + 1, style), ItemsText(items[1..], false, depth, style));
    }
  }

  lemma {:induction false} MembersAreAscii(members: seq<Member>, first: bool, depth: nat, style: Style)
    requires AsciiMembers(members, style.format) && style.asciiOnly
    ensures IsAscii(MembersText(members, first, depth, style))
    decreases members, 0
  {
    LeadIsAscii(first, depth, style);
    if members != [] {
      TextIsAscii(members[0].value, depth + 1, style);
      MembersAreAscii(members[1..], false, depth, style);
      StringTextIsAscii(members[0].key);
      var value, rest := ValueText(members[0].value, depth + 1, style), MembersText(members[1..], false, depth, style);
      AsciiAppend(value, rest);
      AsciiAppend(Colon(style.indent), value + rest);
      AsciiAppend(StringText(members[0].key, true), Colon(style.indent) + (value + rest));
    }
  }

  lemma DumpIsAscii(v: Json, indent: int, format: NumberFormat)
    requires AsciiNumbers(v, format)
    ensures IsAscii(Dump(v, Style(indent, true, format)))
  {
    TextIsAscii(v, 0, Style(indent, true, format));
  }
}
