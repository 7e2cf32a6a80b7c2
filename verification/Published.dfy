/** The payload line of the state file. */
module Published {
  import opened JsonValue
  import opened JsonPrinter
  import opened JsonParser
  import opened JsonStrings
  import opened JsonRoundTrip
  import opened JsonTheorems
  import opened Base64

  const COMPACT := -1

  /** `document.dump(-1, true)` */
  function StateText(document: Json, format: NumberFormat): string {
    Dump(document, Style(COMPACT, true, format))
  }

  lemma StateTextIsBytes(document: Json, format: NumberFormat)
    requires AsciiNumbers(document, format)
    ensures IsAscii(StateText(document, format)) && IsBytes(StateText(document, format))
  {
    DumpIsAscii(document, COMPACT, format);
  }

  /** `base64Encode(document.dump(-1, true))` */
  method BuildPayload(document: Json, format: NumberFormat) returns (payload: string)
    requires AsciiNumbers(document, format)
    ensures IsBytes(StateText(document, format)) && payload == Encode(StateText(document, format))
  {
    StateTextIsBytes(document, format);
    var writer := new Writer(Style(COMPACT, true, format));
    writer.Write(document, 0);
    assert writer.out == StateText(document, format);
    payload := Base64Encode(writer.out);
  }

  /** A reader that decodes the payload and parses the result. */
  function ReadPayload(payload: string, strtod: NumberReader): (Json, string) {
    match Base64.Decode(payload)
    case Bytes(text) => Parse(text, strtod)
    case Malformed => (Null, "not base64")
  }

  /** What is published is exactly what is read, for documents whose numbers are printed as number tokens, if and
      only if they are at most 64 levels deep, repeat no key, and their numbers and strings come back; otherwise, up
      to that depth, numbers and strings change in themselves only, and repeated keys are merged. */
  lemma PublishedIsRead(document: Json, format: NumberFormat, strtod: NumberReader)
    requires ReadableNumbers(document, format, strtod)
    ensures IsBytes(StateText(document, format))
    ensures var read := ReadPayload(Encode(StateText(document, format)), strtod);
      (Depth(document) <= 64 ==> read == (Image(document, Style(COMPACT, true, format), strtod), ""))
      && (read == (document, "")
          <==> Depth(document) <= 64 && UniqueKeys(document) && ExactNumbers(document, format, strtod)
               && StringsSurvive(document, true))
  {
    hide Encode, Base64.Decode, Dump;
    ReadableIsAscii(document, format, strtod);
    StateTextIsBytes(document, format);
    var text := StateText(document, format);
    DecodeInverts(text);
    DumpThenParse(document, Style(COMPACT, true, format), strtod);
    AsciiRoundTrip(document, COMPACT, format, strtod);
  }
}
