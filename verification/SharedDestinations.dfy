/** The sharing of destination lists. */
module SharedDestinations {
  import Canonical
  import SharedStore
  import Convergence

  /** How texts and lists are turned into each other: `JSON.stringify`, and `parseDestinations` of utils.js, which reads
      whatever is no list as the empty one. */
  datatype Texts = Texts(write: seq<Canonical.Spelt> -> string, read: string -> Canonical.Listing)

  /** A written list is read as what was written. */
  predicate ReadsBack(texts: Texts, c: seq<Canonical.Spelt>) {
    texts.read(texts.write(c)) == Canonical.List(Canonical.ParseAll(c))
  }

  /** The payload of the store for destinations: adopting a text means parsing it, and the widget's own value is the
      canonical spelling of the result. */
  function DestinationsPayload(texts: Texts, js: Canonical.Engine): SharedStore.Payload {
    SharedStore.Payload(text => texts.write(Canonical.CanonicalForm(texts.read(text), js)), texts.write([]))
  }

  ghost predicate FiniteList(list: Canonical.Listing, js: Canonical.Engine) {
    list.List? ==> forall i :: 0 <= i < |list.items| ==> Canonical.Finitely(Canonical.Normal(list.items[i], i, js))
  }

  /** The canonical form, and the canonical form of that. */
  function Twice(list: Canonical.Listing, js: Canonical.Engine): (seq<Canonical.Spelt>, seq<Canonical.Spelt>) {
    var once := Canonical.CanonicalForm(list, js);
    (once, Canonical.CanonicalForm(Canonical.List(Canonical.ParseAll(once)), js))
  }

  /** A published list stays as it is under adoption exactly if its numbers are finite; and whatever was published, what
      a widget makes of it on adopting it does stay as it is, so that all widgets come to agree. */
  lemma PublishedListsStay(list: Canonical.Listing, js: Canonical.Engine, texts: Texts)
    requires Canonical.Compares(js) && ReadsBack(texts, Twice(list, js).0) && ReadsBack(texts, Twice(list, js).1)
    ensures var payload := DestinationsPayload(texts, js);
      var text := texts.write(Canonical.CanonicalForm(list, js));
      (SharedStore.OwnSpelling(text, payload) <==> FiniteList(list, js))
      && Convergence.Settles(text, payload)
  {
    hide Canonical.CanonicalForm, Canonical.Normal;
    Canonical.CanonicalIsFixedPoint(list, js);
    var (once, twice) := Twice(list, js);
    var again := Canonical.List(Canonical.ParseAll(once));
    forall i | 0 <= i < |once| ensures Canonical.Finitely(Canonical.Normal(again.items[i], i, js)) {
      ParsedIsFinite(once[i], i, js);
    }
    Canonical.CanonicalIsFixedPoint(again, js);
    if Canonical.ParseAll(once) == Canonical.ParseAll(twice) {
      ParseInjective(once, twice);
    }
  }

  lemma ParsedIsFinite(s: Canonical.Spelt, i: nat, js: Canonical.Engine)
    ensures Canonical.Finitely(Canonical.Normal(Canonical.Parse(s), i, js))
  {
  }

  lemma ParseInjective(a: seq<Canonical.Spelt>, b: seq<Canonical.Spelt>)
    requires Canonical.ParseAll(a) == Canonical.ParseAll(b)
    ensures a == b
  {
    assert |a| == |b|;
    forall i | 0 <= i < |a| ensures a[i] == b[i] {
      assert Canonical.ParseAll(a)[i] == Canonical.Parse(a[i]) && Canonical.ParseAll(b)[i] == Canonical.Parse(b[i]);
    }
  }

  /** No list but the empty one is written as the empty one is. */
  ghost predicate EmptyWrittenOnce(texts: Texts) {
    forall c :: texts.write(c) == texts.write([]) ==> c == []
  }

  /** A text that `parseDestinations` finds destinations in. */
  predicate HasDestinations(texts: Texts, text: string) {
    texts.read(text).List? && texts.read(text).items != []
  }

  lemma SpeltAsEmptyIff(js: Canonical.Engine, texts: Texts, text: string)
    requires EmptyWrittenOnce(texts)
    ensures var payload := DestinationsPayload(texts, js);
      payload.canon(text) == payload.emptyJson <==> !HasDestinations(texts, text)
  {
    hide Canonical.Normal;
    var list := texts.read(text);
    assert |Canonical.CanonicalForm(list, js)| == if list.List? then |list.items| else 0;
  }

  /** For destinations the guard against wiping at start-up holds, over all runs in which the file holds none but the
      texts `held`, exactly if each of them has destinations in it or is the empty list as it is written: no widget
      empties a file of lists, and nothing else is safe. */
  lemma DestinationsGuardIff(js: Canonical.Engine, texts: Texts, held: iset<string>)
    requires EmptyWrittenOnce(texts)
    ensures SharedStore.NeverWipes(DestinationsPayload(texts, js), held)
      <==> forall text :: text in held ==> HasDestinations(texts, text) || text == texts.write([])
  {
    hide EmptyWrittenOnce, HasDestinations, SharedStore.NeverWipes;
    var payload := DestinationsPayload(texts, js);
    forall text ensures payload.canon(text) == payload.emptyJson <==> !HasDestinations(texts, text) {
      SpeltAsEmptyIff(js, texts, text);
    }
    SharedStore.NoStartUpWipeIff(payload, held);
  }

  /** So as long as the file holds lists that are read back as they were written, no widget empties it that has had no
      destinations itself. */
  lemma WrittenListsAreSafe(js: Canonical.Engine, texts: Texts, held: iset<string>)
    requires EmptyWrittenOnce(texts)
    requires forall text :: text in held ==> exists c :: text == texts.write(c) && ReadsBack(texts, c)
    ensures SharedStore.NeverWipes(DestinationsPayload(texts, js), held)
  {
    forall text | text in held ensures HasDestinations(texts, text) || text == texts.write([]) {
      var c :| text == texts.write(c) && ReadsBack(texts, c);
      assert |Canonical.ParseAll(c)| == |c|;
    }
    DestinationsGuardIff(js, texts, held);
  }

  /** But a file whose payload is no list is not safe: it is read as an empty one, and a widget that has never had any
      destination then publishes that over it. */
  lemma UnreadableListIsWiped(js: Canonical.Engine, texts: Texts, text: string)
    requires texts.read(text) == Canonical.List([]) && text != texts.write([])
    ensures !SharedStore.NeverWipes(DestinationsPayload(texts, js), iset{text})
  {
    var payload := DestinationsPayload(texts, js);
    assert Canonical.Normals([], js) == [];
    assert Canonical.CanonicalForm(Canonical.List([]), js) == [];
    assert payload.canon(text) == payload.emptyJson;
    assert text in iset{text};
    SharedStore.NoStartUpWipeIff(payload, iset{text});
  }
}
