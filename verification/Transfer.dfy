/** Export and import of destination lists. */
module Transfer {
  import opened Canonical

  /** A file to import, as `JSON.parse` finds it. */
  datatype Document = Malformed | NoList | Bare(items: seq<Item>) | Envelope(items: seq<Item>)

  datatype Limits = Limits(thresholdUs: real, sensitivity: real, maximum: int)

  /** What an import has gathered so far; `drawn` counts the ids that `newId` has supplied. */
  datatype Import = Import(kept: seq<Destination>, seen: set<string>, skipped: nat, dropped: nat, drawn: nat)

  /** `seen = {}` is not empty: these names lead to what every object inherits. */
  const INHERITED: set<string> := {
    "constructor", "toString", "toLocaleString", "valueOf", "hasOwnProperty", "isPrototypeOf", "propertyIsEnumerable",
    "__proto__", "__defineGetter__", "__defineSetter__", "__lookupGetter__", "__lookupSetter__" }

  // ---- conversions ------------------------------------------------------

  /** White space and line terminators of the language. */
  predicate IsSpace(c: char) {
    var n := c as int;
    9 <= n <= 13 || n == 0x20 || n == 0xA0 || n == 0x1680 || 0x2000 <= n <= 0x200A || n == 0x2028 || n == 0x2029
    || n == 0x202F || n == 0x205F || n == 0x3000 || n == 0xFEFF
  }

  function TrimStart(s: string): string {
    if s != [] && IsSpace(s[0]) then TrimStart(s[1..]) else s
  }

  function TrimEnd(s: string): string {
    if s != [] && IsSpace(s[|s| - 1]) then TrimEnd(s[..|s| - 1]) else s
  }

  function Trim(s: string): string {
    TrimEnd(TrimStart(s))
  }

  /** No white space at either end. */
  predicate Trimmed(s: string) {
    s == [] || (!IsSpace(s[0]) && !IsSpace(s[|s| - 1]))
  }

  lemma {:induction false} TrimStartStarts(s: string)
    ensures var r := TrimStart(s);
      r == [] || !IsSpace(r[0])
  {
    if s != [] && IsSpace(s[0]) {
      TrimStartStarts(s[1..]);
    }
  }

  lemma {:induction false} TrimEndEnds(s: string)
    ensures var r := TrimEnd(s);
      (r == [] || !IsSpace(r[|r| - 1])) && r <= s
  {
    if s != [] && IsSpace(s[|s| - 1]) {
      TrimEndEnds(s[..|s| - 1]);
    }
  }

  lemma TrimTrims(s: string)
    ensures Trimmed(Trim(s))
    ensures Trimmed(s) ==> Trim(s) == s
  {
    TrimStartStarts(s);
    TrimEndEnds(TrimStart(s));
  }

  /** `Math.round` */
  function Rounded(r: real): real {
    (r + 0.5).Floor as real
  }

  /** A finite number within its range, or the default; then rounded. */
  function Within(n: Num, low: real, high: real, default_: real): real {
    Rounded(if n.Finite? && low <= n.r <= high then n.r else default_)
  }

  // ---- import -----------------------------------------------------------

  function AddressOf(entry: Item, js: Engine): string {
    Trim(TextOr(entry.address, js))
  }

  function NameOf(entry: Item, js: Engine): string {
    if entry.name == Undefined || AsText(entry.name, js) == "" then AddressOf(entry, js) else AsText(entry.name, js)
  }

  predicate Taken(id: string, seen: set<string>) {
    id == "" || id in INHERITED || id in seen
  }

  /** The entry as it is kept at place `place` under `id`. */
  function Kept(entry: Item, id: string, place: nat, limits: Limits, js: Engine): Destination {
    Destination(id, NameOf(entry, js), AddressOf(entry, js), Finite(place as real),
                Finite(Within(AsNumber(entry.thresholdUs, js), 1.0, 60_000_000.0, limits.thresholdUs)),
                Finite(Within(AsNumber(entry.sensitivity, js), 0.0, 1000.0, limits.sensitivity)),
                entry.enabled != Bool(false), entry.partTime == Bool(true))
  }

  /** One turn of the loop. */
  function Take(s: Import, entry: Item, limits: Limits, newId: nat -> string, js: Engine): Import {
    if AddressOf(entry, js) == "" then s.(skipped := s.skipped + 1)
    else if |s.kept| >= limits.maximum then s.(dropped := s.dropped + 1)
    else
      var given := TextOr(entry.id, js);
      var taken := Taken(given, s.seen);
      var id := if taken then newId(s.drawn) else given;
      Import(s.kept + [Kept(entry, id, |s.kept| + 1, limits, js)], s.seen + {id}, s.skipped, s.dropped,
             if taken then s.drawn + 1 else s.drawn)
  }

  function TakeAll(s: Import, items: seq<Item>, limits: Limits, newId: nat -> string, js: Engine): Import
    decreases |items|
  {
    if items == [] then s else TakeAll(Take(s, items[0], limits, newId, js), items[1..], limits, newId, js)
  }

  const NOTHING := Import([], {}, 0, 0, 0)

  function Imported(document: Document, limits: Limits, newId: nat -> string, js: Engine): Import {
    if document.Bare? || document.Envelope? then TakeAll(NOTHING, document.items, limits, newId, js) else NOTHING
  }

  /** `importDocument` */
  method ImportDocument(document: Document, limits: Limits, newId: nat -> string, js: Engine)
    returns (ok: bool, destinations: seq<Destination>, skipped: nat, dropped: nat)
    ensures ok <==> document.Bare? || document.Envelope?
    ensures var r := Imported(document, limits, newId, js);
      destinations == r.kept && skipped == r.skipped && dropped == r.dropped
  {
    hide Within, AddressOf, NameOf;
    if document.Malformed? || document.NoList? {
      return false, [], 0, 0;
    }
    var raw := document.items;
    var out, seen, drawn: nat := [], {}, 0;
    skipped, dropped := 0, 0;
    var i := 0;
    while i < |raw|
      invariant 0 <= i <= |raw|
      invariant TakeAll(Import(out, seen, skipped, dropped, drawn), raw[i..], limits, newId, js)
             == TakeAll(NOTHING, raw, limits, newId, js)
    {
      var entry := raw[i];
      assert raw[i..][0] == entry && raw[i..][1..] == raw[i + 1..];
      i := i + 1;
      var address := AddressOf(entry, js);
      if |address| == 0 {
        skipped := skipped + 1;
        continue;
      }
      if |out| >= limits.maximum {
        dropped := dropped + 1;
        continue;
      }
      var id := TextOr(entry.id, js);
      if |id| == 0 || id in INHERITED || id in seen {
        id := newId(drawn);
        drawn := drawn + 1;
      }
      seen := seen + {id};
      out := out + [Kept(entry, id, |out| + 1, limits, js)];
    }
    assert raw[i..] == [];
    return true, out, skipped, dropped;
  }

  // ---- what every import is ---------------------------------------------

  /** A whole number from `low` to `high`. */
  predicate Whole(n: Num, low: real, high: real) {
    n.Finite? && low <= n.r <= high && n.r.Floor as real == n.r
  }

  /** What an import can give back at place `place`. */
  predicate Importable(d: Destination, place: nat) {
    d.id != "" && d.id !in INHERITED && d.name != "" && d.address != "" && Trimmed(d.address)
    && d.order == Finite(place as real)
    && Whole(d.thresholdUs, 1.0, 60_000_000.0) && Whole(d.sensitivity, 0.0, 1000.0)
  }

  predicate DistinctIds(s: seq<Destination>) {
    forall i, j :: 0 <= i < j < |s| ==> s[i].id != s[j].id
  }

  predicate ImportableList(s: seq<Destination>, maximum: int) {
    (|s| == 0 || |s| <= maximum) && DistinctIds(s) && forall i :: 0 <= i < |s| ==> Importable(s[i], i + 1)
  }

  /** Defaults in range; new ids are never empty, inherited, drawn twice, or already in the document. */
  ghost predicate Sensible(limits: Limits, newId: nat -> string, items: seq<Item>, js: Engine) {
    Whole(Finite(limits.thresholdUs), 1.0, 60_000_000.0) && Whole(Finite(limits.sensitivity), 0.0, 1000.0)
    && (forall n :: newId(n) != "" && newId(n) !in INHERITED)
    && (forall m, n :: newId(m) == newId(n) ==> m == n)
    && forall n, i :: 0 <= i < |items| ==> newId(n) != TextOr(items[i].id, js)
  }

  lemma FloorOf(n: int, r: real)
    requires n as real <= r < n as real + 1.0
    ensures r.Floor == n
  {
  }

  lemma RoundedWhole(r: real, low: int, high: int)
    requires low as real <= r <= high as real
    ensures Whole(Finite(Rounded(r)), low as real, high as real)
    ensures r.Floor as real == r ==> Rounded(r) == r
  {
    var n := (r + 0.5).Floor;
    assert n as real <= r + 0.5 < n as real + 1.0;
    assert low as real < n as real + 1.0 ==> low <= n;
    assert n as real < high as real + 1.0 ==> n <= high;
    FloorOf(n, n as real);
    if r.Floor as real == r {
      FloorOf(r.Floor, r + 0.5);
    }
  }

  lemma WithinWhole(n: Num, low: int, high: int, default_: real)
    requires Whole(Finite(default_), low as real, high as real)
    ensures Whole(Finite(Within(n, low as real, high as real, default_)), low as real, high as real)
    ensures Whole(n, low as real, high as real) ==> Finite(Within(n, low as real, high as real, default_)) == n
  {
    RoundedWhole(if n.Finite? && low as real <= n.r <= high as real then n.r else default_, low, high);
  }

  /** While importing: the kept list is importable, `seen` is its ids, and each id is one of the document's or a new
      one. */
  ghost predicate Gathered(s: Import, limits: Limits, newId: nat -> string) {
    ImportableList(s.kept, limits.maximum)
    && (forall i :: 0 <= i < |s.kept| ==> s.kept[i].id in s.seen)
    && forall n :: n >= s.drawn ==> newId(n) !in s.seen
  }

  lemma KeptImportable(entry: Item, id: string, place: nat, limits: Limits, js: Engine)
    requires AddressOf(entry, js) != "" && id != "" && id !in INHERITED
    requires Whole(Finite(limits.thresholdUs), 1.0, 60_000_000.0) && Whole(Finite(limits.sensitivity), 0.0, 1000.0)
    ensures Importable(Kept(entry, id, place, limits, js), place)
  {
    hide Within, Trim, Trimmed;
    TrimTrims(TextOr(entry.address, js));
    WithinWhole(AsNumber(entry.thresholdUs, js), 1, 60_000_000, limits.thresholdUs);
    WithinWhole(AsNumber(entry.sensitivity, js), 0, 1000, limits.sensitivity);
  }

  lemma TakeGathers(s: Import, items: seq<Item>, limits: Limits, newId: nat -> string, js: Engine)
    requires items != [] && Sensible(limits, newId, items, js) && Gathered(s, limits, newId)
    ensures Gathered(Take(s, items[0], limits, newId, js), limits, newId)
    ensures Sensible(limits, newId, items[1..], js)
  {
    hide Whole, Importable, AddressOf, Kept;
    var entry := items[0];
    if AddressOf(entry, js) != "" && |s.kept| < limits.maximum {
      var given := TextOr(entry.id, js);
      var id := if Taken(given, s.seen) then newId(s.drawn) else given;
      KeptImportable(entry, id, |s.kept| + 1, limits, js);
      assert Kept(entry, id, |s.kept| + 1, limits, js).id == id by {
        KeptId(entry, id, |s.kept| + 1, limits, js);
      }
    }
  }

  lemma KeptId(entry: Item, id: string, place: nat, limits: Limits, js: Engine)
    ensures Kept(entry, id, place, limits, js).id == id
  {
  }

  lemma {:induction false} AllGathered(s: Import, items: seq<Item>, limits: Limits, newId: nat -> string, js: Engine)
    requires Sensible(limits, newId, items, js) && Gathered(s, limits, newId)
    ensures Gathered(TakeAll(s, items, limits, newId, js), limits, newId)
    decreases |items|
  {
    hide Sensible, Gathered, Take;
    if items != [] {
      TakeGathers(s, items, limits, newId, js);
      AllGathered(Take(s, items[0], limits, newId, js), items[1..], limits, newId, js);
    }
  }

  /** The entries with an address. */
  function Usable(items: seq<Item>, js: Engine): seq<Item> {
    if items == [] then []
    else (if AddressOf(items[0], js) == "" then [] else [items[0]]) + Usable(items[1..], js)
  }

  function Clip(n: int): nat {
    if n < 0 then 0 else n
  }

  /** What is kept is the first usable entries, in order, up to the maximum; the rest are counted. */
  lemma {:induction false} TakeAllKeeps(s: Import, items: seq<Item>, limits: Limits, newId: nat -> string, js: Engine)
    requires |s.kept| <= Clip(limits.maximum)
    ensures var r, usable := TakeAll(s, items, limits, newId, js), Usable(items, js);
      var room := Clip(limits.maximum) - |s.kept|;
      var more := if |usable| < room then |usable| else room;
      |r.kept| == |s.kept| + more && r.kept[..|s.kept|] == s.kept
      && r.skipped == s.skipped + |items| - |usable| && r.dropped == s.dropped + |usable| - more
      && forall k :: 0 <= k < more ==>
           r.kept[|s.kept| + k] == Kept(usable[k], r.kept[|s.kept| + k].id, |s.kept| + k + 1, limits, js)
    decreases |items|
  {
    hide Kept, AddressOf, Taken, Take;
    if items != [] {
      var t, n := Take(s, items[0], limits, newId, js), |s.kept|;
      if AddressOf(items[0], js) == "" || n >= limits.maximum {
        FirstNotKept(s, items[0], limits, newId, js);
        TakeAllKeeps(t, items[1..], limits, newId, js);
      } else {
        FirstKept(s, items[0], limits, newId, js);
        TakeAllKeeps(t, items[1..], limits, newId, js);
        var r, usable := TakeAll(s, items, limits, newId, js), Usable(items, js);
        assert r == TakeAll(t, items[1..], limits, newId, js);
        assert usable[1..] == Usable(items[1..], js) && usable[0] == items[0];
        hide TakeAll, Usable;
        assert r.kept[..n] == t.kept[..n] == s.kept by {
          assert r.kept[..n + 1][..n] == r.kept[..n];
        }
        assert r.kept[n] == t.kept[n] by {
          assert r.kept[..n + 1][n] == r.kept[n];
        }
        forall k | 0 <= k < |r.kept| - n
          ensures r.kept[n + k] == Kept(usable[k], r.kept[n + k].id, n + k + 1, limits, js)
        {
          if k > 0 {
            assert r.kept[|t.kept| + (k - 1)] == r.kept[n + k];
            assert usable[1..][k - 1] == usable[k];
          }
        }
      }
    }
  }

  lemma FirstNotKept(s: Import, entry: Item, limits: Limits, newId: nat -> string, js: Engine)
    requires AddressOf(entry, js) == "" || |s.kept| >= limits.maximum
    ensures var t := Take(s, entry, limits, newId, js);
      t.kept == s.kept && t.skipped == s.skipped + (if AddressOf(entry, js) == "" then 1 else 0)
      && t.dropped == s.dropped + (if AddressOf(entry, js) == "" then 0 else 1)
  {
  }

  lemma FirstKept(s: Import, entry: Item, limits: Limits, newId: nat -> string, js: Engine)
    requires AddressOf(entry, js) != "" && |s.kept| < limits.maximum
    ensures var t := Take(s, entry, limits, newId, js);
      |t.kept| == |s.kept| + 1 && t.kept[..|s.kept|] == s.kept && t.skipped == s.skipped && t.dropped == s.dropped
      && t.kept[|s.kept|] == Kept(entry, t.kept[|s.kept|].id, |s.kept| + 1, limits, js)
  {
  }

  /** Every import: nothing is lost uncounted, the maximum is respected, and the result is the first usable entries,
      numbered from 1, with distinct ids and every field in range. */
  lemma ImportAccounts(document: Document, limits: Limits, newId: nat -> string, js: Engine)
    requires document.Bare? || document.Envelope?
    requires Sensible(limits, newId, document.items, js)
    ensures var r, usable := Imported(document, limits, newId, js), Usable(document.items, js);
      |r.kept| + r.skipped + r.dropped == |document.items| && |r.kept| <= Clip(limits.maximum)
      && (r.dropped > 0 ==> |r.kept| == Clip(limits.maximum)) && r.skipped == |document.items| - |usable|
      && ImportableList(r.kept, limits.maximum)
      && forall k :: 0 <= k < |r.kept| ==> k < |usable| && r.kept[k] == Kept(usable[k], r.kept[k].id, k + 1, limits, js)
  {
    hide Kept, Usable, Importable, Take;
    TakeAllKeeps(NOTHING, document.items, limits, newId, js);
    AllGathered(NOTHING, document.items, limits, newId, js);
    var r := Imported(document, limits, newId, js);
    var usable := Usable(document.items, js);
    forall k | 0 <= k < |r.kept|
      ensures k < |usable| && r.kept[k] == Kept(usable[k], r.kept[k].id, k + 1, limits, js)
    {
      assert r.kept[0 + k] == r.kept[k];
    }
  }

  // ---- export -----------------------------------------------------------

  /** `exportDocument`, read back by `JSON.parse`: an envelope around the canonical list. */
  function Exported(list: Listing, js: Engine): Document {
    Envelope(ParseAll(CanonicalForm(list, js)))
  }

  /** A destination as a JSON text spells it and `importDocument` could give it back. */
  predicate ImportableSpelt(s: Spelt, place: nat) {
    s.order.NumberLiteral? && s.thresholdUs.NumberLiteral? && s.sensitivity.NumberLiteral?
    && Importable(Unspell(s), place)
  }

  function Value(l: Literal): Num {
    if l.NumberLiteral? then Finite(l.r) else NaN
  }

  function Unspell(s: Spelt): Destination {
    Destination(s.id, s.name, s.address, Value(s.order), Value(s.thresholdUs), Value(s.sensitivity), s.enabled,
                s.partTime)
  }

  function UnspellAll(s: seq<Spelt>): (r: seq<Destination>)
    ensures |r| == |s| && forall i :: 0 <= i < |s| ==> r[i] == Unspell(s[i])
  {
    seq(|s|, i requires 0 <= i < |s| => Unspell(s[i]))
  }

  /** One exported entry, imported: unchanged if importable. */
  lemma TakeImportable(s: Import, d: Spelt, limits: Limits, newId: nat -> string, js: Engine)
    requires ImportableSpelt(d, |s.kept| + 1) && |s.kept| < limits.maximum && d.id !in s.seen
    requires Whole(Finite(limits.thresholdUs), 1.0, 60_000_000.0) && Whole(Finite(limits.sensitivity), 0.0, 1000.0)
    ensures Take(s, Parse(d), limits, newId, js)
         == Import(s.kept + [Unspell(d)], s.seen + {d.id}, s.skipped, s.dropped, s.drawn)
  {
    hide Within, Whole;
    hide Trim, Trimmed;
    TrimTrims(d.address);
    WithinWhole(Finite(d.thresholdUs.r), 1, 60_000_000, limits.thresholdUs);
    WithinWhole(Finite(d.sensitivity.r), 0, 1000, limits.sensitivity);
  }

  lemma {:induction false} TakeAllImportable(s: Import, spelt: seq<Spelt>, n: nat, limits: Limits,
                                             newId: nat -> string, js: Engine)
    requires ImportableList(UnspellAll(spelt), limits.maximum) && n <= |spelt|
    requires s == Import(UnspellAll(spelt)[..n], set k | 0 <= k < n :: spelt[k].id, 0, 0, 0)
    requires Whole(Finite(limits.thresholdUs), 1.0, 60_000_000.0) && Whole(Finite(limits.sensitivity), 0.0, 1000.0)
    ensures TakeAll(s, ParseAll(spelt)[n..], limits, newId, js).kept == UnspellAll(spelt)
    decreases |spelt| - n
  {
    hide Whole, Take, Importable;
    var items := ParseAll(spelt);
    if n < |spelt| {
      var d := spelt[n];
      assert Importable(UnspellAll(spelt)[n], n + 1);
      forall k | 0 <= k < n ensures spelt[k].id != d.id {
        assert UnspellAll(spelt)[k].id != UnspellAll(spelt)[n].id;
      }
      SpeltFinite(d, n + 1);
      TakeImportable(s, d, limits, newId, js);
      assert items[n..][0] == Parse(d) && items[n..][1..] == items[n + 1..];
      TakeAllImportable(Take(s, Parse(d), limits, newId, js), spelt, n + 1, limits, newId, js);
    }
  }

  lemma SpeltFinite(d: Spelt, place: nat)
    requires Importable(Unspell(d), place)
    ensures ImportableSpelt(d, place)
  {
  }

  /** Orders 1, 2, 3... are sorted already. */
  lemma NumberedIsCanonical(kept: seq<Destination>, js: Engine)
    requires forall i :: 0 <= i < |kept| ==> kept[i].order == Finite((i + 1) as real)
    ensures Sort(kept, js) == kept
  {
    forall i | 0 <= i < |kept| - 1 ensures Compare(kept[i], kept[i + 1], js) <= 0 {
    }
    SortedStays(kept, js);
  }

  /** The list of an import, as the widget then holds it. */
  function AsItem(d: Destination): Item {
    Item(Text(d.id), Text(d.name), Text(d.address), Number(d.order), Number(d.thresholdUs), Number(d.sensitivity),
         Bool(d.enabled), Bool(d.partTime))
  }

  function AsItems(s: seq<Destination>): (r: seq<Item>)
    ensures |r| == |s| && forall i :: 0 <= i < |s| ==> r[i] == AsItem(s[i])
  {
    seq(|s|, i requires 0 <= i < |s| => AsItem(s[i]))
  }

  lemma ImportedForm(kept: seq<Destination>, js: Engine)
    requires forall i :: 0 <= i < |kept| ==> kept[i].order == Finite((i + 1) as real)
    ensures CanonicalForm(List(AsItems(kept)), js) == SpellAll(kept)
  {
    NumberedIsCanonical(kept, js);
    assert Normals(AsItems(kept), js) == kept;
  }

  /** Importing what was exported gives a list with the same canonical form exactly if that form is importable: its ids
      are distinct, not empty and not names that every object inherits, its names and trimmed addresses are not empty,
      its numbers are whole and in range, its orders are 1 to n, and n does not exceed the maximum. */
  lemma ExportThenImport(list: Listing, limits: Limits, newId: nat -> string, js: Engine)
    requires Sensible(limits, newId, Exported(list, js).items, js)
    ensures var canonical := CanonicalForm(list, js);
      CanonicalForm(List(AsItems(Imported(Exported(list, js), limits, newId, js).kept)), js) == canonical
      <==> ImportableList(UnspellAll(canonical), limits.maximum)
  {
    hide Importable, Whole, Sort, Usable, Take;
    var canonical := CanonicalForm(list, js);
    var kept := Imported(Exported(list, js), limits, newId, js).kept;
    ImportAccounts(Exported(list, js), limits, newId, js);
    forall i | 0 <= i < |kept| ensures kept[i].order == Finite((i + 1) as real) {
      OrderOf(kept[i], i + 1);
    }
    ImportedForm(kept, js);
    if ImportableList(UnspellAll(canonical), limits.maximum) {
      assert ParseAll(canonical)[0..] == ParseAll(canonical);
      TakeAllImportable(NOTHING, canonical, 0, limits, newId, js);
      assert kept == UnspellAll(canonical);
      SpellUnspell(canonical, limits.maximum);
    }
    if SpellAll(kept) == canonical {
      UnspellSpell(kept, limits.maximum);
    }
  }

  lemma OrderOf(d: Destination, place: nat)
    requires Importable(d, place)
    ensures d.order == Finite(place as real)
  {
  }

  lemma SpellUnspell(s: seq<Spelt>, maximum: int)
    requires ImportableList(UnspellAll(s), maximum)
    ensures SpellAll(UnspellAll(s)) == s
  {
    forall i | 0 <= i < |s| ensures Spell(Unspell(s[i])) == s[i] {
      assert Importable(UnspellAll(s)[i], i + 1);
    }
  }

  lemma UnspellSpell(s: seq<Destination>, maximum: int)
    requires ImportableList(s, maximum)
    ensures UnspellAll(SpellAll(s)) == s
  {
    forall i | 0 <= i < |s| ensures Unspell(Spell(s[i])) == s[i] {
      assert Importable(s[i], i + 1);
    }
  }

  /** A destination with nothing wrong but its id. */
  const UNLUCKY := Item(Text("constructor"), Text("Router"), Text("10.0.0.1"), Number(Finite(1.0)),
                        Number(Finite(1000.0)),
                        Number(Finite(3.0)), Bool(true), Undefined)

  /** So a list that is fine in every other respect comes back under another id. */
  lemma InheritedIdChanges(limits: Limits, newId: nat -> string, js: Engine)
    requires limits.maximum >= 1 && Sensible(limits, newId, [UNLUCKY], js)
    ensures var kept := Imported(Exported(List([UNLUCKY]), js), limits, newId, js).kept;
      CanonicalForm(List(AsItems(kept)), js) != CanonicalForm(List([UNLUCKY]), js) && |kept| == 1
      && kept[0].id == newId(0)
  {
    var d := Normal(UNLUCKY, 0, js);
    var list := List([UNLUCKY]);
    assert Normals([UNLUCKY], js) == [d];
    assert Sort([d], js) == [d];
    var canonical := CanonicalForm(list, js);
    assert canonical == [Spell(d)];
    var items := Exported(list, js).items;
    assert items == [Parse(Spell(d))];
    ExportThenImport(list, limits, newId, js);
    assert UnspellAll(canonical)[0].id == "constructor";
    TrimTrims("10.0.0.1");
    assert items[1..] == [];
    var r := Take(NOTHING, items[0], limits, newId, js);
    assert TakeAll(NOTHING, items, limits, newId, js) == TakeAll(r, items[1..], limits, newId, js) == r;
  }

  // ---- the fields of an entry -------------------------------------------

  predicate AllSpaces(s: string) {
    forall i :: 0 <= i < |s| ==> IsSpace(s[i])
  }

  lemma {:induction false} TrimStartTakes(s: string) returns (a: string)
    ensures s == a + TrimStart(s) && AllSpaces(a)
  {
    hide IsSpace;
    if s != [] && IsSpace(s[0]) {
      var more := TrimStartTakes(s[1..]);
      a := [s[0]] + more;
      assert s == [s[0]] + s[1..];
    } else {
      a := [];
    }
  }

  lemma {:induction false} TrimEndTakes(s: string) returns (b: string)
    ensures s == TrimEnd(s) + b && AllSpaces(b)
  {
    hide IsSpace;
    if s != [] && IsSpace(s[|s| - 1]) {
      var more := TrimEndTakes(s[..|s| - 1]);
      b := more + [s[|s| - 1]];
      assert s == s[..|s| - 1] + [s[|s| - 1]];
    } else {
      b := [];
    }
  }

  /** Trimming takes white space from both ends, and nothing else. */
  lemma TrimTakesSpaces(s: string) returns (a: string, b: string)
    ensures s == a + Trim(s) + b && AllSpaces(a) && AllSpaces(b)
  {
    hide TrimStart, TrimEnd, AllSpaces;
    a := TrimStartTakes(s);
    b := TrimEndTakes(TrimStart(s));
    assert a + (Trim(s) + b) == a + Trim(s) + b;
  }

  /** To the nearest whole number, and up in the middle. */
  lemma RoundedIsNearest(r: real)
    ensures Rounded(r) == Rounded(r).Floor as real && -0.5 < Rounded(r) - r <= 0.5
  {
  }

  /** What is kept of an entry: its trimmed address; its name, or the address if it has none; numbers in range as
      they are, or else the default, in whole numbers; enabled unless it says `false`, and part-time only if it says
      `true`. */
  lemma KeptFields(entry: Item, id: string, place: nat, limits: Limits, js: Engine)
    ensures var d := Kept(entry, id, place, limits, js);
      d.id == id && d.order == Finite(place as real)
      && d.address == (if entry.address == Undefined then "" else Trim(AsText(entry.address, js)))
      && d.name == (if entry.name != Undefined
                    && AsText(entry.name, js) != "" then AsText(entry.name, js) else d.address)
      && d.enabled == (entry.enabled != Bool(false)) && d.partTime == (entry.partTime == Bool(true))
    ensures var d := Kept(entry, id, place, limits, js);
      var t, n := AsNumber(entry.thresholdUs, js), AsNumber(entry.sensitivity, js);
      (t.Finite? && 1.0 <= t.r <= 60_000_000.0 ==> d.thresholdUs == Finite(Rounded(t.r)))
      && (!(t.Finite? && 1.0 <= t.r <= 60_000_000.0) ==> d.thresholdUs == Finite(Rounded(limits.thresholdUs)))
      && (n.Finite? && 0.0 <= n.r <= 1000.0 ==> d.sensitivity == Finite(Rounded(n.r)))
      && (!(n.Finite? && 0.0 <= n.r <= 1000.0) ==> d.sensitivity == Finite(Rounded(limits.sensitivity)))
  {
    assert Trim("") == "";
  }

  /** Which id an entry is kept under: its own, unless it has none, or the id leads to something in `seen` already. */
  lemma IdGiven(s: Import, entry: Item, limits: Limits, newId: nat -> string, js: Engine)
    requires AddressOf(entry, js) != "" && |s.kept| < limits.maximum
    ensures var t := Take(s, entry, limits, newId, js);
      var own := if entry.id == Undefined then "" else AsText(entry.id, js);
      |t.kept| == |s.kept| + 1 && t.kept[..|s.kept|] == s.kept
      && t.kept[|s.kept|].id == (if own != "" && own !in INHERITED && own !in s.seen then own else newId(s.drawn))
      && t.seen == s.seen + {t.kept[|s.kept|].id}
  {
  }
}
