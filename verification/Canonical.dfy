/** The canonical spelling of a destination list: package/contents/ui/utils.js. */
module Canonical {

  /** A JavaScript number, as far as ordering and JSON care. */
  datatype Num = Finite(r: real) | Infinite(negative: bool) | NaN

  /** A value found in a field; `Compound` stands for arrays and objects. */
  datatype Js = Undefined | Null | Bool(b: bool) | Number(n: Num) | Text(s: string) | Compound(code: nat)

  /** One element of a list, field by field. An element that is not an object has no field at all. */
  datatype Item = Item(id: Js, name: Js, address: Js, order: Js, thresholdUs: Js, sensitivity: Js, enabled: Js,
                       partTime: Js)

  datatype Destination = Destination(
    id: string, name: string, address: string, order: Num, thresholdUs: Num, sensitivity: Num, enabled: bool,
    partTime: bool)

  /** A number in a JSON text; those that are not finite are written `null`. */
  datatype Literal = NullLiteral | NumberLiteral(r: real)

  /** A destination as a JSON text spells it; `partTime` appears only if set. */
  datatype Spelt = Spelt(
    id: string, name: string, address: string, order: Literal, thresholdUs: Literal, sensitivity: Literal,
    enabled: bool, partTime: bool)

  /** What the engine supplies: `String` and `Number` where they are not plain, and `localeCompare`. */
  datatype Engine = Engine(
    numberText: Num -> string, textNumber: string -> Num, compoundText: nat -> string, compoundNumber: nat -> Num,
    localeCompare: (string, string) -> int)

  datatype Listing = NotAList | List(items: seq<Item>)

  /** `localeCompare` says the opposite when asked the other way round. */
  ghost predicate Compares(js: Engine) {
    forall a, b :: js.localeCompare(a, b) <= 0 <==> js.localeCompare(b, a) >= 0
  }

  /** `localeCompare` orders all strings, ties allowed. */
  ghost predicate Collates(js: Engine) {
    Compares(js) && forall a, b, c :: js.localeCompare(a, b) <= 0 && js.localeCompare(b, c) <= 0 ==>
        js.localeCompare(a, c) <= 0
  }

  function AsText(v: Js, js: Engine): string {
    match v
    case Undefined => "undefined"
    case Null => "null"
    case Bool(b) => if b then "true" else "false"
    case Number(n) => js.numberText(n)
    case Text(s) => s
    case Compound(code) => js.compoundText(code)
  }

  function AsNumber(v: Js, js: Engine): Num {
    match v
    case Undefined => NaN
    case Null => Finite(0.0)
    case Bool(b) => Finite(if b then 1.0 else 0.0)
    case Number(n) => n
    case Text(s) => js.textNumber(s)
    case Compound(code) => js.compoundNumber(code)
  }

  /** `String(x === undefined ? "" : x)` */
  function TextOr(v: Js, js: Engine): string {
    if v == Undefined then "" else AsText(v, js)
  }

  /** `Number(x === undefined ? fallback : x)` */
  function NumberOr(v: Js, fallback: real, js: Engine): Num {
    if v == Undefined then Finite(fallback) else AsNumber(v, js)
  }

  /** The loop's body for the entry at `i`. */
  function Normal(entry: Item, i: nat, js: Engine): Destination {
    Destination(TextOr(entry.id, js), TextOr(entry.name, js), TextOr(entry.address, js),
                NumberOr(entry.order, (i + 1) as real, js), NumberOr(entry.thresholdUs, 1000.0, js),
                NumberOr(entry.sensitivity, 3.0, js),
                entry.enabled != Bool(false), entry.partTime == Bool(true))
  }

  function Normals(items: seq<Item>, js: Engine): (r: seq<Destination>)
    ensures |r| == |items| && forall i :: 0 <= i < |items| ==> r[i] == Normal(items[i], i, js)
  {
    seq(|items|, i requires 0 <= i < |items| => Normal(items[i], i, js))
  }

  // ---- sorting ----------------------------------------------------------

  /** The sign of `a - b`; 0 also where that is not a number. */
  function Difference(a: Num, b: Num): int {
    match (a, b)
    case (Finite(x), Finite(y)) => if x < y then -1 else if x > y then 1 else 0
    case (Finite(_), Infinite(negative)) => if negative then 1 else -1
    case (Infinite(negative), Finite(_)) => if negative then -1 else 1
    case (Infinite(m), Infinite(n)) => if m == n then 0 else if m then -1 else 1
    case _ => 0
  }

  /** `(a.order - b.order) || a.id.localeCompare(b.id)` */
  function Compare(a: Destination, b: Destination, js: Engine): int {
    var difference := Difference(a.order, b.order);
    if difference != 0 then difference else js.localeCompare(a.id, b.id)
  }

  /** Where a stable sort puts one more element. */
  function Insert(s: seq<Destination>, x: Destination, js: Engine): (r: seq<Destination>)
    ensures |r| == |s| + 1
  {
    if s == [] || Compare(s[|s| - 1], x, js) <= 0 then s + [x] else Insert(s[..|s| - 1], x, js) + [s[|s| - 1]]
  }

  /** `Array.prototype.sort`, which the language defines to be stable. */
  function Sort(s: seq<Destination>, js: Engine): (r: seq<Destination>)
    ensures |r| == |s|
  {
    if s == [] then [] else Insert(Sort(s[..|s| - 1], js), s[|s| - 1], js)
  }

  /** Neighbours stand in order. */
  predicate Sorted(s: seq<Destination>, js: Engine) {
    forall i :: 0 <= i < |s| - 1 ==> Compare(s[i], s[i + 1], js) <= 0
  }

  lemma CompareTotal(a: Destination, b: Destination, js: Engine)
    requires Compares(js)
    ensures Compare(a, b, js) <= 0 <==> Compare(b, a, js) >= 0
  {
  }

  lemma {:induction false} InsertSorts(s: seq<Destination>, x: Destination, js: Engine)
    requires Compares(js) && Sorted(s, js)
    ensures Sorted(Insert(s, x, js), js)
    ensures var r := Insert(s, x, js);
      r[|s|] == x || (s != [] && r[|s|] == s[|s| - 1])
  {
    hide Compare, Compares;
    if s != [] && Compare(s[|s| - 1], x, js) > 0 {
      CompareTotal(s[|s| - 1], x, js);
      var front := s[..|s| - 1];
      InsertSorts(front, x, js);
      var t, r := Insert(front, x, js), Insert(s, x, js);
      forall i | 0 <= i < |r| - 1 ensures Compare(r[i], r[i + 1], js) <= 0 {
        assert r[i] == t[i];
        if i == |t| - 1 {
          assert r[i + 1] == s[|s| - 1];
          assert t[i] != x ==> t[i] == s[|s| - 2] && s[|s| - 2 + 1] == s[|s| - 1];
        } else {
          assert r[i + 1] == t[i + 1];
        }
      }
    }
  }

  lemma {:induction false} SortSorts(s: seq<Destination>, js: Engine)
    requires Compares(js)
    ensures Sorted(Sort(s, js), js)
  {
    hide Compares, Compare;
    if s != [] {
      SortSorts(s[..|s| - 1], js);
      InsertSorts(Sort(s[..|s| - 1], js), s[|s| - 1], js);
    }
  }

  lemma {:induction false} SortedStays(s: seq<Destination>, js: Engine)
    requires Sorted(s, js)
    ensures Sort(s, js) == s
  {
    hide Compare;
    if s != [] {
      var front := s[..|s| - 1];
      SortedStays(front, js);
      if front != [] {
        assert Compare(s[|s| - 2], s[|s| - 2 + 1], js) <= 0;
      }
      assert front + [s[|s| - 1]] == s;
    }
  }

  lemma {:induction false} InsertCounts(s: seq<Destination>, x: Destination, js: Engine)
    ensures multiset(Insert(s, x, js)) == multiset(s) + multiset{x}
  {
    hide Compare;
    if s != [] && Compare(s[|s| - 1], x, js) > 0 {
      InsertCounts(s[..|s| - 1], x, js);
      assert s == s[..|s| - 1] + [s[|s| - 1]];
    }
  }

  /** Sorting loses and invents nothing. */
  lemma {:induction false} SortCounts(s: seq<Destination>, js: Engine)
    ensures multiset(Sort(s, js)) == multiset(s)
  {
    if s != [] {
      SortCounts(s[..|s| - 1], js);
      InsertCounts(Sort(s[..|s| - 1], js), s[|s| - 1], js);
      assert s == s[..|s| - 1] + [s[|s| - 1]];
    }
  }

  // ---- the canonical form -----------------------------------------------

  function LiteralOf(n: Num): Literal {
    if n.Finite? then NumberLiteral(n.r) else NullLiteral
  }

  function Spell(d: Destination): Spelt {
    Spelt(d.id, d.name, d.address, LiteralOf(d.order), LiteralOf(d.thresholdUs), LiteralOf(d.sensitivity), d.enabled,
          d.partTime)
  }

  /** `JSON.stringify` of a destination list. */
  function SpellAll(s: seq<Destination>): (r: seq<Spelt>)
    ensures |r| == |s| && forall i :: 0 <= i < |s| ==> r[i] == Spell(s[i])
  {
    seq(|s|, i requires 0 <= i < |s| => Spell(s[i]))
  }

  function Reread(l: Literal): Js {
    if l.NumberLiteral? then Number(Finite(l.r)) else Null
  }

  /** `JSON.parse` of what `JSON.stringify` wrote. */
  function Parse(s: Spelt): Item {
    Item(Text(s.id), Text(s.name), Text(s.address), Reread(s.order), Reread(s.thresholdUs), Reread(s.sensitivity),
         Bool(s.enabled), if s.partTime then Bool(true) else Undefined)
  }

  function ParseAll(s: seq<Spelt>): (r: seq<Item>)
    ensures |r| == |s| && forall i :: 0 <= i < |s| ==> r[i] == Parse(s[i])
  {
    seq(|s|, i requires 0 <= i < |s| => Parse(s[i]))
  }

  function CanonicalForm(list: Listing, js: Engine): seq<Spelt> {
    if list.List? then SpellAll(Sort(Normals(list.items, js), js)) else []
  }

  /** `canonicalDestinations` */
  method CanonicalDestinations(list: Listing, js: Engine) returns (text: seq<Spelt>)
    ensures text == CanonicalForm(list, js)
  {
    if list.NotAList? {
      return [];
    }
    var normalised := [];
    var i := 0;
    while i < |list.items|
      invariant 0 <= i <= |list.items| == |Normals(list.items, js)|
      invariant normalised == Normals(list.items, js)[..i]
    {
      var entry := list.items[i];
      var destination := Destination(
        TextOr(entry.id, js), TextOr(entry.name, js), TextOr(entry.address, js),
        NumberOr(entry.order, (i + 1) as real, js), NumberOr(entry.thresholdUs, 1000.0, js),
        NumberOr(entry.sensitivity, 3.0, js),
        entry.enabled != Bool(false), false);
      if entry.partTime == Bool(true) {
        destination := destination.(partTime := true);
      }
      normalised := normalised + [destination];
      i := i + 1;
    }
    assert normalised == Normals(list.items, js);
    normalised := Sort(normalised, js);
    text := SpellAll(normalised);
  }

  predicate Finitely(d: Destination) {
    d.order.Finite? && d.thresholdUs.Finite? && d.sensitivity.Finite?
  }

  /** Reading a spelling back and normalising it gives the destination again, provided it was all finite;
      otherwise it is spelt differently the second time. */
  lemma RereadDestination(d: Destination, i: nat, js: Engine)
    ensures Finitely(d) ==> Normal(Parse(Spell(d)), i, js) == d
    ensures Finitely(Normal(Parse(Spell(d)), i, js))
    ensures !Finitely(d) ==> Spell(d) != Spell(Normal(Parse(Spell(d)), i, js))
  {
  }

  /** Canonical spelling is a fixed point exactly if every number in the list is finite. A list with an `order`
      of, say, "first" or 1e999 is spelt once with `null` and then, for ever, with 0. */
  lemma CanonicalIsFixedPoint(list: Listing, js: Engine)
    requires Compares(js)
    ensures var canonical := CanonicalForm(list, js);
      CanonicalForm(List(ParseAll(canonical)), js) == canonical
      <==> list.NotAList? || forall i :: 0 <= i < |list.items| ==> Finitely(Normal(list.items[i], i, js))
  {
    hide Compare, Normal, Spell, Parse, Sorted, Compares, Finitely;
    var canonical := CanonicalForm(list, js);
    if list.List? {
      var normals := Normals(list.items, js);
      var sorted := Sort(normals, js);
      SortSorts(normals, js);
      SortCounts(normals, js);
      var again := Normals(ParseAll(canonical), js);
      forall k | 0 <= k < |sorted|
        ensures Finitely(sorted[k]) ==> again[k] == sorted[k]
        ensures Finitely(again[k])
        ensures !Finitely(sorted[k]) ==> Spell(sorted[k]) != Spell(again[k])
      {
        RereadDestination(sorted[k], k, js);
      }
      if forall i :: 0 <= i < |normals| ==> Finitely(normals[i]) {
        forall k | 0 <= k < |sorted| ensures Finitely(sorted[k]) {
          assert sorted[k] in multiset(sorted);
        }
        assert again == sorted;
        SortedStays(sorted, js);
      } else {
        var i :| 0 <= i < |normals| && !Finitely(normals[i]);
        assert normals[i] in multiset(sorted);
        var k :| 0 <= k < |sorted| && sorted[k] == normals[i];
        SomethingSpeltAnew(sorted, again, k, js);
      }
    } else {
      assert ParseAll([]) == [] && Normals([], js) == [];
    }
  }

  /** All finite now, but not then: the spellings differ. */
  lemma SomethingSpeltAnew(sorted: seq<Destination>, again: seq<Destination>, k: nat, js: Engine)
    requires k < |sorted| && !Finitely(sorted[k]) && forall j :: 0 <= j < |again| ==> Finitely(again[j])
    ensures SpellAll(Sort(again, js)) != SpellAll(sorted)
  {
    SortCounts(again, js);
    var r := Sort(again, js);
    if k < |r| {
      assert r[k] in multiset(r);
      assert SpellAll(r)[k] != SpellAll(sorted)[k];
    }
  }

  /** A destination whose order is 1e999, which is read as infinity. */
  const ENDLESS := Item(Text("r"), Text("Router"), Text("10.0.0.1"), Number(Infinite(false)), Number(Finite(1000.0)),
                        Number(Finite(3.0)), Bool(true), Undefined)

  /** It is spelt with `null` first, and with 0 the second time. */
  lemma EndlessIsRespelt(js: Engine)
    ensures var once := CanonicalForm(List([ENDLESS]), js);
      var twice := CanonicalForm(List(ParseAll(once)), js);
      |once| == |twice| == 1 && once[0].order == NullLiteral && twice[0].order == NumberLiteral(0.0)
  {
    var d := Normal(ENDLESS, 0, js);
    assert Normals([ENDLESS], js) == [d] && Sort([d], js) == [d];
    var once := CanonicalForm(List([ENDLESS]), js);
    assert once == [Spell(d)];
    var again := Normal(Parse(Spell(d)), 0, js);
    assert ParseAll(once) == [Parse(Spell(d))];
    assert Normals(ParseAll(once), js) == [again] && Sort([again], js) == [again];
  }

  // ---- the order of the list does not matter ----------------------------

  lemma CompareTransitive(a: Destination, b: Destination, c: Destination, js: Engine)
    requires Collates(js) && a.order.Finite? && b.order.Finite? && c.order.Finite?
    requires Compare(a, b, js) <= 0 && Compare(b, c, js) <= 0
    ensures Compare(a, c, js) <= 0
  {
  }

  ghost predicate AllFinite(s: seq<Destination>) {
    forall i :: 0 <= i < |s| ==> Finitely(s[i])
  }

  /** Entries that compare equal are equal. */
  ghost predicate NoTies(s: seq<Destination>, js: Engine) {
    forall i, j :: 0 <= i < |s| && 0 <= j < |s| && Compare(s[i], s[j], js) == 0 ==> s[i] == s[j]
  }

  lemma {:induction false} SortedBefore(s: seq<Destination>, i: nat, j: nat, js: Engine)
    requires Collates(js) && Sorted(s, js) && AllFinite(s) && i < j < |s|
    ensures Compare(s[i], s[j], js) <= 0
    decreases j - i
  {
    hide Compare;
    assert Compare(s[j - 1], s[j - 1 + 1], js) <= 0;
    if i < j - 1 {
      SortedBefore(s, i, j - 1, js);
      CompareTransitive(s[i], s[j - 1], s[j], js);
    }
  }

  lemma TakenOut<T>(s: seq<T>, k: nat)
    requires k < |s|
    ensures multiset(s) == multiset(s[..k] + s[k + 1..]) + multiset{s[k]}
  {
    assert s == s[..k] + [s[k]] + s[k + 1..];
  }

  lemma Cancel<T>(a: multiset<T>, b: multiset<T>, one: multiset<T>)
    requires a + one == b + one
    ensures a == b
  {
    assert a == (a + one) - one;
  }

  lemma SameLast(s: seq<Destination>, t: seq<Destination>, js: Engine)
    requires Collates(js) && Sorted(s, js) && Sorted(t, js) && AllFinite(s) && AllFinite(t) && NoTies(s, js)
    requires multiset(s) == multiset(t) && |s| == |t| > 0
    ensures s[|s| - 1] == t[|t| - 1]
  {
    hide Compare, Sorted, Finitely;
    var n := |s| - 1;
    var a, b := s[n], t[n];
    assert a in multiset(t) && b in multiset(s);
    var i :| 0 <= i < |t| && t[i] == a;
    var j :| 0 <= j < |s| && s[j] == b;
    CompareTotal(a, b, js);
    CompareTotal(b, a, js);
    if i < n && j < n {
      SortedBefore(t, i, n, js);
      SortedBefore(s, j, n, js);
      assert Compare(s[n], s[j], js) == 0;
    }
  }

  lemma FrontKeeps(s: seq<Destination>, js: Engine)
    requires s != []
    ensures var front := s[..|s| - 1];
      (Sorted(s, js) ==> Sorted(front, js)) && (AllFinite(s) ==> AllFinite(front))
      && (NoTies(s, js) ==> NoTies(front, js))
  {
    hide Compare, Finitely;
  }

  /** A sorted arrangement without ties is the only one. */
  lemma {:induction false} SortedUnique(s: seq<Destination>, t: seq<Destination>, js: Engine)
    requires Collates(js) && Sorted(s, js) && Sorted(t, js) && AllFinite(s) && AllFinite(t) && NoTies(s, js)
    requires multiset(s) == multiset(t) && |s| == |t|
    ensures s == t
    decreases |s|
  {
    hide Compare, Sorted, AllFinite, NoTies;
    if s != [] {
      var n := |s| - 1;
      SameLast(s, t, js);
      FrontKeeps(s, js);
      FrontKeeps(t, js);
      assert s[..n] + s[n + 1..] == s[..n] && t[..n] + t[n + 1..] == t[..n];
      TakenOut(s, n);
      TakenOut(t, n);
      Cancel(multiset(s[..n]), multiset(t[..n]), multiset{s[n]});
      SortedUnique(s[..n], t[..n], js);
      assert s == s[..n] + [s[n]] && t == t[..n] + [t[n]];
    }
  }

  /** The elements that compare equal to `x`, in their order. */
  function Tied(s: seq<Destination>, x: Destination, js: Engine): seq<Destination> {
    if s == [] then []
    else Tied(s[..|s| - 1], x, js) + if Compare(s[|s| - 1], x, js) == 0 then [s[|s| - 1]] else []
  }

  lemma {:induction false} InsertStable(s: seq<Destination>, y: Destination, x: Destination, js: Engine)
    requires Collates(js) && AllFinite(s) && Finitely(x) && Finitely(y)
    ensures Tied(Insert(s, y, js), x, js) == Tied(s + [y], x, js)
  {
    hide Compare;
    assert (s + [y])[..|s|] == s;
    if s != [] && Compare(s[|s| - 1], y, js) > 0 {
      var front, last := s[..|s| - 1], s[|s| - 1];
      InsertStable(front, y, x, js);
      assert (front + [y])[..|front|] == front;
      var r := Insert(s, y, js);
      assert r[..|r| - 1] == Insert(front, y, js);
      if Compare(last, x, js) == 0 && Compare(y, x, js) == 0 {
        CompareTotal(x, y, js);
        CompareTotal(y, x, js);
        CompareTransitive(last, x, y, js);
      }
    }
  }

  /** Sorting is stable: what compares equal keeps its order. */
  lemma {:induction false} SortStable(s: seq<Destination>, x: Destination, js: Engine)
    requires Collates(js) && AllFinite(s) && Finitely(x)
    ensures Tied(Sort(s, js), x, js) == Tied(s, x, js)
  {
    hide Compare, Finitely;
    if s != [] {
      var front, last := s[..|s| - 1], s[|s| - 1];
      SortStable(front, x, js);
      var t := Sort(front, js);
      SortCounts(front, js);
      forall k | 0 <= k < |t| ensures Finitely(t[k]) {
        assert t[k] in multiset(front);
      }
      InsertStable(t, last, x, js);
      assert (t + [last])[..|t|] == t;
    }
  }

  lemma {:induction false} TiedAt(s: seq<Destination>, i: nat, x: Destination, js: Engine)
    requires i < |s| && Compare(s[i], x, js) == 0
    ensures var m := |Tied(s[..i], x, js)|;
      m < |Tied(s, x, js)| && Tied(s, x, js)[m] == s[i]
  {
    hide Compare;
    var front := s[..|s| - 1];
    if i < |s| - 1 {
      TiedAt(front, i, x, js);
      assert front[..i] == s[..i];
    } else {
      assert front == s[..i];
    }
  }

  /** What `Normal` makes of an entry with an `order` of its own, wherever it stands. */
  function Placed(entry: Item, js: Engine): Destination {
    Normal(entry, 0, js)
  }

  ghost predicate Ordered(items: seq<Item>) {
    forall i :: 0 <= i < |items| ==> items[i].order != Undefined
  }

  lemma {:induction false} NormalsCount(a: seq<Item>, b: seq<Item>, js: Engine)
    requires Ordered(a) && Ordered(b) && multiset(a) == multiset(b) && |a| == |b|
    ensures multiset(Normals(a, js)) == multiset(Normals(b, js))
    decreases |a|
  {
    hide Normal;
    if a != [] {
      assert a[0] in multiset(b);
      var k :| 0 <= k < |b| && b[k] == a[0];
      var front, rest := a[..0] + a[0 + 1..], b[..k] + b[k + 1..];
      TakenOut(a, 0);
      TakenOut(b, k);
      Cancel(multiset(front), multiset(rest), multiset{a[0]});
      NormalsCount(front, rest, js);
      NormalsTakenOut(a, 0, js);
      NormalsTakenOut(b, k, js);
    }
  }

  lemma NormalsTakenOut(s: seq<Item>, k: nat, js: Engine)
    requires Ordered(s) && k < |s|
    ensures multiset(Normals(s, js)) == multiset(Normals(s[..k] + s[k + 1..], js)) + multiset{Placed(s[k], js)}
  {
    var r, rest := Normals(s, js), s[..k] + s[k + 1..];
    TakenOut(r, k);
    assert Normals(rest, js) == r[..k] + r[k + 1..] by {
      forall i | 0 <= i < |rest| ensures Normals(rest, js)[i] == (r[..k] + r[k + 1..])[i] {
        assert rest[i] == if i < k then s[i] else s[i + 1];
      }
    }
    assert r[k] == Placed(s[k], js);
  }

  lemma SpellInjective(s: seq<Destination>, t: seq<Destination>)
    requires AllFinite(s) && AllFinite(t) && SpellAll(s) == SpellAll(t)
    ensures s == t
  {
    assert |s| == |t|;
    forall i | 0 <= i < |s| ensures s[i] == t[i] {
      assert SpellAll(s)[i] == Spell(s[i]) && SpellAll(t)[i] == Spell(t[i]);
    }
  }

  lemma SortFinite(s: seq<Destination>, js: Engine)
    requires AllFinite(s)
    ensures AllFinite(Sort(s, js))
  {
    SortCounts(s, js);
    var t := Sort(s, js);
    forall k | 0 <= k < |t| ensures Finitely(t[k]) {
      assert t[k] in multiset(s);
    }
  }

  lemma Arrangement(items: seq<Item>, other: seq<Item>, js: Engine)
    requires Collates(js) && Ordered(items) && AllFinite(Normals(items, js)) && multiset(other) == multiset(items)
    ensures |other| == |items| && Ordered(other) && AllFinite(Normals(other, js))
    ensures multiset(Normals(other, js)) == multiset(Normals(items, js))
  {
    assert |multiset(other)| == |other| && |multiset(items)| == |items|;
    forall k | 0 <= k < |other| ensures other[k].order != Undefined {
      assert other[k] in multiset(items);
    }
    NormalsCount(items, other, js);
    var s, t := Normals(items, js), Normals(other, js);
    forall k | 0 <= k < |t| ensures Finitely(t[k]) {
      assert t[k] in multiset(s);
    }
  }

  lemma SameFormWithoutTies(items: seq<Item>, other: seq<Item>, js: Engine)
    requires Collates(js) && Ordered(items) && AllFinite(Normals(items, js)) && multiset(other) == multiset(items)
    requires NoTies(Normals(items, js), js)
    ensures CanonicalForm(List(other), js) == CanonicalForm(List(items), js)
  {
    hide Compare, Normal, Sorted, Sort;
    Arrangement(items, other, js);
    var s, t := Normals(items, js), Normals(other, js);
    SortSorts(s, js);
    SortSorts(t, js);
    SortFinite(s, js);
    SortFinite(t, js);
    SortCounts(s, js);
    SortCounts(t, js);
    var u := Sort(s, js);
    forall i, j | 0 <= i < |u| && 0 <= j < |u| && Compare(u[i], u[j], js) == 0 ensures u[i] == u[j] {
      assert u[i] in multiset(s) && u[j] in multiset(s);
      var i' :| 0 <= i' < |s| && s[i'] == u[i];
      var j' :| 0 <= j' < |s| && s[j'] == u[j];
    }
    SortedUnique(u, Sort(t, js), js);
  }

  lemma TieFacts(s: seq<Destination>, i: nat, j: nat, js: Engine)
    requires Collates(js) && AllFinite(s) && i < |s| && j < |s| && Compare(s[i], s[j], js) == 0
    ensures Finitely(s[i]) && Compare(s[i], s[i], js) == 0 && Compare(s[j], s[i], js) == 0
  {
    CompareTotal(s[i], s[i], js);
  }

  /** Two different entries that tie come out in the order they went in. */
  lemma TiesShow(items: seq<Item>, i: nat, j: nat, js: Engine)
    requires Collates(js) && Ordered(items) && AllFinite(Normals(items, js)) && i < j < |items|
    requires var s := Normals(items, js);
      Compare(s[i], s[j], js) == 0 && s[i] != s[j]
    ensures var other := items[i := items[j]][j := items[i]];
      multiset(other) == multiset(items) && CanonicalForm(List(other), js) != CanonicalForm(List(items), js)
  {
    hide Compare, Sort, AllFinite;
    var other := items[i := items[j]][j := items[i]];
    Arrangement(items, other, js);
    var s, t := Normals(items, js), Normals(other, js);
    var x := s[i];
    assert t[i] == s[j] && s[..i] == t[..i];
    TieFacts(s, i, j, js);
    TiedAt(s, i, x, js);
    TiedAt(t, i, x, js);
    SortStable(s, x, js);
    SortStable(t, x, js);
    SortFinite(s, js);
    SortFinite(t, js);
    if CanonicalForm(List(other), js) == CanonicalForm(List(items), js) {
      SpellInjective(Sort(s, js), Sort(t, js));
      assert false;
    }
  }

  /** For a list with explicit, finite orders: every arrangement of it has the same canonical form exactly if no two
      different entries tie on (order, id). */
  lemma OrderBlindIffNoTies(items: seq<Item>, js: Engine)
    requires Collates(js) && Ordered(items) && AllFinite(Normals(items, js))
    ensures (forall other :: multiset(other) == multiset(items) ==>
               CanonicalForm(List(other), js) == CanonicalForm(List(items), js))
      <==> NoTies(Normals(items, js), js)
  {
    hide Compare, CanonicalForm, AllFinite, Normal;
    var s := Normals(items, js);
    if NoTies(s, js) {
      forall other | multiset(other) == multiset(items)
        ensures CanonicalForm(List(other), js) == CanonicalForm(List(items), js)
      {
        SameFormWithoutTies(items, other, js);
      }
    } else {
      var i, j :| 0 <= i < |s| && 0 <= j < |s| && Compare(s[i], s[j], js) == 0 && s[i] != s[j];
      CompareTotal(s[i], s[j], js);
      CompareTotal(s[j], s[i], js);
      TiesShow(items, if i < j then i else j, if i < j then j else i, js);
    }
  }

  // ---- what is missing, and what the order is ---------------------------

  /** `String` and `Number` of what is neither text nor number, by sections 7.1.17 and 7.1.4 of ECMA-262. */
  lemma Conversions(js: Engine)
    ensures AsText(Undefined, js) == "undefined" && AsText(Null, js) == "null"
    ensures AsText(Bool(true), js) == "true" && AsText(Bool(false), js) == "false"
    ensures AsNumber(Undefined, js) == NaN && AsNumber(Null, js) == Finite(0.0)
    ensures AsNumber(Bool(true), js) == Finite(1.0) && AsNumber(Bool(false), js) == Finite(0.0)
    ensures forall s :: AsText(Text(s), js) == s && AsNumber(Text(s), js) == js.textNumber(s)
    ensures forall n :: AsNumber(Number(n), js) == n && AsText(Number(n), js) == js.numberText(n)
  {
  }

  function Or(v: Js, fallback: Js): Js {
    if v == Undefined then fallback else v
  }

  /** The entry at `i` with what is missing filled in: no texts, its place, 1000 microseconds, sensitivity 3,
      enabled, and not part-time. Only `false` disables, and only `true` is part-time. */
  function Filled(entry: Item, i: nat): Item {
    Item(Or(entry.id, Text("")), Or(entry.name, Text("")), Or(entry.address, Text("")),
         Or(entry.order, Number(Finite((i + 1) as real))), Or(entry.thresholdUs, Number(Finite(1000.0))),
         Or(entry.sensitivity, Number(Finite(3.0))), Bool(entry.enabled != Bool(false)),
         Bool(entry.partTime == Bool(true)))
  }

  /** A complete entry is read field by field. */
  lemma CompleteIsRead(entry: Item, i: nat, js: Engine)
    requires Undefined !in [entry.id, entry.name, entry.address, entry.order, entry.thresholdUs, entry.sensitivity]
    requires entry.enabled.Bool? && entry.partTime.Bool?
    ensures Normal(entry, i, js)
      == Destination(AsText(entry.id, js), AsText(entry.name, js), AsText(entry.address, js),
                     AsNumber(entry.order, js), AsNumber(entry.thresholdUs, js), AsNumber(entry.sensitivity, js),
                     entry.enabled.b, entry.partTime.b)
  {
    var vs := [entry.id, entry.name, entry.address, entry.order, entry.thresholdUs, entry.sensitivity];
    assert vs[0] in vs && vs[1] in vs && vs[2] in vs && vs[3] in vs && vs[4] in vs && vs[5] in vs;
  }

  lemma FilledIsSame(entry: Item, i: nat, js: Engine)
    ensures Normal(Filled(entry, i), i, js) == Normal(entry, i, js)
  {
  }

  /** A list is spelt as the one with everything missing filled in. */
  lemma MissingIsFilled(items: seq<Item>, filled: seq<Item>, js: Engine)
    requires |filled| == |items| && forall i :: 0 <= i < |items| ==> filled[i] == Filled(items[i], i)
    ensures CanonicalForm(List(filled), js) == CanonicalForm(List(items), js)
  {
    hide Normal;
    forall i | 0 <= i < |items| ensures Normals(filled, js)[i] == Normals(items, js)[i] {
      FilledIsSame(items[i], i, js);
    }
    assert Normals(filled, js) == Normals(items, js);
  }

  /** With finite orders the spelling goes by ascending order, and then by id. */
  lemma CanonicalAscends(items: seq<Item>, js: Engine, i: nat)
    requires Compares(js) && i + 1 < |items|
    requires forall k :: 0 <= k < |items| ==> Normal(items[k], k, js).order.Finite?
    ensures var c := CanonicalForm(List(items), js);
      c[i].order.NumberLiteral? && c[i + 1].order.NumberLiteral?
      && (c[i].order.r < c[i + 1].order.r
          || (c[i].order.r == c[i + 1].order.r && js.localeCompare(c[i].id, c[i + 1].id) <= 0))
  {
    hide Normal;
    var s := Normals(items, js);
    SortSorts(s, js);
    SortCounts(s, js);
    hide Sort;
    var sorted := Sort(s, js);
    forall k | 0 <= k < |sorted| ensures sorted[k].order.Finite? {
      assert sorted[k] in multiset(sorted);
      assert sorted[k] in s;
    }
    assert Compare(sorted[i], sorted[i + 1], js) <= 0;
  }
}
