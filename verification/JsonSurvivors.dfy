/** Exactly which strings survive ASCII-only printing and parsing: a grammar of fronts, what is printed for each of
    them, and what that is read as. */
module JsonSurvivors {
  import opened JsonPrinter
  import opened JsonParser
  import opened JsonStrings

  // ---- the grammar ------------------------------------------------------

  /** A surrogate code point in three bytes, as no UTF-8 text has it. */
  predicate SurrogateFront(s: string) {
    |s| >= 3 && s[0] as int == 0xED && 0xA0 <= s[1] as int <= 0xBF && Tail(s[2])
  }

  predicate HighFront(s: string) {
    SurrogateFront(s) && s[1] as int <= 0xAF
  }

  predicate LowFront(s: string) {
    SurrogateFront(s) && s[1] as int >= 0xB0
  }

  /** The length of the character at the front of `s`, surrogates included, or 0 if there is none. */
  function GeneralLength(s: string): (n: nat)
    ensures n <= |s| && n <= 4
  {
    if SurrogateFront(s) then 3 else CharacterLength(s)
  }

  /** The front of `s` is printed as a `\u` escape. */
  predicate EscapedFront(s: string) {
    s != "" && (s[0] as int >= 0x80 || (s[0] as int < 0x20 && ShortEscape(s[0]) == []))
  }

  /** Characters one after another; but a high surrogate takes the escape after it, if there is one, along with it,
      which has to be a whole one and no low surrogate. */
  predicate Survives(s: string)
    decreases |s|
  {
    s == ""
    || (GeneralLength(s) > 0
        && var rest := s[GeneralLength(s)..];
           if HighFront(s) && EscapedFront(rest) then
             0 < GeneralLength(rest) < 4 && !LowFront(rest) && Survives(rest[GeneralLength(rest)..])
           else Survives(rest))
  }

  // ---- what is printed for the front ------------------------------------

  /** A character of one code unit is printed as that unit or as itself, and decodes to itself. */
  lemma ShortPieces(s: string)
    requires 0 < GeneralLength(s) < 4
    ensures var (first, used) := NextPieces(s, true);
      used == GeneralLength(s) && |first| == 1
      && (if EscapedFront(s) then
            first[0].Unit? && Utf8(first[0].u) == s[..used]
            && (IsHigh(first[0].u) <==> HighFront(s)) && (IsLow(first[0].u) <==> LowFront(s))
          else first[0] == Raw(s[0]) && used == 1)
  {
    if SurrogateFront(s) {
      SurrogateDecodes(s);
    } else if s[0] as int < 0x80 {
      assert s[..1] == [s[0]];
    } else {
      CharacterDecodes(s);
      ShortScalar(s);
    }
  }

  lemma SurrogateDecodes(s: string)
    requires SurrogateFront(s)
    ensures var cp := Accumulate(LeadBits(s[0]), s[1..3]);
      NextPieces(s, true) == ([Unit(cp)], 3) && Utf8(cp) == s[..3]
      && (IsHigh(cp) <==> HighFront(s)) && (IsLow(cp) <==> LowFront(s))
  {
    var y, z := s[1] as int - 0x80, s[2] as int - 0x80;
    var tail := s[1..3];
    assert tail == [s[1], s[2]];
    AccumulateTail(s[0], s[1], s[2]);
    var cp := (13 * 64 + y) * 64 + z;
    assert cp / 64 == 13 * 64 + y && cp % 64 == z;
    assert cp / 64 % 64 == y && cp / 4096 == 13;
    assert s[..3] == [s[0], s[1], s[2]];
  }

  lemma AccumulateTail(a: char, b: char, c: char)
    requires Tail(b) && Tail(c)
    ensures Accumulate(LeadBits(a), [b, c]) == (LeadBits(a) * 64 + (b as int - 0x80)) * 64 + (c as int - 0x80)
  {
    assert [b, c][1..] == [c];
    var w, x, y := LeadBits(a), b as int - 0x80, c as int - 0x80;
    assert b as nat % 64 == x && c as nat % 64 == y;
    AccumulateOne(w * 64 + x, c);
    assert Accumulate(w, [b, c]) == Accumulate(w * 64 + x, [c]);
  }

  lemma ShortScalar(s: string)
    requires 1 < CharacterLength(s) < 4
    ensures var (first, used) := NextPieces(s, true);
      used == CharacterLength(s) && |first| == 1 && first[0].Unit? && Utf8(first[0].u) == s[..used]
      && !IsHigh(first[0].u) && !IsLow(first[0].u)
  {
    CharacterDecodes(s);
    var n := CharacterLength(s);
    var cp := Accumulate(LeadBits(s[0]), s[1..n]);
    assert |Utf8(cp)| == n;
    assert cp < 0x10000;
    assert s[1..1 + Extra(s[0])] == s[1..n];
  }

  /** A character of four bytes is printed as a surrogate pair, which decodes to it. */
  lemma LongPieces(s: string)
    requires GeneralLength(s) == 4
    ensures var (first, used) := NextPieces(s, true);
      used == 4 && |first| == 2 && first[0].Unit? && first[1].Unit? && IsHigh(first[0].u) && IsLow(first[1].u)
      && Utf8(Join(first[0].u, first[1].u)) == s[..4]
  {
    CharacterDecodes(s);
    var cp := Accumulate(LeadBits(s[0]), s[1..4]);
    assert |Utf8(cp)| == 4;
    assert s[1..1 + Extra(s[0])] == s[1..4];
    assert cp >= 0x10000;
  }

  // ---- what is no character ---------------------------------------------

  /** What is printed for the front of `s`, where no character stands, begins with a unit that decodes to something
      else, alone and together with a low surrogate. */
  lemma BadFront(s: string, y: string)
    requires s != "" && GeneralLength(s) == 0
    ensures var first := NextPieces(s, true).0;
      first != [] && first[0].Unit? && Utf8(first[0].u) + y != s
      && (IsHigh(first[0].u) ==> forall low :: IsLow(low) ==> Utf8(Join(first[0].u, low)) + y != s)
  {
    var extra := Extra(s[0]);
    if extra == 0 || extra >= |s| || !AllContinuation(s[1..1 + extra]) {
      ReplacementDiffers(s, y);
    } else {
      Continues(s, extra);
      if extra == 1 {
        BadTwo(s, y);
      } else if extra == 2 {
        BadThree(s, y);
      } else {
        BadFour(s, y);
      }
    }
  }

  lemma Continues(s: string, extra: nat)
    requires extra < |s| && AllContinuation(s[1..1 + extra])
    ensures forall i :: 1 <= i <= extra ==> Tail(s[i])
  {
    forall i | 1 <= i <= extra ensures Tail(s[i]) {
      assert s[1..1 + extra][i - 1] == s[i];
    }
  }

  lemma ReplacementDiffers(s: string, y: string)
    requires s != "" && GeneralLength(s) == 0
    ensures Utf8(0xFFFD) + y != s
  {
    var r := Utf8(0xFFFD);
    assert r == [0xEF as char, 0xBF as char, 0xBD as char];
    assert |s| >= 3 ==> !(s[0] == r[0] && s[1] == r[1] && s[2] == r[2]);
    assert (r + y)[0] == r[0] && (r + y)[1] == r[1] && (r + y)[2] == r[2];
  }

  lemma BadTwo(s: string, y: string)
    requires |s| >= 2 && GeneralLength(s) == 0 && Extra(s[0]) == 1 && Tail(s[1]) && AllContinuation(s[1..2])
    ensures var first := NextPieces(s, true).0;
      |first| == 1 && first[0].Unit? && !IsHigh(first[0].u) && Utf8(first[0].u) + y != s
  {
    assert s[1..2] == [s[1]];
    AccumulateOne(LeadBits(s[0]), s[1]);
    var cp := Accumulate(LeadBits(s[0]), s[1..2]);
    assert cp < 0x80;
    assert (Utf8(cp) + y)[0] == Utf8(cp)[0];
  }

  lemma BadThree(s: string, y: string)
    requires |s| >= 3 && GeneralLength(s) == 0 && Extra(s[0]) == 2 && Tail(s[1]) && Tail(s[2])
    requires AllContinuation(s[1..3])
    ensures var first := NextPieces(s, true).0;
      |first| == 1 && first[0].Unit? && !IsHigh(first[0].u) && Utf8(first[0].u) + y != s
  {
    assert s[1..3] == [s[1], s[2]];
    AccumulateTail(s[0], s[1], s[2]);
    var cp := Accumulate(LeadBits(s[0]), s[1..3]);
    assert s[0] as int == 0xE0 && s[1] as int < 0xA0;
    assert cp < 0x800;
    assert (Utf8(cp) + y)[0] == Utf8(cp)[0];
  }

  lemma AccumulateTails(a: char, b: char, c: char, e: char)
    requires Tail(b) && Tail(c) && Tail(e)
    ensures Accumulate(LeadBits(a), [b, c, e])
      == ((LeadBits(a) * 64 + (b as int - 0x80)) * 64 + (c as int - 0x80)) * 64 + (e as int - 0x80)
  {
    assert [b, c, e][1..] == [c, e] && [c, e][1..] == [e];
    var w, x, y, z := LeadBits(a), b as int - 0x80, c as int - 0x80, e as int - 0x80;
    assert b as nat % 64 == x && c as nat % 64 == y && e as nat % 64 == z;
    AccumulateOne((w * 64 + x) * 64 + y, e);
    assert Accumulate(w, [b, c, e]) == Accumulate((w * 64 + x) * 64 + y, [e]);
  }

  lemma BadFour(s: string, y: string)
    requires |s| >= 4 && GeneralLength(s) == 0 && Extra(s[0]) == 3 && Tail(s[1]) && Tail(s[2]) && Tail(s[3])
    requires AllContinuation(s[1..4])
    ensures var first := NextPieces(s, true).0;
      first != [] && first[0].Unit? && Utf8(first[0].u) + y != s
      && (IsHigh(first[0].u) ==> forall low :: IsLow(low) ==> Utf8(Join(first[0].u, low)) + y != s)
  {
    assert s[1..4] == [s[1], s[2], s[3]];
    AccumulateTails(s[0], s[1], s[2], s[3]);
    var cp := Accumulate(LeadBits(s[0]), s[1..4]);
    if s[0] as int == 0xF0 && (s[1] as int) < 0x90 {
      assert cp < 0x10000 && NextPieces(s, true).0 == [Unit(cp)];
      Overlong(s, cp, y);
    } else {
      assert LeadBits(s[0]) >= 4 && (LeadBits(s[0]) == 4 ==> s[1] as int >= 0x90);
      assert cp >= 0x110000;
      var u := NextPieces(s, true).0[0].u;
      assert u == 0xD800 + (cp - 0x10000) / 1024;
      UnitFront(u);
      assert (Utf8(u) + y)[0] == Utf8(u)[0];
    }
  }

  lemma Overlong(s: string, u: nat, y: string)
    requires |s| >= 4 && s[0] as int == 0xF0 && (s[1] as int) < 0x90 && u < 0x10000
    ensures Utf8(u) + y != s && (IsHigh(u) ==> forall low :: IsLow(low) ==> Utf8(Join(u, low)) + y != s)
  {
    UnitFront(u);
    assert (Utf8(u) + y)[0] == Utf8(u)[0];
    if IsHigh(u) {
      forall low | IsLow(low) ensures Utf8(Join(u, low)) + y != s {
        PairFront(Join(u, low));
        hide Utf8, Join;
        var x := Utf8(Join(u, low));
        assert (x + y)[0] == x[0] && (x + y)[1] == x[1];
      }
    }
  }

  lemma UnitFront(u: nat)
    requires u < 0x10000
    ensures Utf8(u) != "" && Utf8(u)[0] as int < 0xF0
    ensures 0xD800 <= u < 0xE000 ==> Utf8(u)[0] as int == 0xED
  {
  }

  lemma PairFront(cp: nat)
    requires 0x10000 <= cp < 0x110000
    ensures |Utf8(cp)| == 4 && Utf8(cp)[0] as int >= 0xF0
    ensures Utf8(cp)[0] as int == 0xF0 ==> Utf8(cp)[1] as int >= 0x90
  {
  }

  // ---- the two directions at once ---------------------------------------

  /** What decodes from pieces that begin with a unit: that unit or a pair, and something after it. */
  lemma DecodeFront(ps: seq<Piece>) returns (y: string)
    requires Spellable(ps) && ps != [] && ps[0].Unit?
    ensures Decode(ps) == Utf8(ps[0].u) + y
      || (IsHigh(ps[0].u) && |ps| > 1 && ps[1].Unit? && IsLow(ps[1].u)
          && Decode(ps) == Utf8(Join(ps[0].u, ps[1].u)) + y)
  {
    hide Utf8;
    var u := ps[0].u;
    if IsHigh(u) && |ps| > 1 && ps[1].Unit? {
      y := if IsLow(ps[1].u) then Decode(ps[2..]) else Utf8(ps[1].u) + Decode(ps[2..]);
      Assoc(Utf8(u), Utf8(ps[1].u), Decode(ps[2..]));
    } else {
      y := Decode(ps[1..]);
    }
  }

  lemma BadFrontIsLost(s: string)
    requires s != "" && GeneralLength(s) == 0
    ensures Reread(s, true) != s
  {
    hide NextPieces, GeneralLength, Decode, Utf8;
    BadFront(s, "");
    var ps := Pieces(s, true);
    var (first, used) := NextPieces(s, true);
    assert ps[0] == first[0];
    var y := DecodeFront(ps);
    BadFront(s, y);
  }

  lemma SameRest(a: string, x: string, y: string)
    ensures a + x == a + y <==> x == y
  {
    if a + x == a + y {
      assert x == (a + x)[|a|..] && y == (a + y)[|a|..];
    }
  }

  /** The front comes back by itself, and then it depends on the rest. */
  lemma FrontAlone(s: string)
    requires s != "" && GeneralLength(s) > 0 && !(HighFront(s) && EscapedFront(s[GeneralLength(s)..]))
    ensures var n := GeneralLength(s);
      Reread(s, true) == s[..n] + Reread(s[n..], true)
  {
    var n := GeneralLength(s);
    var rest := Pieces(s[n..], true);
    FirstOfRest(s[n..]);
    if n == 4 {
      LongPieces(s);
    } else {
      ShortPieces(s);
    }
    hide NextPieces, GeneralLength, Utf8, EscapedFront;
    var (first, used) := NextPieces(s, true);
    var ps := first + rest;
    assert Pieces(s, true) == ps;
    assert ps[0] == first[0] && ps[|first|..] == rest;
    if n != 4 && first[0].Raw? {
      assert s[..1] == [s[0]];
    }
  }

  /** What the rest begins with: a unit exactly if its front is escaped. */
  lemma FirstOfRest(r: string)
    ensures var ps := Pieces(r, true);
      (ps != [] && ps[0].Unit?) <==> EscapedFront(r)
  {
    if r != "" {
      var (first, used) := NextPieces(r, true);
      assert Pieces(r, true)[0] == first[0];
    }
  }

  /** A high surrogate and the escape after it are read together. */
  lemma FrontWithNext(s: string)
    requires HighFront(s) && EscapedFront(s[3..])
    ensures var rest := s[3..];
      Reread(s, true) == s
      <==> 0 < GeneralLength(rest) < 4 && !LowFront(rest)
           && Reread(rest[GeneralLength(rest)..], true) == rest[GeneralLength(rest)..]
  {
    var rest := s[3..];
    ShortPieces(s);
    FirstOfRest(rest);
    var (first, used) := NextPieces(s, true);
    var next := Pieces(rest, true);
    var ps := first + next;
    assert Pieces(s, true) == ps && ps[0] == first[0] && ps[1..] == next && ps[1] == next[0];
    assert ps[2..] == next[1..];
    assert s == s[..3] + rest;
    var u2 := next[0].u;
    hide NextPieces, Utf8, EscapedFront, HighFront, Pieces;
    if IsLow(u2) {
      LowIsLost(s, ps);
      OnlyLowFront(rest);
    } else {
      var after := Decode(next[1..]);
      assert Reread(s, true) == Utf8(first[0].u) + Utf8(u2) + after;
      Assoc(s[..3], Utf8(u2), after);
      SameRest(s[..3], Utf8(u2) + after, rest);
      NextTaken(rest, after);
    }
  }

  /** A pair of surrogates in three bytes each becomes one character of four. */
  lemma LowIsLost(s: string, ps: seq<Piece>)
    requires s != "" && s[0] as int == 0xED && Spellable(ps) && |ps| > 1 && ps[0].Unit? && ps[1].Unit?
    requires IsHigh(ps[0].u) && IsLow(ps[1].u)
    ensures Decode(ps) != s
  {
    PairFront(Join(ps[0].u, ps[1].u));
    hide Utf8;
    var x := Utf8(Join(ps[0].u, ps[1].u));
    assert Decode(ps) == x + Decode(ps[2..]);
    assert (x + Decode(ps[2..]))[0] == x[0];
  }

  /** The first unit of what is printed for `rest` is a low surrogate only where a low surrogate stands, or no
      character. */
  lemma OnlyLowFront(rest: string)
    requires EscapedFront(rest) && var ps := Pieces(rest, true); ps != [] && ps[0].Unit? && IsLow(ps[0].u)
    ensures GeneralLength(rest) == 0 || LowFront(rest)
  {
    var (first, used) := NextPieces(rest, true);
    assert Pieces(rest, true)[0] == first[0];
    if GeneralLength(rest) == 4 {
      LongPieces(rest);
    } else if GeneralLength(rest) > 0 {
      ShortPieces(rest);
    }
  }

  /** With its first unit taken on its own, the rest comes back exactly if that was all of its front. */
  lemma NextTaken(rest: string, after: string)
    requires EscapedFront(rest)
    requires var ps := Pieces(rest, true);
      ps != [] && ps[0].Unit? && !IsLow(ps[0].u) && after == Decode(ps[1..])
    ensures var ps := Pieces(rest, true);
      Utf8(ps[0].u) + after == rest
      <==> 0 < GeneralLength(rest) < 4 && !LowFront(rest)
           && Reread(rest[GeneralLength(rest)..], true) == rest[GeneralLength(rest)..]
  {
    assert rest != "";
    hide NextPieces, Pieces, Utf8, GeneralLength, Decode, EscapedFront, LowFront;
    var ps := Pieces(rest, true);
    FirstPieces(rest);
    var m := GeneralLength(rest);
    if m == 0 {
      BadFront(rest, after);
    } else if m == 4 {
      NextIsLong(rest, after);
    } else {
      NextIsShort(rest, after);
    }
  }

  lemma NextIsShort(rest: string, after: string)
    requires EscapedFront(rest) && 0 < GeneralLength(rest) < 4
    requires var ps := Pieces(rest, true);
      ps != [] && ps[0].Unit? && !IsLow(ps[0].u) && after == Decode(ps[1..])
    ensures Utf8(Pieces(rest, true)[0].u) + after == rest
      <==> !LowFront(rest) && Reread(rest[GeneralLength(rest)..], true) == rest[GeneralLength(rest)..]
  {
    hide NextPieces, Pieces, Utf8, GeneralLength, Decode, LowFront;
    var m := GeneralLength(rest);
    FirstPieces(rest);
    ShortPieces(rest);
    assert rest == rest[..m] + rest[m..];
    SameRest(rest[..m], after, rest[m..]);
  }

  lemma FirstPieces(s: string)
    requires s != ""
    ensures var ps := Pieces(s, true); var (first, used) := NextPieces(s, true);
      ps == first + Pieces(s[used..], true)
      && (|first| > 0 ==> ps[0] == first[0]) && (|first| == 1 ==> ps[1..] == Pieces(s[used..], true))
  {
  }

  lemma NextIsLong(rest: string, after: string)
    requires GeneralLength(rest) == 4
    ensures Pieces(rest, true) != [] && Pieces(rest, true)[0].Unit?
    ensures Utf8(Pieces(rest, true)[0].u) + after != rest
  {
    FirstPieces(rest);
    LongPieces(rest);
    var u := Pieces(rest, true)[0].u;
    UnitFront(u);
    FourByteFront(rest);
    assert (Utf8(u) + after)[0] == Utf8(u)[0];
  }

  lemma FourByteFront(s: string)
    requires GeneralLength(s) == 4
    ensures s[0] as int >= 0xF0
  {
  }

  /** A string comes back from ASCII-only printing exactly if it survives by the grammar above. */
  lemma {:induction false} SurvivesIff(s: string)
    ensures Reread(s, true) == s <==> Survives(s)
    decreases |s|
  {
    hide Reread, GeneralLength, HighFront, EscapedFront, LowFront;
    if s == "" {
      NothingRereads();
    } else if GeneralLength(s) == 0 {
      BadFrontIsLost(s);
    } else {
      var n := GeneralLength(s);
      var rest := s[n..];
      if HighFront(s) && EscapedFront(rest) {
        HighIsThree(s);
        FrontWithNext(s);
        if GeneralLength(rest) > 0 {
          SurvivesIff(rest[GeneralLength(rest)..]);
        }
      } else {
        FrontAlone(s);
        assert s == s[..n] + rest;
        SameRest(s[..n], Reread(rest, true), rest);
        SurvivesIff(rest);
      }
    }
  }

  lemma HighIsThree(s: string)
    requires HighFront(s)
    ensures GeneralLength(s) == 3
  {
  }

  /** Well-formed UTF-8 survives. */
  lemma WellFormedSurvives(s: string)
    requires WellFormed(s)
    ensures Survives(s)
  {
    AsciiRereadIsIdentity(s);
    SurvivesIff(s);
  }
}
