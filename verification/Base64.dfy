/** `base64Encode` of daemon/src/util.cpp. */
module Base64 {

  predicate IsBytes(s: string) {
    forall i :: 0 <= i < |s| ==> s[i] as int < 256
  }

  /** The alphabet: A to Z, a to z, 0 to 9, + and /. */
  function Symbol(n: nat): char
    requires n < 64
  {
    if n < 26 then 'A' + n as char
    else if n < 52 then 'a' + (n - 26) as char
    else if n < 62 then '0' + (n - 52) as char
    else if n == 62 then '+'
    else '/'
  }

  /** Four symbols for three bytes. */
  function Group(a: nat, b: nat, c: nat): (s: string)
    requires a < 256 && b < 256 && c < 256
    ensures |s| == 4
  {
    var triple := a * 65536 + b * 256 + c;
    [Symbol(triple / 262144 % 64), Symbol(triple / 4096 % 64), Symbol(triple / 64 % 64), Symbol(triple % 64)]
  }

  /** The encoding: whole groups, then one or two left-over bytes with padding. */
  function Encode(s: string): string
    requires IsBytes(s)
  {
    if |s| >= 3 then Group(s[0] as nat, s[1] as nat, s[2] as nat) + Encode(s[3..])
    else if |s| == 2 then Group(s[0] as nat, s[1] as nat, 0)[..3] + "="
    else if |s| == 1 then Group(s[0] as nat, 0, 0)[..2] + "=="
    else []
  }

  /** The loop of `base64Encode`, with its index. */
  method Base64Encode(data: string) returns (out: string)
    requires IsBytes(data)
    ensures out == Encode(data)
  {
    assert Encode([]) == [];
    hide Group, Encode;
    out := "";
    var i := 0;
    while i + 2 < |data|
      invariant 0 <= i <= |data|
      invariant out + Encode(data[i..]) == Encode(data)
      decreases |data| - i
    {
      EncodeStep(out, data, i);
      var group := EncodeGroup(data[i] as nat, data[i + 1] as nat, data[i + 2] as nat);
      out := out + group;
      i := i + 3;
    }
    assert |data[i..]| <= 2 && (i == |data| ==> data[i..] == []);
    if i < |data| {
      var tail := EncodeTail(data[i..]);
      out := out + tail;
    }
  }

  /** The loop's body: three bytes make four symbols. */
  method EncodeGroup(a: nat, b: nat, c: nat) returns (group: string)
    requires a < 256 && b < 256 && c < 256
    ensures group == Group(a, b, c)
  {
    hide Symbol;
    var triple := a * 65536 + b * 256 + c;
    group := [Symbol(triple / 262144 % 64)];
    group := group + [Symbol(triple / 4096 % 64)];
    group := group + [Symbol(triple / 64 % 64)];
    group := group + [Symbol(triple % 64)];
  }

  /** The one or two left-over bytes. */
  method EncodeTail(rest: string) returns (out: string)
    requires IsBytes(rest) && 1 <= |rest| <= 2
    ensures out == Encode(rest)
  {
    hide Symbol;
    var haveSecond := 1 < |rest|;
    var triple := rest[0] as nat * 65536;
    if haveSecond {
      triple := triple + rest[1] as nat * 256;
    }
    out := [Symbol(triple / 262144 % 64), Symbol(triple / 4096 % 64)];
    if haveSecond {
      out := out + [Symbol(triple / 64 % 64), '='];
    } else {
      out := out + ['=', '='];
    }
  }

  lemma EncodeStep(out: string, data: string, i: nat)
    requires IsBytes(data) && i + 2 < |data|
    ensures out + Encode(data[i..])
         == out + Group(data[i] as nat, data[i + 1] as nat, data[i + 2] as nat) + Encode(data[i + 3..])
  {
    hide Group;
    assert data[i..][3..] == data[i + 3..];
  }

  // ---- the decoder ------------------------------------------------------

  /** The value of a symbol, or 64 if the character is not in the alphabet. */
  function Value(c: char): (n: nat)
    ensures n <= 64
  {
    if 'A' <= c <= 'Z' then (c - 'A') as nat
    else if 'a' <= c <= 'z' then (c - 'a') as nat + 26
    else if '0' <= c <= '9' then (c - '0') as nat + 52
    else if c == '+' then 62
    else if c == '/' then 63
    else 64
  }

  datatype Decoded = Bytes(s: string) | Malformed

  /** Three bytes of four 6-bit values. */
  function Ungroup(w: nat, x: nat, y: nat, z: nat): (s: string)
    requires w < 64 && x < 64 && y < 64 && z < 64
    ensures |s| == 3
  {
    var n := ((w * 64 + x) * 64 + y) * 64 + z;
    [(n / 65536) as char, (n / 256 % 256) as char, (n % 256) as char]
  }

  /** Section 4 of RFC 4648, strict: padding only at the end, and its unused bits are zero. */
  function Decode(t: string): Decoded {
    if t == [] then Bytes([])
    else if |t| < 4 then Malformed
    else
      var w, x, y, z := Value(t[0]), Value(t[1]), Value(t[2]), Value(t[3]);
      if w == 64 || x == 64 then Malformed
      else if |t| == 4 && t[2] == '=' && t[3] == '=' then
        if x % 16 == 0 then Bytes(Ungroup(w, x, 0, 0)[..1]) else Malformed
      else if y == 64 then Malformed
      else if |t| == 4 && t[3] == '=' then
        if y % 4 == 0 then Bytes(Ungroup(w, x, y, 0)[..2]) else Malformed
      else if z == 64 then Malformed
      else
        match Decode(t[4..])
        case Malformed => Malformed
        case Bytes(rest) => Bytes(Ungroup(w, x, y, z) + rest)
  }

  lemma ValueOfSymbol(n: nat)
    requires n < 64
    ensures Value(Symbol(n)) == n && Symbol(n) != '='
  {
  }

  lemma SixtyFour(n: nat)
    ensures n / 64 * 64 + n % 64 == n
  {
  }

  function Pack(a: nat, b: nat, c: nat): nat {
    a * 65536 + b * 256 + c
  }

  /** The 6-bit pieces of 24 bits, put together again. */
  lemma SixBits(n: nat)
    requires n < 16777216
    ensures ((n / 262144 % 64 * 64 + n / 4096 % 64) * 64 + n / 64 % 64) * 64 + n % 64 == n
  {
    SixtyFour(n / 4096);
    SixtyFour(n / 64);
    SixtyFour(n);
    assert n / 64 / 64 == n / 4096 && n / 4096 / 64 == n / 262144 < 64;
  }

  lemma EightBits(a: nat, b: nat, c: nat, n: nat)
    requires a < 256 && b < 256 && c < 256 && n == Pack(a, b, c)
    ensures n / 65536 == a && n / 256 % 256 == b && n % 256 == c
  {
    assert n / 256 == a * 256 + b;
    assert n / 65536 == a;
  }

  lemma GroupInverts(a: nat, b: nat, c: nat, n: nat)
    requires a < 256 && b < 256 && c < 256 && n == Pack(a, b, c)
    ensures Ungroup(n / 262144 % 64, n / 4096 % 64, n / 64 % 64, n % 64) == [a as char, b as char, c as char]
  {
    hide Ungroup;
    SixBits(n);
    EightBits(a, b, c, n);
    UngroupOf(n / 262144 % 64, n / 4096 % 64, n / 64 % 64, n % 64, n, a, b, c);
  }

  lemma UngroupOf(w: nat, x: nat, y: nat, z: nat, n: nat, a: nat, b: nat, c: nat)
    requires w < 64 && x < 64 && y < 64 && z < 64 && n == ((w * 64 + x) * 64 + y) * 64 + z
    requires a < 256 && b < 256 && c < 256 && n / 65536 == a && n / 256 % 256 == b && n % 256 == c
    ensures Ungroup(w, x, y, z) == [a as char, b as char, c as char]
  {
  }

  lemma SymbolsOf(a: nat, b: nat, c: nat, n: nat)
    requires a < 256 && b < 256 && c < 256 && n == Pack(a, b, c)
    ensures var g := Group(a, b, c);
      Value(g[0]) == n / 262144 % 64 && Value(g[1]) == n / 4096 % 64 && Value(g[2]) == n / 64 % 64
      && Value(g[3]) == n % 64
      && '=' !in g
  {
    ValueOfSymbol(n / 262144 % 64);
    ValueOfSymbol(n / 4096 % 64);
    ValueOfSymbol(n / 64 % 64);
    ValueOfSymbol(n % 64);
  }

  lemma TwoBytes(a: nat, b: nat, n: nat)
    requires a < 256 && b < 256 && n == Pack(a, b, 0)
    ensures n % 64 == 0 && n / 64 % 64 % 4 == 0
  {
    assert n == (a * 1024 + b * 4) * 64;
    assert n / 64 == a * 1024 + b * 4;
  }

  lemma OneByte(a: nat, n: nat)
    requires a < 256 && n == Pack(a, 0, 0)
    ensures n % 64 == 0 && n / 64 % 64 == 0 && n / 4096 % 64 % 16 == 0
  {
    assert n / 64 == a * 1024;
    assert n / 4096 == a * 16;
  }

  /** Decoding inverts encoding for every byte string. */
  lemma {:induction false} DecodeInverts(s: string)
    requires IsBytes(s)
    ensures Decode(Encode(s)) == Bytes(s)
    decreases |s|
  {
    hide Value, Symbol;
    if |s| >= 3 {
      var a, b, c := s[0] as nat, s[1] as nat, s[2] as nat;
      var t := Encode(s);
      DecodeInverts(s[3..]);
      assert t[..4] == Group(a, b, c) && t[4..] == Encode(s[3..]);
      GroupDecodes(t, a, b, c);
      assert s == [s[0], s[1], s[2]] + s[3..];
    } else if |s| == 2 {
      PairDecodes(s[0] as nat, s[1] as nat);
    } else if |s| == 1 {
      LastDecodes(s[0] as nat);
    }
  }

  lemma GroupDecodes(t: string, a: nat, b: nat, c: nat)
    requires a < 256 && b < 256 && c < 256 && |t| >= 4 && t[..4] == Group(a, b, c)
    ensures Decode(t[4..]).Malformed? ==> Decode(t).Malformed?
    ensures Decode(t[4..]).Bytes? ==> Decode(t) == Bytes([a as char, b as char, c as char] + Decode(t[4..]).s)
  {
    hide Value, Group, Ungroup;
    SymbolsOf(a, b, c, Pack(a, b, c));
    GroupInverts(a, b, c, Pack(a, b, c));
    hide Pack;
    var g := Group(a, b, c);
    assert t[0] == g[0] && t[1] == g[1] && t[2] == g[2] && t[3] == g[3];
    assert t[2] != '=' && t[3] != '=';
  }

  lemma PairDecodes(a: nat, b: nat)
    requires a < 256 && b < 256
    ensures Decode(Group(a, b, 0)[..3] + "=") == Bytes([a as char, b as char])
  {
    hide Group, Ungroup, Decode, Value;
    var n := Pack(a, b, 0);
    SymbolsOf(a, b, 0, n);
    GroupInverts(a, b, 0, n);
    TwoBytes(a, b, n);
    hide Pack;
    PaddedOnce(Group(a, b, 0), n / 262144 % 64, n / 4096 % 64, n / 64 % 64, [a as char, b as char, 0 as char]);
  }

  lemma PaddedOnce(g: string, w: nat, x: nat, y: nat, bytes: string)
    requires |g| == 4 && w < 64 && x < 64 && y < 64 && y % 4 == 0 && |bytes| == 3
    requires Value(g[0]) == w && Value(g[1]) == x && Value(g[2]) == y && '=' !in g
    requires Ungroup(w, x, y, 0) == bytes
    ensures Decode(g[..3] + "=") == Bytes([bytes[0], bytes[1]])
  {
    hide Value, Ungroup;
    var t := g[..3] + "=";
    assert t[0] == g[0] && t[1] == g[1] && t[2] == g[2] && t[3] == '=' && g[2] in g;
    assert bytes[..2] == [bytes[0], bytes[1]];
  }

  lemma LastDecodes(a: nat)
    requires a < 256
    ensures Decode(Group(a, 0, 0)[..2] + "==") == Bytes([a as char])
  {
    hide Group, Ungroup, Decode, Value;
    var n := Pack(a, 0, 0);
    SymbolsOf(a, 0, 0, n);
    GroupInverts(a, 0, 0, n);
    OneByte(a, n);
    hide Pack;
    PaddedTwice(Group(a, 0, 0), n / 262144 % 64, n / 4096 % 64, [a as char, 0 as char, 0 as char]);
  }

  lemma PaddedTwice(g: string, w: nat, x: nat, bytes: string)
    requires |g| == 4 && w < 64 && x < 64 && x % 16 == 0 && |bytes| == 3
    requires Value(g[0]) == w && Value(g[1]) == x
    requires Ungroup(w, x, 0, 0) == bytes
    ensures Decode(g[..2] + "==") == Bytes([bytes[0]])
  {
    hide Value, Ungroup;
    var t := g[..2] + "==";
    assert t[0] == g[0] && t[1] == g[1] && t[2] == '=' && t[3] == '=';
    assert bytes[..1] == [bytes[0]];
  }

  /** Four symbols for every three bytes begun. */
  lemma {:induction false} EncodedLength(s: string)
    requires IsBytes(s)
    ensures |Encode(s)| == (|s| + 2) / 3 * 4
    decreases |s|
  {
    hide Group;
    if |s| >= 3 {
      EncodedLength(s[3..]);
      assert (|s| + 2) / 3 == (|s[3..]| + 2) / 3 + 1;
      assert |Encode(s)| == 4 + |Encode(s[3..])|;
    }
  }

  /** Padding after `n` symbols that are all in the alphabet. */
  predicate Padded(t: string, n: nat) {
    n <= |t| <= n + 2 && (forall i :: 0 <= i < n ==> Value(t[i]) < 64) && (forall i :: n <= i < |t| ==> t[i] == '=')
  }

  /** Only the alphabet and the padding that the length calls for. */
  lemma {:induction false} EncodedAlphabet(s: string)
    requires IsBytes(s)
    ensures Padded(Encode(s), (|s| * 8 + 5) / 6)
    decreases |s|
  {
    hide Value, Symbol;
    if |s| >= 3 {
      var g, t := Group(s[0] as nat, s[1] as nat, s[2] as nat), Encode(s[3..]);
      SymbolsOf(s[0] as nat, s[1] as nat, s[2] as nat, Pack(s[0] as nat, s[1] as nat, s[2] as nat));
      EncodedAlphabet(s[3..]);
      forall i | 0 <= i < (|s| * 8 + 5) / 6 ensures Value(Encode(s)[i]) < 64 {
        assert Encode(s)[i] == if i < 4 then g[i] else t[i - 4];
      }
      forall i | (|s| * 8 + 5) / 6 <= i < |Encode(s)| ensures Encode(s)[i] == '=' {
        assert Encode(s)[i] == t[i - 4];
      }
    } else if |s| == 2 {
      SymbolsOf(s[0] as nat, s[1] as nat, 0, Pack(s[0] as nat, s[1] as nat, 0));
    } else if |s| == 1 {
      SymbolsOf(s[0] as nat, 0, 0, Pack(s[0] as nat, 0, 0));
    }
  }

  lemma FooGroup()
    ensures Group(0x66, 0x6F, 0x6F) == [Symbol(25), Symbol(38), Symbol(61), Symbol(47)]
  {
    hide Symbol;
  }

  lemma BarGroup()
    ensures Group(0x62, 0x61, 0x72) == [Symbol(24), Symbol(38), Symbol(5), Symbol(50)]
  {
    hide Symbol;
  }

  lemma PaddedGroups()
    ensures Group(0x66, 0, 0)[..2] == [Symbol(25), Symbol(32)]
    ensures Group(0x66, 0x6F, 0)[..3] == [Symbol(25), Symbol(38), Symbol(60)]
  {
    hide Symbol;
  }

  lemma SomeSymbols()
    ensures Symbol(5) == 'F' && Symbol(24) == 'Y' && Symbol(25) == 'Z' && Symbol(32) == 'g' && Symbol(38) == 'm'
    ensures Symbol(47) == 'v' && Symbol(50) == 'y' && Symbol(60) == '8' && Symbol(61) == '9'
  {
  }

  /** The test vectors of section 10 of RFC 4648. */
  lemma Vectors()
    ensures Encode("") == "" && Encode("f") == "Zg==" && Encode("fo") == "Zm8="
    ensures Encode("foo") == "Zm9v" && Encode("foobar") == "Zm9vYmFy"
  {
    FooGroup();
    BarGroup();
    PaddedGroups();
    SomeSymbols();
    hide Group, Symbol;
    assert "foobar"[3..] == "bar" && "bar"[3..] == "" && "foo"[3..] == "";
    assert Encode("bar") == "YmFy" && Encode("") == "";
  }
}
