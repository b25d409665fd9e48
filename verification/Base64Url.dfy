/** Base64url (section 5 of RFC 4648) as the demo script prints and parses it, by way of the
    padded standard alphabet. */
module Base64Url {
  import opened Common

  type Byte = b: int | 0 <= b < 256
  type Bytes = seq<Byte>

  // ----- The standard alphabet -----

  function Symbol(v: int): char
    requires 0 <= v < 64
  {
    if v < 26 then 'A' + v as char
    else if v < 52 then 'a' + (v - 26) as char
    else if v < 62 then '0' + (v - 52) as char
    else if v == 62 then '+' else '/'
  }

  /** The value of a symbol, or -1. */
  function Sextet(c: char): (v: int)
    ensures -1 <= v < 64
  {
    if 'A' <= c <= 'Z' then (c - 'A') as int
    else if 'a' <= c <= 'z' then (c - 'a') as int + 26
    else if '0' <= c <= '9' then (c - '0') as int + 52
    else if c == '+' then 62 else if c == '/' then 63 else -1
  }

  lemma SextetOfSymbol(v: int)
    requires 0 <= v < 64
    ensures Sextet(Symbol(v)) == v && Symbol(v) != '='
  {
  }

  predicate IsSymbol(c: char) {
    Sextet(c) >= 0
  }

  /** The symbols of the last, incomplete group of one or two bytes, without padding. */
  function Tail(b: Bytes): string
    requires |b| < 3
  {
    if |b| == 0 then ""
    else if |b| == 1 then [Symbol(b[0] / 4), Symbol(b[0] % 4 * 16)]
    else [Symbol(b[0] / 4), Symbol(b[0] % 4 * 16 + b[1] / 16), Symbol(b[1] % 16 * 4)]
  }

  function Quad(a: Byte, b: Byte, c: Byte): string {
    [Symbol(a / 4), Symbol(a % 4 * 16 + b / 16), Symbol(b % 16 * 4 + c / 64), Symbol(c % 64)]
  }

  /** Convert.ToBase64String. */
  function ToBase64(b: Bytes): string {
    if |b| < 3 then Tail(b) + (if |b| == 0 then "" else if |b| == 1 then "==" else "=")
    else Quad(b[0], b[1], b[2]) + ToBase64(b[3..])
  }

  predicate IsBase64Space(c: char) {
    c == ' ' || c == '\t' || c == '\n' || c == '\r'
  }

  function DropSpaces(s: string): string {
    if s == [] then [] else (if IsBase64Space(s[0]) then [] else [s[0]]) + DropSpaces(s[1..])
  }

  predicate IsSextet(v: int) {
    0 <= v < 64
  }

  /** The three bytes that four sextets hold. */
  function Bytes3(v0: int, v1: int, v2: int, v3: int): (b: (Byte, Byte, Byte))
    requires IsSextet(v0) && IsSextet(v1) && IsSextet(v2) && IsSextet(v3)
  {
    (v0 * 4 + v1 / 16, v1 % 16 * 16 + v2 / 4, v2 % 4 * 64 + v3)
  }

  /** Whole groups, the last of which may be padded. */
  function Groups(s: string): Option<Bytes> {
    if s == [] then Some([])
    else if |s| < 4 || !IsSymbol(s[0]) || !IsSymbol(s[1]) then None
    else if |s| == 4 && s[2] == '=' && s[3] == '=' then Some([Bytes3(Sextet(s[0]), Sextet(s[1]), 0, 0).0])
    else if !IsSymbol(s[2]) then None
    else if |s| == 4 && s[3] == '=' then
      var b := Bytes3(Sextet(s[0]), Sextet(s[1]), Sextet(s[2]), 0);
      Some([b.0, b.1])
    else if !IsSymbol(s[3]) then None
    else
      var b, rest := Bytes3(Sextet(s[0]), Sextet(s[1]), Sextet(s[2]), Sextet(s[3])), Groups(s[4..]);
      if rest.None? then None else Some([b.0, b.1, b.2] + rest.value)
  }

  /** Convert.FromBase64String; None when it throws. */
  function FromBase64(s: string): Option<Bytes> {
    Groups(DropSpaces(s))
  }

  // ----- The URL form -----

  function TrimPadding(s: string): string {
    if s != [] && s[|s| - 1] == '=' then TrimPadding(s[..|s| - 1]) else s
  }

  function Replace(s: string, from: char, to: char): (r: string)
    ensures |r| == |s| && forall i | 0 <= i < |s| :: r[i] == if s[i] == from then to else s[i]
  {
    seq(|s|, i requires 0 <= i < |s| => if s[i] == from then to else s[i])
  }

  /** Convert-ToBase64Url. */
  function Encode(b: Bytes): string {
    Replace(Replace(TrimPadding(ToBase64(b)), '+', '-'), '/', '_')
  }

  function Padding(n: nat): string {
    if n % 4 == 2 then "==" else if n % 4 == 3 then "=" else if n % 4 == 1 then "===" else ""
  }

  /** Convert-FromBase64Url; None when it throws. */
  function Decode(s: string): Option<Bytes> {
    var standard := Replace(Replace(s, '-', '+'), '_', '/');
    FromBase64(standard + Padding(|standard|))
  }

  // ----- Round trip -----

  /** The symbols without padding. */
  function Unpadded(b: Bytes): string {
    if |b| < 3 then Tail(b) else Quad(b[0], b[1], b[2]) + Unpadded(b[3..])
  }

  predicate AllSymbols(s: string) {
    forall i | 0 <= i < |s| :: IsSymbol(s[i])
  }

  lemma SymbolsOfBytes(a: Byte, b: Byte, c: Byte)
    ensures AllSymbols(Quad(a, b, c)) && IsSymbol(Symbol(a % 4 * 16)) && IsSymbol(Symbol(b % 16 * 4))
  {
    Sextets(a, b, c);
    SextetOfSymbol(a / 4);
    SextetOfSymbol(a % 4 * 16 + b / 16);
    SextetOfSymbol(b % 16 * 4 + c / 64);
    SextetOfSymbol(c % 64);
    SextetOfSymbol(a % 4 * 16);
    SextetOfSymbol(b % 16 * 4);
    hide Symbol, Sextet;
  }

  lemma TailIsSymbols(b: Bytes)
    requires |b| < 3
    ensures AllSymbols(Tail(b)) && |Tail(b)| % 4 != 1
    ensures ToBase64(b) == Tail(b) + Padding(|Tail(b)|)
  {
    hide IsSymbol, Symbol;
    if |b| > 0 {
      var q := Quad(b[0], if |b| == 1 then 0 else b[1], 0);
      SymbolsOfBytes(b[0], if |b| == 1 then 0 else b[1], 0);
      assert IsSymbol(q[0]) && IsSymbol(q[1]);
    }
  }

  lemma SymbolsConcat(q: string, u: string)
    requires AllSymbols(q) && AllSymbols(u) && |q| == 4
    ensures AllSymbols(q + u) && |q + u| % 4 == |u| % 4 && q + (u + Padding(|u|)) == (q + u) + Padding(|q + u|)
  {
    hide IsSymbol;
    Regroup(q, u, Padding(|u|));
  }

  lemma {:induction false} UnpaddedIsSymbols(b: Bytes)
    ensures AllSymbols(Unpadded(b)) && |Unpadded(b)| % 4 != 1
    ensures ToBase64(b) == Unpadded(b) + Padding(|Unpadded(b)|)
    decreases |b|
  {
    hide AllSymbols, Padding, Tail, Symbol;
    if |b| < 3 {
      TailIsSymbols(b);
    } else {
      UnpaddedIsSymbols(b[3..]);
      SymbolsOfBytes(b[0], b[1], b[2]);
      SymbolsConcat(Quad(b[0], b[1], b[2]), Unpadded(b[3..]));
    }
  }

  lemma TrimmedIsUnpadded(b: Bytes)
    ensures TrimPadding(ToBase64(b)) == Unpadded(b)
  {
    UnpaddedIsSymbols(b);
    TrimPads(Unpadded(b), Padding(|Unpadded(b)|));
  }

  lemma {:induction false} TrimPads(s: string, pad: string)
    requires AllSymbols(s) && forall i | 0 <= i < |pad| :: pad[i] == '='
    ensures TrimPadding(s + pad) == s
    decreases |pad|
  {
    if pad == [] {
      assert s + pad == s;
      assert s != [] ==> IsSymbol(s[|s| - 1]);
    } else {
      assert (s + pad)[..|s + pad| - 1] == s + pad[..|pad| - 1];
      TrimPads(s, pad[..|pad| - 1]);
    }
  }

  lemma {:induction false} NoSpaces(s: string)
    requires forall i | 0 <= i < |s| :: !IsBase64Space(s[i])
    ensures DropSpaces(s) == s
  {
    if s != [] {
      NoSpaces(s[1..]);
      assert s == [s[0]] + s[1..];
    }
  }

  lemma Meet16(high: int, low: int)
    requires 0 <= low < 16
    ensures (high * 16 + low) / 16 == high && (high * 16 + low) % 16 == low
  {
  }

  lemma Meet4(high: int, low: int)
    requires 0 <= low < 4
    ensures (high * 4 + low) / 4 == high && (high * 4 + low) % 4 == low
  {
  }

  /** The sextets of three bytes hold those bytes. */
  lemma Sextets(a: Byte, b: Byte, c: Byte)
    ensures var v1, v2 := a % 4 * 16 + b / 16, b % 16 * 4 + c / 64;
            && IsSextet(a / 4) && IsSextet(v1) && IsSextet(v2) && IsSextet(c % 64)
            && Bytes3(a / 4, v1, v2, c % 64) == (a, b, c)
  {
    Meet16(a % 4, b / 16);
    Meet4(b % 16, c / 64);
  }

  /** Decoding a full group of symbols that is followed by others, or ends the text unpadded. */
  lemma GroupStep(s: string)
    requires |s| >= 4 && IsSymbol(s[0]) && IsSymbol(s[1]) && IsSymbol(s[2]) && IsSymbol(s[3])
    ensures var r, b := Groups(s[4..]), Bytes3(Sextet(s[0]), Sextet(s[1]), Sextet(s[2]), Sextet(s[3]));
            Groups(s) == if r.None? then None else Some([b.0, b.1, b.2] + r.value)
  {
    assert s[2] != '=' && s[3] != '=';
  }

  function Symbols(v0: int, v1: int, v2: int, v3: int): string
    requires IsSextet(v0) && IsSextet(v1) && IsSextet(v2) && IsSextet(v3)
  {
    [Symbol(v0), Symbol(v1), Symbol(v2), Symbol(v3)]
  }

  lemma SymbolsGroup(v0: int, v1: int, v2: int, v3: int, rest: string)
    requires IsSextet(v0) && IsSextet(v1) && IsSextet(v2) && IsSextet(v3)
    ensures var r, b := Groups(rest), Bytes3(v0, v1, v2, v3);
            Groups(Symbols(v0, v1, v2, v3) + rest) == if r.None? then None else Some([b.0, b.1, b.2] + r.value)
    ensures var b := Bytes3(v0, v1, v2, 0);
            && Groups([Symbol(v0), Symbol(v1), Symbol(v2), '=']) == Some([b.0, b.1])
            && Groups([Symbol(v0), Symbol(v1), '=', '=']) == Some([Bytes3(v0, v1, 0, 0).0])
  {
    SextetOfSymbol(v0);
    SextetOfSymbol(v1);
    SextetOfSymbol(v2);
    SextetOfSymbol(v3);
    hide Symbol, Sextet, Groups, Bytes3;
    assert (Symbols(v0, v1, v2, v3) + rest)[4..] == rest;
    GroupStep(Symbols(v0, v1, v2, v3) + rest);
    LastTwo([Symbol(v0), Symbol(v1), '=', '=']);
    LastThree([Symbol(v0), Symbol(v1), Symbol(v2), '=']);
  }

  lemma LastTwo(s: string)
    requires |s| == 4 && IsSymbol(s[0]) && IsSymbol(s[1]) && s[2] == '=' && s[3] == '='
    ensures var b := Bytes3(Sextet(s[0]), Sextet(s[1]), 0, 0); Groups(s) == Some([b.0])
  {
  }

  lemma LastThree(s: string)
    requires |s| == 4 && IsSymbol(s[0]) && IsSymbol(s[1]) && IsSymbol(s[2]) && s[3] == '='
    ensures var b := Bytes3(Sextet(s[0]), Sextet(s[1]), Sextet(s[2]), 0);
            Groups(s) == Some([b.0, b.1])
  {
  }

  /** Decoding one full group of bytes. */
  lemma QuadBytes(a: Byte, b: Byte, c: Byte, rest: string)
    ensures Groups(Quad(a, b, c) + rest) == var r := Groups(rest); if r.None? then None else Some([a, b, c] + r.value)
  {
    Sextets(a, b, c);
    hide Symbol, Groups, Bytes3;
    SymbolsGroup(a / 4, a % 4 * 16 + b / 16, b % 16 * 4 + c / 64, c % 64, rest);
  }

  lemma OneByte(a: Byte)
    ensures Groups([Symbol(a / 4), Symbol(a % 4 * 16), '=', '=']) == Some([a])
  {
    var v0, v1 := a / 4, a % 4 * 16;
    Meet16(a % 4, 0);
    assert Bytes3(v0, v1, 0, 0).0 == a;
    hide Symbol, Groups, Bytes3;
    SymbolsGroup(v0, v1, 0, 0, "");
  }

  lemma TwoBytes(a: Byte, b: Byte)
    ensures Groups([Symbol(a / 4), Symbol(a % 4 * 16 + b / 16), Symbol(b % 16 * 4), '=']) == Some([a, b])
  {
    var v0, v1, v2 := a / 4, a % 4 * 16 + b / 16, b % 16 * 4;
    Meet16(a % 4, b / 16);
    Meet4(b % 16, 0);
    assert Bytes3(v0, v1, v2, 0).0 == a && Bytes3(v0, v1, v2, 0).1 == b;
    hide Symbol, Groups, Bytes3;
    SymbolsGroup(v0, v1, v2, 0, "");
  }

  lemma OnePad(t: string)
    requires |t| == 3
    ensures t + "=" == [t[0], t[1], t[2], '=']
  {
  }

  lemma TwoPads(t: string)
    requires |t| == 2
    ensures t + "==" == [t[0], t[1], '=', '=']
  {
  }

  lemma TailBytes(b: Bytes)
    requires 0 < |b| < 3
    ensures Groups(ToBase64(b)) == Some(b)
  {
    hide Symbol, Groups;
    if |b| == 1 {
      OneByte(b[0]);
      TwoPads(Tail(b));
      assert b == [b[0]];
    } else {
      TwoBytes(b[0], b[1]);
      OnePad(Tail(b));
      assert b == [b[0], b[1]];
    }
  }

  lemma {:induction false} GroupsOfBase64(b: Bytes)
    ensures Groups(ToBase64(b)) == Some(b)
    decreases |b|
  {
    if |b| >= 3 {
      GroupsOfBase64(b[3..]);
      QuadBytes(b[0], b[1], b[2], ToBase64(b[3..]));
      assert b == [b[0], b[1], b[2]] + b[3..];
    } else if |b| > 0 {
      TailBytes(b);
    }
  }

  lemma BackToStandard(s: string)
    requires AllSymbols(s)
    ensures var url := Replace(Replace(s, '+', '-'), '/', '_'); Replace(Replace(url, '-', '+'), '_', '/') == s
  {
    var url := Replace(Replace(s, '+', '-'), '/', '_');
    assert forall i | 0 <= i < |s| :: IsSymbol(s[i]) && Replace(Replace(url, '-', '+'), '_', '/')[i] == s[i];
  }

  /** What is printed parses back to the same bytes. */
  lemma RoundTrip(b: Bytes)
    ensures Decode(Encode(b)) == Some(b)
  {
    UnpaddedIsSymbols(b);
    TrimmedIsUnpadded(b);
    BackToStandard(Unpadded(b));
    var t := ToBase64(b);
    forall i | 0 <= i < |t| ensures !IsBase64Space(t[i]) {
      assert i < |Unpadded(b)| ==> t[i] == Unpadded(b)[i] && IsSymbol(Unpadded(b)[i]);
    }
    NoSpaces(t);
    GroupsOfBase64(b);
  }

  /** Letters, digits, '-' and '_'. */
  predicate IsUrlSymbol(c: char) {
    'A' <= c <= 'Z' || 'a' <= c <= 'z' || '0' <= c <= '9' || c == '-' || c == '_'
  }

  lemma EncodedAlphabet(b: Bytes)
    ensures forall i | 0 <= i < |Encode(b)| :: IsUrlSymbol(Encode(b)[i])
  {
    UnpaddedIsSymbols(b);
    TrimmedIsUnpadded(b);
    assert forall i | 0 <= i < |Encode(b)| :: IsSymbol(Unpadded(b)[i]);
  }

  /** No two byte sequences print alike. */
  lemma EncodeInjective(a: Bytes, b: Bytes)
    ensures Encode(a) == Encode(b) <==> a == b
  {
    RoundTrip(a);
    RoundTrip(b);
  }

  lemma {:induction false} GroupLength(s: string)
    ensures Groups(s).Some? ==> |s| % 4 == 0 && forall i | 0 <= i < |s| :: IsSymbol(s[i]) || (i >= |s| - 2 && s[i] == '=')
    decreases |s|
  {
    if |s| > 4 {
      GroupLength(s[4..]);
      if Groups(s).Some? {
        forall i | 4 <= i < |s| ensures IsSymbol(s[i]) || (i >= |s| - 2 && s[i] == '=') {
          assert s[i] == s[4..][i - 4];
        }
      }
    }
  }

  lemma {:induction false} DropSpacesConcat(a: string, b: string)
    ensures DropSpaces(a + b) == DropSpaces(a) + DropSpaces(b)
  {
    if a == [] {
      assert a + b == b;
    } else {
      assert (a + b)[1..] == a[1..] + b;
      DropSpacesConcat(a[1..], b);
    }
  }

  /** A text whose length is one more than a multiple of four never decodes, white space or not: the
      three padding characters that the parser appends for it are refused. */
  lemma LoneSymbolNeverDecodes(s: string)
    requires |s| % 4 == 1
    ensures Decode(s).None?
  {
    var standard := Replace(Replace(s, '-', '+'), '_', '/');
    DropSpacesConcat(standard, "===");
    NoSpaces("===");
    var t := DropSpaces(standard) + "===";
    GroupLength(t);
    assert t[|t| - 3] == '=';
  }

  lemma EncodeIs(b: Bytes)
    ensures |Encode(b)| == |Unpadded(b)|
    ensures forall i | 0 <= i < |Encode(b)| ::
              Encode(b)[i] == if Unpadded(b)[i] == '+' then '-' else if Unpadded(b)[i] == '/' then '_' else Unpadded(b)[i]
  {
    TrimmedIsUnpadded(b);
    hide TrimPadding, ToBase64, Unpadded;
  }

  /** A test vector of section 10 of RFC 4648. */
  lemma Vector()
    ensures Encode([102, 111, 111]) == "Zm9v"
  {
    hide Encode;
    EncodeIs([102, 111, 111]);
    assert [102, 111, 111][3..] == [] && Unpadded([]) == "";
    assert Quad(102, 111, 111) == ['Z', 'm', '9', 'v'];
    hide Quad;
  }

  /** One that ends in an incomplete group, and holds the two symbols of the URL form. */
  lemma UrlVector()
    ensures Encode([251, 255]) == "-_8"
  {
    hide Encode;
    EncodeIs([251, 255]);
    assert Unpadded([251, 255]) == ['+', '/', '8'];
  }
}
