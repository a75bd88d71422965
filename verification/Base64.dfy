/** Go's `base64.StdEncoding`: the alphabet and padding of RFC 4648, section 4, with line breaks skipped on decoding. */
module Base64 {
  import opened Wrappers

  type byte = x: int | 0 <= x < 256
  type Bytes = seq<byte>
  type sextet = x: int | 0 <= x < 64

  function Symbol(v: sextet): char {
    if v < 26 then 'A' + v as char
    else if v < 52 then 'a' + (v - 26) as char
    else if v < 62 then '0' + (v - 52) as char
    else if v == 62 then '+' else '/'
  }

  function Sextet(c: char): Option<sextet> {
    if 'A' <= c <= 'Z' then Some(c as int - 'A' as int)
    else if 'a' <= c <= 'z' then Some(c as int - 'a' as int + 26)
    else if '0' <= c <= '9' then Some(c as int - '0' as int + 52)
    else if c == '+' then Some(62)
    else if c == '/' then Some(63)
    else None
  }

  lemma SymbolRoundTrip(v: sextet)
    ensures Sextet(Symbol(v)) == Some(v)
    ensures Symbol(v) != '=' && Symbol(v) != '\r' && Symbol(v) != '\n'
  {
  }

  lemma SextetRoundTrip(c: char)
    requires Sextet(c).Some?
    ensures Symbol(Sextet(c).value) == c
  {
  }

  function First(x: byte): sextet { x / 4 }
  function Second(x: byte, y: byte): sextet { x % 4 * 16 + y / 16 }
  function Third(y: byte, z: byte): sextet { y % 16 * 4 + z / 64 }
  function Fourth(z: byte): sextet { z % 64 }

  function Byte1(a: sextet, b: sextet): byte { a * 4 + b / 16 }
  function Byte2(b: sextet, c: sextet): byte { b % 16 * 16 + c / 4 }
  function Byte3(c: sextet, d: sextet): byte { c % 4 * 64 + d }

  /** Four symbols for one to three bytes. */
  function EncodeGroup(g: Bytes): (q: string)
    requires 1 <= |g| <= 3
    ensures |q| == 4
  {
    if |g| == 1 then [Symbol(First(g[0])), Symbol(Second(g[0], 0)), '=', '=']
    else if |g| == 2 then [Symbol(First(g[0])), Symbol(Second(g[0], g[1])), Symbol(Third(g[1], 0)), '=']
    else [Symbol(First(g[0])), Symbol(Second(g[0], g[1])), Symbol(Third(g[1], g[2])), Symbol(Fourth(g[2]))]
  }

  function Encode(b: Bytes): string {
    if b == [] then ""
    else if |b| <= 3 then EncodeGroup(b)
    else EncodeGroup(b[..3]) + Encode(b[3..])
  }

  /** The alphabet of RFC 4648, table 1. */
  lemma Alphabet()
    ensures Symbol(0) == 'A' && Symbol(25) == 'Z' && Symbol(26) == 'a' && Symbol(51) == 'z'
    ensures Symbol(52) == '0' && Symbol(61) == '9' && Symbol(62) == '+' && Symbol(63) == '/'
    ensures forall v: sextet :: v < 61 && v != 25 && v != 51 ==> Symbol(v + 1) as int == Symbol(v) as int + 1
  {
  }

  /** The test vectors of RFC 4648, section 10, for "f", "fo", "foo" and "foobar". */
  lemma TestVectors()
    ensures Encode([]) == "" && Encode([102]) == "Zg==" && Encode([102, 111]) == "Zm8="
    ensures Encode([102, 111, 111]) == "Zm9v" && Encode([102, 111, 111, 98, 97, 114]) == "Zm9vYmFy"
  {
    assert [102, 111, 111, 98, 97, 114][3..] == [98, 97, 114];
    assert [102, 111, 111, 98, 97, 114][..3] == [102, 111, 111];
  }

  /** The text without the line breaks that the decoder skips. */
  function Strip(s: string): string {
    if s == "" then ""
    else if s[0] == '\r' || s[0] == '\n' then Strip(s[1..])
    else [s[0]] + Strip(s[1..])
  }

  /** The bytes of four symbols; only the last four may be padded. */
  function DecodeGroup(q: string, last: bool): Option<Bytes>
    requires |q| == 4
  {
    match (Sextet(q[0]), Sextet(q[1]), Sextet(q[2]), Sextet(q[3]))
    case (Some(a), Some(b), Some(c), Some(d)) => Some([Byte1(a, b), Byte2(b, c), Byte3(c, d)])
    case (Some(a), Some(b), Some(c), None) =>
      if last && q[3] == '=' then Some([Byte1(a, b), Byte2(b, c)]) else None
    case (Some(a), Some(b), None, None) =>
      if last && q[2] == '=' && q[3] == '=' then Some([Byte1(a, b)]) else None
    case _ => None
  }

  function DecodeQuads(s: string): Option<Bytes> {
    if s == "" then Some([])
    else if |s| < 4 then None
    else
      match (DecodeGroup(s[..4], |s| == 4), DecodeQuads(s[4..]))
      case (Some(g), Some(rest)) => Some(g + rest)
      case _ => None
  }

  function Decode(s: string): Option<Bytes> {
    DecodeQuads(Strip(s))
  }

  /** The bits that padding leaves over are zero; the decoder, not being strict, ignores them. */
  predicate ZeroPadBitsInGroup(q: string)
    requires |q| == 4
  {
    match (Sextet(q[1]), Sextet(q[2]), Sextet(q[3]))
    case (Some(b), None, None) => b % 16 == 0
    case (Some(_), Some(c), None) => c % 4 == 0
    case _ => true
  }

  predicate ZeroPadBits(s: string) {
    |s| >= 4 ==> ZeroPadBitsInGroup(s[|s| - 4..])
  }

  lemma {:induction false} EncodedSymbols(b: Bytes)
    ensures '\r' !in Encode(b) && '\n' !in Encode(b)
  {
    if |b| > 3 {
      EncodedSymbols(b[3..]);
    }
  }

  lemma {:induction false} StripIdentity(s: string)
    requires '\r' !in s && '\n' !in s
    ensures Strip(s) == s
  {
    if s != "" {
      StripIdentity(s[1..]);
    }
  }

  lemma DecodeEncodedGroup(g: Bytes, last: bool)
    requires 1 <= |g| <= 3 && (|g| < 3 ==> last)
    ensures DecodeGroup(EncodeGroup(g), last) == Some(g)
  {
    if |g| == 1 {
      assert g == [g[0]];
      DecodeTwoSymbols(First(g[0]), Second(g[0], 0));
      SextetsKeepBytes(g[0], 0, 0);
    } else if |g| == 2 {
      assert g == [g[0], g[1]];
      DecodeThreeSymbols(First(g[0]), Second(g[0], g[1]), Third(g[1], 0));
      SextetsKeepBytes(g[0], g[1], 0);
    } else {
      assert g == [g[0], g[1], g[2]];
      DecodeSymbols(First(g[0]), Second(g[0], g[1]), Third(g[1], g[2]), Fourth(g[2]), last);
      SextetsKeepBytes(g[0], g[1], g[2]);
    }
  }

  lemma DecodeTwoSymbols(a: sextet, b: sextet)
    ensures DecodeGroup([Symbol(a), Symbol(b), '=', '='], true) == Some([Byte1(a, b)])
  {
    SymbolRoundTrip(a);
    SymbolRoundTrip(b);
  }

  lemma DecodeThreeSymbols(a: sextet, b: sextet, c: sextet)
    ensures DecodeGroup([Symbol(a), Symbol(b), Symbol(c), '='], true) == Some([Byte1(a, b), Byte2(b, c)])
  {
    SymbolRoundTrip(a);
    SymbolRoundTrip(b);
    SymbolRoundTrip(c);
  }

  lemma DecodeSymbols(a: sextet, b: sextet, c: sextet, d: sextet, last: bool)
    ensures DecodeGroup([Symbol(a), Symbol(b), Symbol(c), Symbol(d)], last) == Some([Byte1(a, b), Byte2(b, c), Byte3(c, d)])
  {
    SymbolRoundTrip(a);
    SymbolRoundTrip(b);
    SymbolRoundTrip(c);
    SymbolRoundTrip(d);
  }

  lemma SextetsKeepBytes(x: byte, y: byte, z: byte)
    ensures Byte1(First(x), Second(x, y)) == x
    ensures Byte2(Second(x, y), Third(y, z)) == y
    ensures Byte3(Third(y, z), Fourth(z)) == z
  {
  }

  lemma {:induction false} DecodeQuadsEncode(b: Bytes)
    ensures DecodeQuads(Encode(b)) == Some(b)
  {
    if b == [] {
    } else if |b| <= 3 {
      DecodeEncodedGroup(b, true);
      assert Encode(b)[..4] == EncodeGroup(b) && Encode(b)[4..] == "" && b + [] == b;
    } else {
      DecodeQuadsEncode(b[3..]);
      assert Encode(b)[..4] == EncodeGroup(b[..3]) && Encode(b)[4..] == Encode(b[3..]);
      DecodeEncodedGroup(b[..3], |Encode(b)| == 4);
      assert b == b[..3] + b[3..];
    }
  }

  /** Every byte string is decoded back to itself. */
  lemma DecodeEncode(b: Bytes)
    ensures Decode(Encode(b)) == Some(b)
  {
    EncodedSymbols(b);
    StripIdentity(Encode(b));
    DecodeQuadsEncode(b);
  }

  lemma SymbolInjective(u: sextet, v: sextet)
    ensures Symbol(u) == Symbol(v) <==> u == v
  {
    SymbolRoundTrip(u);
    SymbolRoundTrip(v);
  }

  lemma PaddingBits(a: sextet, b: sextet, c: sextet)
    ensures First(Byte1(a, b)) == a
    ensures Second(Byte1(a, b), 0) == b <==> b % 16 == 0
    ensures Second(Byte1(a, b), Byte2(b, c)) == b
    ensures Third(Byte2(b, c), 0) == c <==> c % 4 == 0
  {
  }

  lemma FullGroup(b: sextet, c: sextet, d: sextet)
    ensures Third(Byte2(b, c), Byte3(c, d)) == c
    ensures Fourth(Byte3(c, d)) == d
  {
    assert Byte2(b, c) % 16 == c / 4;
    assert Byte3(c, d) / 64 == c % 4 && Byte3(c, d) % 64 == d;
  }

  /** A decoded group is rendered back to itself exactly when its padding bits are zero. */
  lemma EncodeDecodedGroup(q: string, last: bool)
    requires |q| == 4 && DecodeGroup(q, last).Some?
    ensures 1 <= |DecodeGroup(q, last).value| <= 3 && (!last ==> |DecodeGroup(q, last).value| == 3)
    ensures EncodeGroup(DecodeGroup(q, last).value) == q <==> ZeroPadBitsInGroup(q)
    ensures !last ==> ZeroPadBitsInGroup(q)
  {
    var a, b := Sextet(q[0]).value, Sextet(q[1]).value;
    SextetRoundTrip(q[0]);
    SextetRoundTrip(q[1]);
    if Sextet(q[2]).None? {
      SingleByteGroup(q, a, b);
    } else {
      SextetRoundTrip(q[2]);
      var c := Sextet(q[2]).value;
      PaddingBits(a, b, c);
      if Sextet(q[3]).None? {
        SymbolInjective(Third(Byte2(b, c), 0), c);
        var e := EncodeGroup([Byte1(a, b), Byte2(b, c)]);
        assert e == [q[0], q[1], Symbol(Third(Byte2(b, c), 0)), '='];
        assert q == [q[0], q[1], Symbol(c), '='];
        assert e[2] == Symbol(Third(Byte2(b, c), 0)) && q[2] == Symbol(c);
      } else {
        SextetRoundTrip(q[3]);
        FullGroup(b, c, Sextet(q[3]).value);
        assert q == [q[0], q[1], q[2], q[3]];
      }
    }
  }

  lemma SingleByteGroup(q: string, a: sextet, b: sextet)
    requires |q| == 4 && q[0] == Symbol(a) && q[1] == Symbol(b) && q[2] == '=' && q[3] == '='
    ensures EncodeGroup([Byte1(a, b)]) == q <==> b % 16 == 0
  {
    PaddingBits(a, b, 0);
    SymbolInjective(Second(Byte1(a, b), 0), b);
    var e := EncodeGroup([Byte1(a, b)]);
    assert e == [Symbol(a), Symbol(Second(Byte1(a, b), 0)), '=', '='];
    assert q == [Symbol(a), Symbol(b), '=', '='];
    assert e[1] == Symbol(Second(Byte1(a, b), 0)) && q[1] == Symbol(b);
  }

  /** Re-encoding a decoded text gives the text without its line breaks exactly when its padding bits are zero. */
  lemma EncodeDecode(s: string)
    requires Decode(s).Some?
    ensures Encode(Decode(s).value) == Strip(s) <==> ZeroPadBits(Strip(s))
  {
    EncodeDecodeQuads(Strip(s));
  }

  lemma {:induction false} EncodeDecodeQuads(s: string)
    requires DecodeQuads(s).Some?
    ensures Encode(DecodeQuads(s).value) == s <==> ZeroPadBits(s)
    ensures DecodeQuads(s).value == [] <==> s == ""
  {
    if s != "" {
      EncodeDecodedGroup(s[..4], |s| == 4);
      var g, rest := DecodeGroup(s[..4], |s| == 4).value, DecodeQuads(s[4..]).value;
      EncodeDecodeQuads(s[4..]);
      if |s| == 4 {
        assert s[..4] == s && s[|s| - 4..] == s && g + rest == g;
      } else {
        assert (g + rest)[..3] == g && (g + rest)[3..] == rest;
        assert s == s[..4] + s[4..];
        assert s[|s| - 4..] == s[4..][|s[4..]| - 4..] by {
          LongEnough(s[4..]);
        }
        var e := Encode(g + rest);
        assert e == EncodeGroup(g) + Encode(rest);
        assert e[4..] == Encode(rest);
      }
    }
  }

  lemma LongEnough(s: string)
    requires DecodeQuads(s).Some? && s != ""
    ensures |s| >= 4
  {
  }
}
