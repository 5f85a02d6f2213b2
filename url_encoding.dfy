/** The two encoders the calendar client relies on to build request URLs:
    encodeURIComponent (ECMAScript's Encode operation: UTF-8, then
    percent-encoding as in section 2.1 of RFC 3986, leaving the unreserved
    marks alone) and URLSearchParams.toString (the
    application/x-www-form-urlencoded serializer of section 5.2 of the WHATWG
    URL Standard). Each comes with a decoder, so that the URL the client
    builds can be shown to carry exactly the ids and query pairs it was
    given. */
module UrlEncoding {
  import opened Outcomes
  import opened Strings

  type Byte = b: int | 0 <= b < 256

  /** The UTF-8 encoding of one Unicode scalar value. */
  function CharBytes(c: char): (bs: seq<Byte>)
    ensures 1 <= |bs| <= 4
    ensures (c as int < 0x80) <==> |bs| == 1
    ensures |bs| == 1 ==> bs[0] == c as int
    ensures |bs| > 1 ==> forall i :: 0 <= i < |bs| ==> bs[i] >= 0x80
  {
    var n := c as int;
    if n < 0x80 then [n]
    else if n < 0x800 then [0xC0 + n / 0x40, 0x80 + n % 0x40]
    else if n < 0x10000 then [0xE0 + n / 0x1000, 0x80 + (n / 0x40) % 0x40, 0x80 + n % 0x40]
    else [0xF0 + n / 0x40000, 0x80 + (n / 0x1000) % 0x40, 0x80 + (n / 0x40) % 0x40, 0x80 + n % 0x40]
  }

  /** The UTF-8 encoding of a string. */
  function Utf8(s: string): (bs: seq<Byte>)
    ensures |bs| >= |s|
    decreases |s|
  {
    if s == [] then [] else CharBytes(s[0]) + Utf8(s[1..])
  }

  /** The length of a UTF-8 sequence, read off its first byte. */
  function LeadLength(b: Byte): nat
  {
    if b < 0x80 then 1 else if b < 0xE0 then 2 else if b < 0xF0 then 3 else 4
  }

  /** The code point a UTF-8 sequence of one to four bytes stands for. */
  function CodePoint(bs: seq<Byte>): int
    requires 1 <= |bs| <= 4
  {
    if |bs| == 1 then bs[0]
    else if |bs| == 2 then (bs[0] as int - 0xC0) * 0x40 + (bs[1] as int - 0x80)
    else if |bs| == 3 then (bs[0] as int - 0xE0) * 0x1000 + (bs[1] as int - 0x80) * 0x40 + (bs[2] as int - 0x80)
    else (bs[0] as int - 0xF0) * 0x40000 + (bs[1] as int - 0x80) * 0x1000 + (bs[2] as int - 0x80) * 0x40 + (bs[3] as int - 0x80)
  }

  /** The first byte of a character's encoding tells how many bytes follow,
      and the bytes give the character back. */
  lemma CharBytesDecodes(c: char)
    ensures |CharBytes(c)| == LeadLength(CharBytes(c)[0])
    ensures CodePoint(CharBytes(c)) == c as int
  {
    var n := c as int;
    assert n == (n / 0x40) * 0x40 + n % 0x40;
    if 0x800 <= n < 0x10000 {
      assert n / 0x40 == (n / 0x1000) * 0x40 + (n / 0x40) % 0x40;
    } else if n >= 0x10000 {
      assert n / 0x40 == (n / 0x1000) * 0x40 + (n / 0x40) % 0x40;
      assert n / 0x1000 == (n / 0x40000) * 0x40 + (n / 0x1000) % 0x40;
    }
  }

  /** Two characters with the same encoding are the same character. */
  lemma CharBytesInjective(c: char, d: char, rest: seq<Byte>, others: seq<Byte>)
    requires CharBytes(c) + rest == CharBytes(d) + others
    ensures c == d && rest == others
  {
    var bc, bd := CharBytes(c), CharBytes(d);
    CharBytesDecodes(c);
    CharBytesDecodes(d);
    assert bc[0] == (bc + rest)[0] == bd[0];
    assert bc == (bc + rest)[..|bc|] == (bd + others)[..|bd|] == bd;
    assert rest == (bc + rest)[|bc|..] == (bd + others)[|bd|..] == others;
  }

  /** UTF-8 encoding loses nothing: different strings have different
      encodings. */
  lemma {:induction false} Utf8Injective(s: string, t: string)
    requires Utf8(s) == Utf8(t)
    ensures s == t
    decreases |s|
  {
    if s == [] || t == [] {
      assert |Utf8(s)| == 0 || |Utf8(t)| == 0;
    } else {
      CharBytesInjective(s[0], t[0], Utf8(s[1..]), Utf8(t[1..]));
      Utf8Injective(s[1..], t[1..]);
      assert s == [s[0]] + s[1..] && t == [t[0]] + t[1..];
    }
  }

  /** The characters encodeURIComponent leaves as they are: ALPHA, DIGIT and
      - _ . ! ~ * ' ( ) */
  predicate Unreserved(b: int)
  {
    || 'A' as int <= b <= 'Z' as int
    || 'a' as int <= b <= 'z' as int
    || '0' as int <= b <= '9' as int
    || b in {'-' as int, '_' as int, '.' as int, '!' as int, '~' as int, '*' as int, '\'' as int, '(' as int, ')' as int}
  }

  /** The bytes the urlencoded byte serializer leaves as they are:
      * - . 0-9 A-Z _ a-z */
  predicate FormSafe(b: int)
  {
    || 'A' as int <= b <= 'Z' as int
    || 'a' as int <= b <= 'z' as int
    || '0' as int <= b <= '9' as int
    || b in {'*' as int, '-' as int, '.' as int, '_' as int}
  }

  /** Characters that delimit the parts of a URL or of a query. */
  predicate Delimiter(c: char)
  {
    c in {'/', '?', '#', '&', '=', '+', ' '}
  }

  function HexDigit(d: nat): char
    requires d < 16
  {
    "0123456789ABCDEF"[d]
  }

  function HexValue(c: char): (r: Option<nat>)
    ensures r.Some? ==> r.value < 16
  {
    if '0' as int <= c as int <= '9' as int then Some(c as int - '0' as int)
    else if 'A' as int <= c as int <= 'F' as int then Some(c as int - 'A' as int + 10)
    else if 'a' as int <= c as int <= 'f' as int then Some(c as int - 'a' as int + 10)
    else None
  }

  /** "%XX" with upper-case hex digits. */
  function PercentByte(b: Byte): (r: string)
    ensures |r| == 3 && r[0] == '%'
    ensures forall i :: 0 <= i < 3 ==> !Delimiter(r[i])
  {
    ['%', HexDigit(b / 16), HexDigit(b % 16)]
  }

  /** encodeURIComponent's treatment of one code point: kept when unreserved,
      otherwise every byte of its UTF-8 encoding percent-encoded. */
  function EncodeChar(c: char): (r: string)
    ensures |r| >= 1
    ensures forall i :: 0 <= i < |r| ==> !Delimiter(r[i])
  {
    if c as int < 0x80 && Unreserved(c as int) then [c] else PercentAll(CharBytes(c))
  }

  function PercentAll(bs: seq<Byte>): (r: string)
    ensures |r| == 3 * |bs|
    ensures forall i :: 0 <= i < |r| ==> !Delimiter(r[i])
    decreases |bs|
  {
    if bs == [] then [] else PercentByte(bs[0]) + PercentAll(bs[1..])
  }

  /** encodeURIComponent(s). The result never holds a character that
      delimits URL parts, so it always stays within one path segment. */
  function EncodeURIComponent(s: string): (r: string)
    ensures |r| >= |s|
    ensures forall i :: 0 <= i < |r| ==> !Delimiter(r[i])
    decreases |s|
  {
    if s == [] then [] else EncodeChar(s[0]) + EncodeURIComponent(s[1..])
  }

  /** Which byte-level encoding is meant: encodeURIComponent's, or the
      urlencoded serializer's (which writes a space as '+'). */
  datatype Scheme = Component | Form

  function EncodeByte(scheme: Scheme, b: Byte): string
  {
    match scheme
    case Component => if Unreserved(b) then [b as char] else PercentByte(b)
    case Form => if b == 0x20 then "+" else if FormSafe(b) then [b as char] else PercentByte(b)
  }

  /** An encoded byte is never empty, and holds no delimiter except the '+'
      the urlencoded serializer writes for a space. */
  lemma EncodeByteSafe(scheme: Scheme, b: Byte)
    ensures |EncodeByte(scheme, b)| >= 1
    ensures forall i :: 0 <= i < |EncodeByte(scheme, b)| ==>
              !Delimiter(EncodeByte(scheme, b)[i]) || (scheme == Form && EncodeByte(scheme, b) == "+")
  {
  }

  /** Percent-encoding of a byte string, byte by byte. */
  function EncodeBytes(scheme: Scheme, bs: seq<Byte>): (r: string)
    decreases |bs|
  {
    if bs == [] then [] else EncodeByte(scheme, bs[0]) + EncodeBytes(scheme, bs[1..])
  }

  /** Neither encoder ever writes '&' or '='. */
  lemma {:induction false} EncodeBytesNoSeparators(scheme: Scheme, bs: seq<Byte>)
    ensures '&' !in EncodeBytes(scheme, bs) && '=' !in EncodeBytes(scheme, bs)
    decreases |bs|
  {
    if bs != [] {
      EncodeBytesNoSeparators(scheme, bs[1..]);
      var e := EncodeByte(scheme, bs[0]);
      forall i | 0 <= i < |e|
        ensures e[i] != '&' && e[i] != '='
      {
        assert !Delimiter(e[i]) || e == "+";
      }
    }
  }

  /** The urlencoded serializer applied to one string. */
  function FormEncode(s: string): string
  {
    EncodeBytes(Form, Utf8(s))
  }

  /** URLSearchParams.toString(): each name=value pair serialized, joined by '&'. */
  function SerializeQuery(pairs: seq<(string, string)>): string
    decreases |pairs|
  {
    if pairs == [] then ""
    else if |pairs| == 1 then SerializePair(pairs[0])
    else SerializePair(pairs[0]) + "&" + SerializeQuery(pairs[1..])
  }

  function SerializePair(p: (string, string)): string
  {
    FormEncode(p.0) + "=" + FormEncode(p.1)
  }

  // ---- decoding, the partner of the encoders ----

  function Prepend(b: Byte, rest: Option<seq<Byte>>): Option<seq<Byte>>
  {
    match rest
    case Some(t) => Some([b] + t)
    case None => None
  }

  /** Percent-decoding: "%XX" is one byte, '+' a space under the urlencoded
      scheme, any other ASCII character its own byte. */
  function PercentDecode(scheme: Scheme, s: string): Option<seq<Byte>>
    decreases |s|
  {
    if s == [] then Some([])
    else if s[0] == '%' then
      if |s| < 3 then None
      else match (HexValue(s[1]), HexValue(s[2]))
        case (Some(h), Some(l)) => Prepend(h * 16 + l, PercentDecode(scheme, s[3..]))
        case _ => None
    else if s[0] == '+' && scheme == Form then Prepend(0x20, PercentDecode(scheme, s[1..]))
    else if s[0] as int < 0x80 then Prepend(s[0] as int, PercentDecode(scheme, s[1..]))
    else None
  }

  lemma HexRoundTrip(b: Byte)
    ensures HexValue(HexDigit(b / 16)) == Some(b / 16)
    ensures HexValue(HexDigit(b % 16)) == Some(b % 16)
  {
  }

  lemma {:induction false} EncodeBytesAppend(scheme: Scheme, a: seq<Byte>, b: seq<Byte>)
    ensures EncodeBytes(scheme, a + b) == EncodeBytes(scheme, a) + EncodeBytes(scheme, b)
    decreases |a|
  {
    if a == [] {
      assert a + b == b;
    } else {
      EncodeBytesAppend(scheme, a[1..], b);
      assert (a + b)[1..] == a[1..] + b;
      Associative(EncodeByte(scheme, a[0]), EncodeBytes(scheme, a[1..]), EncodeBytes(scheme, b));
    }
  }

  lemma Associative(x: string, y: string, z: string)
    ensures x + (y + z) == (x + y) + z
  {
  }

  /** Decoding one encoded byte in front of more text. */
  lemma DecodeByte(scheme: Scheme, b: Byte, rest: string)
    ensures PercentDecode(scheme, EncodeByte(scheme, b) + rest) == Prepend(b, PercentDecode(scheme, rest))
  {
    var e := EncodeByte(scheme, b);
    var s := e + rest;
    if e == PercentByte(b) {
      HexRoundTrip(b);
      assert s[3..] == rest;
    } else {
      assert s[1..] == rest;
    }
  }

  /** Percent-decoding undoes percent-encoding. */
  lemma {:induction false} DecodeEncodeBytes(scheme: Scheme, bs: seq<Byte>)
    ensures PercentDecode(scheme, EncodeBytes(scheme, bs)) == Some(bs)
    decreases |bs|
  {
    if bs != [] {
      DecodeEncodeBytes(scheme, bs[1..]);
      DecodeByte(scheme, bs[0], EncodeBytes(scheme, bs[1..]));
      assert [bs[0]] + bs[1..] == bs;
    }
  }

  lemma {:induction false} PercentAllIsEncodeBytes(bs: seq<Byte>)
    requires forall i :: 0 <= i < |bs| ==> bs[i] >= 0x80
    ensures EncodeBytes(Component, bs) == PercentAll(bs)
    decreases |bs|
  {
    if bs != [] {
      PercentAllIsEncodeBytes(bs[1..]);
    }
  }

  /** encodeURIComponent, defined code point by code point, is the byte-level
      percent-encoding of the string's UTF-8 encoding. */
  lemma {:induction false} EncodeURIComponentIsBytewise(s: string)
    ensures EncodeURIComponent(s) == EncodeBytes(Component, Utf8(s))
    decreases |s|
  {
    if s != [] {
      var c := s[0];
      EncodeURIComponentIsBytewise(s[1..]);
      EncodeBytesAppend(Component, CharBytes(c), Utf8(s[1..]));
      var cb := CharBytes(c);
      if c as int < 0x80 {
        assert cb == [c as int];
        assert EncodeBytes(Component, cb) == EncodeByte(Component, c as int) + EncodeBytes(Component, []);
        assert EncodeBytes(Component, cb) == EncodeChar(c);
      } else {
        PercentAllIsEncodeBytes(cb);
      }
    }
  }

  /** encodeURIComponent is undone by percent-decoding, which yields the
      string's UTF-8 bytes: distinct byte strings never share an encoding. */
  lemma DecodeEncodeURIComponent(s: string)
    ensures PercentDecode(Component, EncodeURIComponent(s)) == Some(Utf8(s))
  {
    EncodeURIComponentIsBytewise(s);
    DecodeEncodeBytes(Component, Utf8(s));
  }

  /** An id made of unreserved ASCII characters is written as it is. */
  lemma {:induction false} EncodeUnreservedIsIdentity(s: string)
    requires forall i :: 0 <= i < |s| ==> s[i] as int < 0x80 && Unreserved(s[i] as int)
    ensures EncodeURIComponent(s) == s
    decreases |s|
  {
    if s != [] {
      EncodeUnreservedIsIdentity(s[1..]);
      assert s == [s[0]] + s[1..];
    }
  }

  // ---- parsing a serialized query, the partner of SerializeQuery ----

  /** One name=value piece of a query: split at the first '=', both sides
      decoded (a piece without '=' has an empty value). */
  function ParsePair(piece: string): Option<(seq<Byte>, seq<Byte>)>
  {
    var parts := Split(piece, '=');
    match (PercentDecode(Form, parts[0]), PercentDecode(Form, Join(parts[1..], '=')))
    case (Some(n), Some(v)) => Some((n, v))
    case _ => None
  }

  /** The pieces of a query, empty pieces skipped. */
  function ParsePieces(pieces: seq<string>): Option<seq<(seq<Byte>, seq<Byte>)>>
    decreases |pieces|
  {
    if pieces == [] then Some([])
    else if pieces[0] == "" then ParsePieces(pieces[1..])
    else match (ParsePair(pieces[0]), ParsePieces(pieces[1..]))
      case (Some(p), Some(ps)) => Some([p] + ps)
      case _ => None
  }

  /** Reads a urlencoded query back into (name, value) byte strings. */
  function ParseQuery(q: string): Option<seq<(seq<Byte>, seq<Byte>)>>
  {
    ParsePieces(Split(q, '&'))
  }

  /** The UTF-8 bytes of each name and value. */
  function Utf8Pairs(pairs: seq<(string, string)>): (r: seq<(seq<Byte>, seq<Byte>)>)
    ensures |r| == |pairs|
    decreases |pairs|
  {
    if pairs == [] then [] else [(Utf8(pairs[0].0), Utf8(pairs[0].1))] + Utf8Pairs(pairs[1..])
  }

  lemma SerializePairParses(p: (string, string))
    ensures '&' !in SerializePair(p) && SerializePair(p) != ""
    ensures ParsePair(SerializePair(p)) == Some((Utf8(p.0), Utf8(p.1)))
  {
    var n, v := FormEncode(p.0), FormEncode(p.1);
    EncodeBytesNoSeparators(Form, Utf8(p.0));
    EncodeBytesNoSeparators(Form, Utf8(p.1));
    SplitPrefix(n, '=', v);
    assert Split(SerializePair(p), '=') == [n, v];
    DecodeEncodeBytes(Form, Utf8(p.0));
    DecodeEncodeBytes(Form, Utf8(p.1));
    assert SerializePair(p)[|n|] == '=';
  }

  /** Parsing a serialized query gives back every pair, in order. */
  lemma {:induction false} ParseSerializeQuery(pairs: seq<(string, string)>)
    ensures ParseQuery(SerializeQuery(pairs)) == Some(Utf8Pairs(pairs))
    decreases |pairs|
  {
    if |pairs| == 1 {
      SerializePairParses(pairs[0]);
      assert Split(SerializeQuery(pairs), '&') == [SerializePair(pairs[0])];
      assert [SerializePair(pairs[0])][1..] == [];
      assert pairs[1..] == [];
      var sp := SerializePair(pairs[0]);
      assert sp != "";
      assert ParsePieces([sp]) == Some([(Utf8(pairs[0].0), Utf8(pairs[0].1))]) by {
        assert [sp][0] == sp && [sp][1..] == [];
        assert ParsePair(sp) == Some((Utf8(pairs[0].0), Utf8(pairs[0].1)));
        assert ParsePieces([]) == Some([]);
        var one: seq<(seq<Byte>, seq<Byte>)> := [(Utf8(pairs[0].0), Utf8(pairs[0].1))];
        assert one + [] == one;
      }
      assert Utf8Pairs(pairs) == [(Utf8(pairs[0].0), Utf8(pairs[0].1))] + Utf8Pairs([]);
    } else if |pairs| > 1 {
      var first := SerializePair(pairs[0]);
      SerializePairParses(pairs[0]);
      ParseSerializeQuery(pairs[1..]);
      SplitPrefix(first, '&', SerializeQuery(pairs[1..]));
      assert SerializeQuery(pairs) == first + ['&'] + SerializeQuery(pairs[1..]);
      assert ([first] + Split(SerializeQuery(pairs[1..]), '&'))[1..] == Split(SerializeQuery(pairs[1..]), '&');
    }
  }
}
