/**
 Percent-encoded tokens: text to UTF-8 to unreserved characters and percent triples
 (sections 2.1 and 2.3 of RFC 3986), and back. Text is a sequence of Unicode scalar values.
 */
module PercentToken {
  import opened Characters
  import opened Wrappers

  // ---- UTF-8 ---------------------------------------------------------------------------

  type Octet = n: int | 0 <= n < 256

  function Utf8(c: char): (r: seq<Octet>)
    ensures 1 <= |r| <= 4
  {
    var n := c as int;
    if n < 0x80 then [n]
    else if n < 0x800 then [0xC0 + n / 64, 0x80 + n % 64]
    else if n < 0x10000 then [0xE0 + n / 4096, 0x80 + n / 64 % 64, 0x80 + n % 64]
    else [0xF0 + n / 262144, 0x80 + n / 4096 % 64, 0x80 + n / 64 % 64, 0x80 + n % 64]
  }

  function Utf8Length(s: string): nat {
    if s == [] then 0 else |Utf8(s[0])| + Utf8Length(s[1..])
  }

  /** How many octets a sequence has that starts with this one; zero when none may. */
  function SequenceLength(lead: Octet): nat {
    if lead < 0x80 then 1
    else if 0xC0 <= lead < 0xE0 then 2
    else if 0xE0 <= lead < 0xF0 then 3
    else if 0xF0 <= lead < 0xF8 then 4
    else 0
  }

  predicate Continuation(b: Octet) { 0x80 <= b < 0xC0 }

  predicate ScalarValue(n: int) { 0 <= n < 0xD800 || 0xE000 <= n < 0x110000 }

  function Payload(b: Octet): nat
    requires Continuation(b)
  {
    b as int - 0x80
  }

  /** The number spelled by one octet sequence of the right length. */
  function Assemble(b: seq<Octet>): nat
    requires 1 <= |b| <= 4 && |b| == SequenceLength(b[0])
    requires forall i :: 1 <= i < |b| ==> Continuation(b[i])
  {
    var lead := b[0] as int;
    if |b| == 1 then lead
    else if |b| == 2 then (lead - 0xC0) * 64 + Payload(b[1])
    else if |b| == 3 then ((lead - 0xE0) * 64 + Payload(b[1])) * 64 + Payload(b[2])
    else (((lead - 0xF0) * 64 + Payload(b[1])) * 64 + Payload(b[2])) * 64 + Payload(b[3])
  }

  /** Shortest form only, and no surrogates. */
  function DecodeUtf8(b: seq<Octet>): Option<char> {
    if 1 <= |b| <= 4 && |b| == SequenceLength(b[0]) && forall i :: 1 <= i < |b| ==> Continuation(b[i]) then
      var n := Assemble(b);
      if ScalarValue(n) && |Utf8(n as char)| == |b| then Some(n as char) else None
    else None
  }

  lemma Utf8RoundTrip(c: char)
    ensures SequenceLength(Utf8(c)[0]) == |Utf8(c)| && DecodeUtf8(Utf8(c)) == Some(c)
    ensures |Utf8(c)| == 1 ==> c as int < 0x80
  {
    AssembleUndoesUtf8(c);
  }

  lemma AssembleUndoesUtf8(c: char)
    ensures SequenceLength(Utf8(c)[0]) == |Utf8(c)| && (forall i :: 1 <= i < |Utf8(c)| ==> Continuation(Utf8(c)[i]))
    ensures Assemble(Utf8(c)) == c as int
  {
    var n := c as int;
    var high, middle := n / 64, n / 64 / 64;
    assert n == high * 64 + n % 64 && high == middle * 64 + high % 64 && middle == middle / 64 * 64 + middle % 64;
    assert n / 4096 == middle && n / 262144 == middle / 64;
    if n < 0x80 {
    } else if n < 0x800 {
    } else if n < 0x10000 {
      assert Assemble(Utf8(c)) == (middle * 64 + high % 64) * 64 + n % 64;
    } else {
      assert Assemble(Utf8(c)) == ((middle / 64 * 64 + middle % 64) * 64 + high % 64) * 64 + n % 64;
    }
  }

  /** The width of a character, by code point (section 3 of RFC 3629). */
  lemma Utf8Width(c: char)
    ensures |Utf8(c)| == if c <= '\U{7F}' then 1 else if c <= '\U{7FF}' then 2 else if c <= '\U{FFFF}' then 3 else 4
  {
  }

  /** The length of a text in octets adds up over its parts, down to single characters. */
  lemma {:induction false} Utf8LengthAdds(a: string, b: string)
    ensures Utf8Length(a + b) == Utf8Length(a) + Utf8Length(b)
    ensures |a| == 1 ==>
      Utf8Length(a) == if a[0] <= '\U{7F}' then 1 else if a[0] <= '\U{7FF}' then 2 else if a[0] <= '\U{FFFF}' then 3 else 4
  {
    if a == [] {
      assert a + b == b;
    } else {
      Utf8Width(a[0]);
      Utf8LengthAdds(a[1..], b);
      assert (a + b)[1..] == a[1..] + b;
    }
  }

  // ---- percent triples --------------------------------------------------------------------

  predicate Unreserved(c: char) {
    'A' <= c <= 'Z' || 'a' <= c <= 'z' || '0' <= c <= '9' || c in "-._~"
  }

  function HexDigit(n: nat): (c: char)
    requires n < 16
  {
    "0123456789ABCDEF"[n]
  }

  function HexValue(c: char): Option<nat> {
    if '0' <= c <= '9' then Some(c as int - '0' as int)
    else if 'A' <= c <= 'F' then Some(c as int - 'A' as int + 10)
    else if 'a' <= c <= 'f' then Some(c as int - 'a' as int + 10)
    else None
  }

  function Triple(b: Octet): string { ['%', HexDigit(b / 16), HexDigit(b % 16)] }

  function Triples(b: seq<Octet>): string
  {
    if b == [] then [] else Triple(b[0]) + Triples(b[1..])
  }

  function EncodeChar(c: char): string { if Unreserved(c) then [c] else Triples(Utf8(c)) }

  function Encode(s: string): string {
    if s == [] then [] else EncodeChar(s[0]) + Encode(s[1..])
  }

  function ReadTriple(t: string): (r: Option<Octet>)
    ensures r.Some? ==> |t| >= 3 && t[0] == '%'
  {
    if |t| >= 3 && t[0] == '%' && HexValue(t[1]).Some? && HexValue(t[2]).Some?
    then Some(HexValue(t[1]).value * 16 + HexValue(t[2]).value)
    else None
  }

  /** The octets of `n` consecutive triples. */
  function ReadTriples(t: string, n: nat): (r: Option<seq<Octet>>)
    ensures r.Some? ==> |t| >= 3 * n && |r.value| == n
  {
    if n == 0 then Some([])
    else
      match ReadTriple(t)
      case None => None
      case Some(b) =>
        match ReadTriples(t[3..], n - 1)
        case None => None
        case Some(rest) => Some([b] + rest)
  }

  /** One character off the front, and how much text it took; `None` on a malformed sequence. */
  function TakeChar(t: string): (r: Option<(char, nat)>)
    requires t != []
    ensures r.Some? ==> 0 < r.value.1 <= |t|
  {
    if t[0] != '%' then Some((t[0], 1))
    else
      match ReadTriple(t)
      case None => None
      case Some(lead) =>
        var n := SequenceLength(lead);
        if n == 0 then None
        else
          match ReadTriples(t, n)
          case None => None
          case Some(octets) =>
            match DecodeUtf8(octets)
            case None => None
            case Some(c) => Some((c, 3 * n))
  }

  /** Percent decoding as such: lower-case digits and needless triples are let through. */
  function Lenient(t: string): Option<string>
    decreases |t|
  {
    if t == [] then Some([])
    else
      match TakeChar(t)
      case None => None
      case Some(taken) =>
        match Lenient(t[taken.1..])
        case None => None
        case Some(rest) => Some([taken.0] + rest)
  }

  /** A token is accepted only when it is the encoding of what it decodes to. */
  function Decode(t: string): Option<string> {
    match Lenient(t)
    case None => None
    case Some(s) => if Encode(s) == t then Some(s) else None
  }

  // ---- theorems ---------------------------------------------------------------------------------

  lemma TripleReads(b: Octet, rest: string)
    ensures ReadTriple(Triple(b) + rest) == Some(b)
  {
    assert HexValue(HexDigit(b / 16)) == Some(b / 16) && HexValue(HexDigit(b % 16)) == Some(b % 16);
    assert b == b / 16 * 16 + b % 16;
  }

  lemma {:induction false} TriplesRead(b: seq<Octet>, rest: string)
    ensures |Triples(b)| == 3 * |b| && ReadTriples(Triples(b) + rest, |b|) == Some(b)
  {
    if b != [] {
      TriplesRead(b[1..], rest);
      var t := Triples(b) + rest;
      assert t == Triple(b[0]) + (Triples(b[1..]) + rest);
      TripleReads(b[0], Triples(b[1..]) + rest);
      assert t[3..] == Triples(b[1..]) + rest;
      assert b == [b[0]] + b[1..];
    }
  }

  lemma TakesWhatWasEncoded(c: char, rest: string)
    ensures EncodeChar(c) != [] && TakeChar(EncodeChar(c) + rest) == Some((c, |EncodeChar(c)|))
  {
    hide Utf8, DecodeUtf8, SequenceLength, Triple, HexValue;
    if !Unreserved(c) {
      var b := Utf8(c);
      Utf8RoundTrip(c);
      TriplesRead(b, rest);
      var t := EncodeChar(c) + rest;
      assert t == Triple(b[0]) + (Triples(b[1..]) + rest);
      TripleReads(b[0], Triples(b[1..]) + rest);
    }
  }

  lemma {:induction false} LenientUndoesEncode(s: string)
    ensures Lenient(Encode(s)) == Some(s)
  {
    hide TakeChar, EncodeChar;
    if s != [] {
      TakesWhatWasEncoded(s[0], Encode(s[1..]));
      LenientUndoesEncode(s[1..]);
      assert Encode(s)[|EncodeChar(s[0])|..] == Encode(s[1..]);
      assert s == [s[0]] + s[1..];
    }
  }

  /** Decoding accepts exactly the encodings, and undoes them. */
  lemma DecodesExactlyEncodings(t: string, s: string)
    ensures Decode(t) == Some(s) <==> t == Encode(s)
  {
    LenientUndoesEncode(s);
  }

  lemma EncodeInjective(a: string, b: string)
    requires Encode(a) == Encode(b)
    ensures a == b
  {
    LenientUndoesEncode(a);
    LenientUndoesEncode(b);
  }

  /** Section 2.3 of RFC 3986, letter by letter. */
  const MARKS: set<char> := {'-', '.', '_', '~'}
  const UNRESERVED: set<char> := UPPER + LOWER + DIGITS + MARKS

  /** Exactly the unreserved characters stand for themselves; every other one takes three characters an octet. */
  lemma UnreservedStandForThemselves(c: char)
    ensures Encode([c]) == [c] <==> c in UNRESERVED
    ensures c !in UNRESERVED ==> |Encode([c])| == 3 * |Utf8(c)|
  {
    assert [c][1..] == [];
    InUnreserved(c);
    TriplesRead(Utf8(c), []);
    assert !Unreserved(c) ==> EncodeChar(c)[0] == '%';
  }

  lemma InUnreserved(c: char)
    ensures Unreserved(c) <==> c in UNRESERVED
  {
    hide UPPER, LOWER;
    InUpper(c);
    InLower(c);
  }

  predicate UpperHex(c: char) { '0' <= c <= '9' || 'A' <= c <= 'F' }

  /** Unreserved characters and upper-case percent triples, and nothing else. */
  predicate TokenText(t: string) {
    || t == []
    || (Unreserved(t[0]) && TokenText(t[1..]))
    || (|t| >= 3 && t[0] == '%' && UpperHex(t[1]) && UpperHex(t[2]) && TokenText(t[3..]))
  }

  lemma {:induction false} TriplesAreTokenText(b: seq<Octet>, rest: string)
    requires TokenText(rest)
    ensures TokenText(Triples(b) + rest)
  {
    if b == [] {
      assert Triples(b) + rest == rest;
    } else {
      TriplesAreTokenText(b[1..], rest);
      var t := Triples(b) + rest;
      assert t == Triple(b[0]) + (Triples(b[1..]) + rest);
      assert t[3..] == Triples(b[1..]) + rest;
    }
  }

  lemma {:induction false} EncodeIsTokenText(s: string)
    ensures TokenText(Encode(s))
  {
    if s != [] {
      EncodeIsTokenText(s[1..]);
      if Unreserved(s[0]) {
        assert Encode(s)[1..] == Encode(s[1..]);
      } else {
        TriplesAreTokenText(Utf8(s[0]), Encode(s[1..]));
      }
    }
  }

  /** What decodes is token text, so it is free of white space, colons and Markdown markers. */
  lemma DecodedTokensAreTokenText(t: string)
    requires Decode(t).Some?
    ensures TokenText(t)
  {
    EncodeIsTokenText(Decode(t).value);
  }
}
