/**
 * The JSON text of the two-field embedded config: the printer's string escapes and a parser that accepts any member
 * order, whitespace and escapes of section 7 of RFC 8259. Strings are UTF-8 bytes, as in Rust.
 */
module Json {
  import opened Bytes
  import opened Text

  const QUOTE: byte := 0x22
  const BACKSLASH: byte := 0x5C
  const COLON: byte := 0x3A
  const COMMA: byte := 0x2C
  const OPEN: byte := 0x7B
  const CLOSE: byte := 0x7D
  const NULL: seq<byte> := [0x6E, 0x75, 0x6C, 0x6C]

  // ----- UTF-8 -----

  predicate Cont(b: byte) { 0x80 <= b <= 0xBF }

  /** The length of the well-formed sequence that starts `s` (table 3-7 of the Unicode Standard), or 0. */
  function SequenceLength(s: seq<byte>): nat
    requires s != []
    ensures SequenceLength(s) <= |s|
  {
    var a := s[0];
    if a < 0x80 then 1
    else if |s| >= 2 && 0xC2 <= a <= 0xDF && Cont(s[1]) then 2
    else if |s| >= 3 && Cont(s[1]) && Cont(s[2]) && 0xE0 <= a <= 0xEF && (a == 0xE0 ==> s[1] >= 0xA0) && (a == 0xED ==> s[1] < 0xA0) then 3
    else if && |s| >= 4 && Cont(s[1]) && Cont(s[2]) && Cont(s[3]) && 0xF0 <= a <= 0xF4
            && (a == 0xF0 ==> s[1] >= 0x90) && (a == 0xF4 ==> s[1] < 0x90) then 4
    else 0
  }

  predicate ValidUtf8(s: seq<byte>) {
    s == [] || (SequenceLength(s) > 0 && ValidUtf8(s[SequenceLength(s)..]))
  }

  function EncodeUtf8(n: nat): seq<byte>
    requires n < 0x110000
  {
    if n < 0x80 then [n as byte]
    else if n < 0x800 then [(0xC0 + n / 64) as byte, (0x80 + n % 64) as byte]
    else if n < 0x10000 then [(0xE0 + n / 64 / 64) as byte, (0x80 + n / 64 % 64) as byte, (0x80 + n % 64) as byte]
    else [(0xF0 + n / 64 / 64 / 64) as byte, (0x80 + n / 64 / 64 % 64) as byte, (0x80 + n / 64 % 64) as byte, (0x80 + n % 64) as byte]
  }

  // ----- Printing -----

  function HexDigit(n: nat): byte
    requires n < 16
  {
    if n < 10 then (0x30 + n) as byte else (0x61 + n - 10) as byte
  }

  /** One byte of a string as the printer writes it; multi-byte characters pass unchanged. */
  function Escape(b: byte): seq<byte> {
    if b == QUOTE || b == BACKSLASH then [BACKSLASH, b]
    else if b == 0x08 then [BACKSLASH, 0x62]
    else if b == 0x09 then [BACKSLASH, 0x74]
    else if b == 0x0A then [BACKSLASH, 0x6E]
    else if b == 0x0C then [BACKSLASH, 0x66]
    else if b == 0x0D then [BACKSLASH, 0x72]
    else if b < 0x20 then [BACKSLASH, 0x75, 0x30, 0x30, HexDigit(b as nat / 16), HexDigit(b as nat % 16)]
    else [b]
  }

  function EscapeAll(s: seq<byte>): seq<byte> {
    if s == [] then [] else Escape(s[0]) + EscapeAll(s[1..])
  }

  function PrintString(s: seq<byte>): seq<byte> { [QUOTE] + EscapeAll(s) + [QUOTE] }

  function PrintValue(v: Option<seq<byte>>): seq<byte> {
    match v
    case None => NULL
    case Some(s) => PrintString(s)
  }

  // ----- Parsing -----

  function HexValue(b: byte): Option<nat> {
    if 0x30 <= b <= 0x39 then Some((b - 0x30) as nat)
    else if 0x61 <= b <= 0x66 then Some((b - 0x61) as nat + 10)
    else if 0x41 <= b <= 0x46 then Some((b - 0x41) as nat + 10)
    else None
  }

  function Hex4(s: seq<byte>): (r: Option<nat>)
    ensures r.Some? ==> |s| >= 4 && r.value < 0x10000
  {
    if |s| < 4 then None
    else
      match (HexValue(s[0]), HexValue(s[1]), HexValue(s[2]), HexValue(s[3]))
      case (Some(a), Some(b), Some(c), Some(d)) =>
        if a < 16 && b < 16 && c < 16 && d < 16 then Some(a * 4096 + b * 256 + c * 16 + d) else None
      case _ => None
  }

  /** What the part of an escape after its backslash stands for, and how many bytes it takes; a lone surrogate is an error. */
  function Unescape(s: seq<byte>): (r: Option<(seq<byte>, nat)>)
    ensures r.Some? ==> 0 < r.value.1 <= |s|
  {
    if s == [] then None
    else
      var b := s[0];
      if b == QUOTE || b == BACKSLASH || b == 0x2F then Some(([b], 1))
      else if b == 0x62 then Some(([0x08], 1))
      else if b == 0x66 then Some(([0x0C], 1))
      else if b == 0x6E then Some(([0x0A], 1))
      else if b == 0x72 then Some(([0x0D], 1))
      else if b == 0x74 then Some(([0x09], 1))
      else if b == 0x75 then UnescapeUnicode(s)
      else None
  }

  function UnescapeUnicode(s: seq<byte>): (r: Option<(seq<byte>, nat)>)
    requires s != []
    ensures r.Some? ==> 0 < r.value.1 <= |s|
  {
    match Hex4(s[1..])
    case None => None
    case Some(n) =>
      if 0xDC00 <= n < 0xE000 then None
      else if n < 0xD800 || 0xE000 <= n then Some((EncodeUtf8(n), 5))
      else if |s| < 7 || s[5] != BACKSLASH || s[6] != 0x75 then None
      else
        match Hex4(s[7..])
        case None => None
        case Some(m) =>
          if 0xDC00 <= m < 0xE000 then Some((EncodeUtf8(0x10000 + (n - 0xD800) * 1024 + (m - 0xDC00)), 11)) else None
  }

  /** The bytes of a string up to its closing quote, and what follows. */
  function ParseBody(s: seq<byte>): (r: Option<(seq<byte>, seq<byte>)>)
    ensures r.Some? ==> |r.value.1| < |s|
    decreases |s|
  {
    if s == [] || s[0] < 0x20 then None
    else if s[0] == QUOTE then Some(([], s[1..]))
    else
      var (first, n) := if s[0] != BACKSLASH then ([s[0]], 1)
                        else (match Unescape(s[1..]) case None => ([], 0) case Some((bytes, k)) => (bytes, 1 + k));
      if n == 0 then None
      else
        match ParseBody(s[n..])
        case None => None
        case Some((more, rest)) => Some((first + more, rest))
  }

  function ParseString(s: seq<byte>): (r: Option<(seq<byte>, seq<byte>)>)
    ensures r.Some? ==> |r.value.1| < |s|
  {
    if s == [] || s[0] != QUOTE then None
    else
      match ParseBody(s[1..])
      case None => None
      case Some((bytes, rest)) => if ValidUtf8(bytes) then Some((bytes, rest)) else None
  }

  /** null or a string. */
  function ParseValue(s: seq<byte>): (r: Option<(Option<seq<byte>>, seq<byte>)>)
    ensures r.Some? ==> |r.value.1| < |s|
  {
    if NULL <= s then Some((None, s[4..]))
    else
      match ParseString(s)
      case None => None
      case Some((bytes, rest)) => Some((Some(bytes), rest))
  }

  function SkipSpace(s: seq<byte>): (r: seq<byte>)
    ensures |r| <= |s|
  {
    if s != [] && (s[0] == 0x20 || s[0] == 0x09 || s[0] == 0x0A || s[0] == 0x0D) then SkipSpace(s[1..]) else s
  }

  // ----- Round trip of strings and values -----

  lemma UnescapeControl(b: byte, tail: seq<byte>)
    requires b < 0x20
    ensures Unescape([0x75, 0x30, 0x30, HexDigit(b as nat / 16), HexDigit(b as nat % 16)] + tail) == Some(([b], 5))
  {
    var s := [0x75, 0x30, 0x30, HexDigit(b as nat / 16), HexDigit(b as nat % 16)] + tail;
    assert s[1..][0] == 0x30 && s[1..][1] == 0x30;
    assert s[1..][2] == HexDigit(b as nat / 16) && s[1..][3] == HexDigit(b as nat % 16);
    assert Hex4(s[1..]) == Some(b as nat);
  }

  /** The parser reads one printed byte back. */
  lemma ReadsEscape(b: byte, tail: seq<byte>)
    ensures var e := Escape(b) + tail;
      && e != [] && e[0] >= 0x20 && e[0] != QUOTE
      && (if e[0] == BACKSLASH then Unescape(e[1..]) == Some(([b], |Escape(b)| - 1)) else e[0] == b && |Escape(b)| == 1)
      && e[|Escape(b)|..] == tail
  {
    var e := Escape(b) + tail;
    assert e[1..] == Escape(b)[1..] + tail;
    if b < 0x20 && |Escape(b)| == 6 { UnescapeControl(b, tail); }
  }

  lemma {:induction false} ReadsEscaped(s: seq<byte>, rest: seq<byte>)
    ensures ParseBody(EscapeAll(s) + [QUOTE] + rest) == Some((s, rest))
  {
    var t := EscapeAll(s) + [QUOTE] + rest;
    if s == [] {
      assert t == [QUOTE] + rest;
    } else {
      var tail := EscapeAll(s[1..]) + [QUOTE] + rest;
      hide Escape, Unescape;
      assert t == Escape(s[0]) + tail;
      ReadsEscape(s[0], tail);
      ReadsEscaped(s[1..], rest);
      assert [s[0]] + s[1..] == s;
    }
  }

  lemma ReadsString(s: seq<byte>, rest: seq<byte>)
    requires ValidUtf8(s)
    ensures ParseString(PrintString(s) + rest) == Some((s, rest))
  {
    hide EscapeAll, ValidUtf8, ParseBody;
    assert (PrintString(s) + rest)[1..] == EscapeAll(s) + [QUOTE] + rest;
    ReadsEscaped(s, rest);
  }

  lemma ReadsValue(v: Option<seq<byte>>, rest: seq<byte>)
    requires v.Some? ==> ValidUtf8(v.value)
    ensures ParseValue(PrintValue(v) + rest) == Some((v, rest))
  {
    var s := PrintValue(v) + rest;
    match v
    case None => assert s[4..] == rest;
    case Some(t) =>
      ReadsString(t, rest);
      assert s[0] == QUOTE;
  }

  // ----- Printed text holds no NUL -----

  predicate NoNul(s: seq<byte>) { forall i :: 0 <= i < |s| ==> s[i] != 0 }

  lemma {:induction false} EscapedHasNoNul(s: seq<byte>)
    ensures NoNul(EscapeAll(s))
  {
    if s != [] { EscapedHasNoNul(s[1..]); }
  }

  lemma ValueHasNoNul(v: Option<seq<byte>>)
    ensures NoNul(PrintValue(v))
  {
    if v.Some? { EscapedHasNoNul(v.value); }
  }

  lemma {:induction false} AsciiIsValid(s: seq<byte>)
    requires forall i :: 0 <= i < |s| ==> s[i] < 0x80
    ensures ValidUtf8(s)
  {
    if s != [] { AsciiIsValid(s[1..]); }
  }

  // ----- Unicode escapes -----

  /** The code point that a well-formed sequence stands for. */
  function CodePoint(s: seq<byte>): nat
    requires s != [] && SequenceLength(s) > 0
  {
    match SequenceLength(s)
    case 1 => s[0] as nat
    case 2 => (s[0] as nat - 0xC0) * 64 + (s[1] as nat - 0x80)
    case 3 => (s[0] as nat - 0xE0) * 4096 + (s[1] as nat - 0x80) * 64 + (s[2] as nat - 0x80)
    case _ => (s[0] as nat - 0xF0) * 262144 + (s[1] as nat - 0x80) * 4096 + (s[2] as nat - 0x80) * 64 + (s[3] as nat - 0x80)
  }

  /** `s` is one well-formed sequence, for code point `n`. */
  predicate Encodes(s: seq<byte>, n: nat) {
    s != [] && SequenceLength(s) == |s| && CodePoint(s) == n
  }

  /** Encoding a code point gives one well-formed sequence for it, exactly when it is not a surrogate. */
  lemma EncodedIsWellFormed(n: nat)
    requires n < 0x110000
    ensures Encodes(EncodeUtf8(n), n) <==> !(0xD800 <= n < 0xE000)
  {
    var low, m := n % 64, n / 64;
    var mid, k := m % 64, m / 64;
    assert n == 64 * m + low && m == 64 * k + mid;
    if 0x10000 <= n {
      assert 0x10 <= k < 0x110 && k == 64 * (k / 64) + k % 64;
    } else if 0x800 <= n {
      assert k < 16;
    }
  }

  function PrintHex4(n: nat): seq<byte>
    requires n < 0x10000
  {
    [HexDigit(n / 16 / 16 / 16), HexDigit(n / 16 / 16 % 16), HexDigit(n / 16 % 16), HexDigit(n % 16)]
  }

  lemma ReadsHex4(n: nat, rest: seq<byte>)
    requires n < 0x10000
    ensures Hex4(PrintHex4(n) + rest) == Some(n)
  {
    var s := PrintHex4(n) + rest;
    var a, b, c, d := n / 16 / 16 / 16, n / 16 / 16 % 16, n / 16 % 16, n % 16;
    assert n == ((a * 16 + b) * 16 + c) * 16 + d;
    HexDigitValue(a);
    HexDigitValue(b);
    HexDigitValue(c);
    HexDigitValue(d);
    assert s[0] == HexDigit(a) && s[1] == HexDigit(b) && s[2] == HexDigit(c) && s[3] == HexDigit(d);
    hide HexDigit, HexValue;
  }

  lemma HexDigitValue(n: nat)
    requires n < 16
    ensures HexValue(HexDigit(n)) == Some(n)
  {
  }

  /** Upper-case hexadecimal digits mean the same as lower-case ones. */
  lemma HexAnyCase(b: byte)
    requires 0x41 <= b <= 0x46
    ensures HexValue(b) == HexValue(b + 0x20) && HexValue(b).Some?
  {
  }

  /** The two-character escapes of section 7 of RFC 8259; every other letter but u is an error. */
  lemma ReadsShortEscape(b: byte, rest: seq<byte>)
    requires b != 0x75
    ensures var table: map<byte, byte> := map[0x22 := 0x22, 0x5C := 0x5C, 0x2F := 0x2F, 0x62 := 0x08, 0x66 := 0x0C, 0x6E := 0x0A, 0x72 := 0x0D, 0x74 := 0x09];
      Unescape([b] + rest) == if b in table then Some(([table[b]], 1)) else None
  {
  }

  /** `rest` goes on with an escape for the second half of a surrogate pair. */
  predicate LowHalfFollows(rest: seq<byte>) {
    [BACKSLASH, 0x75] <= rest && Hex4(rest[2..]).Some? && 0xDC00 <= Hex4(rest[2..]).value < 0xE000
  }

  /** A \u escape stands for its code point; half a surrogate pair is an error unless it is the first and the second follows. */
  lemma ReadsUnicodeEscape(n: nat, rest: seq<byte>)
    requires n < 0x10000
    ensures var r := Unescape([0x75] + PrintHex4(n) + rest);
      if 0xDC00 <= n < 0xE000 then r == None
      else if 0xD800 <= n < 0xDC00 then r == None <==> !LowHalfFollows(rest)
      else r.Some? && Encodes(r.value.0, n) && r.value.1 == 5
  {
    hide Hex4, HexDigit, EncodeUtf8, Encodes;
    var s := [0x75] + PrintHex4(n) + rest;
    ReadsHex4(n, rest);
    assert s[1..] == PrintHex4(n) + rest;
    if 0xD800 <= n < 0xDC00 {
      HalfPair(s, n, rest);
    } else {
      EncodedIsWellFormed(n);
    }
  }

  lemma HalfPair(s: seq<byte>, n: nat, rest: seq<byte>)
    requires 0xD800 <= n < 0xDC00 && s == [0x75] + PrintHex4(n) + rest && Hex4(s[1..]) == Some(n)
    ensures UnescapeUnicode(s) == None <==> !LowHalfFollows(rest)
  {
    hide Hex4, HexDigit, EncodeUtf8;
    assert |s| == 5 + |rest|;
    if |rest| >= 2 {
      assert s[5] == rest[0] && s[6] == rest[1] && s[7..] == rest[2..];
      assert [BACKSLASH, 0x75] <= rest <==> rest[0] == BACKSLASH && rest[1] == 0x75;
    }
  }

  /** A surrogate pair stands for the code point beyond U+FFFF that it encodes. */
  lemma ReadsSurrogatePair(n: nat, rest: seq<byte>)
    requires 0x10000 <= n < 0x110000
    ensures var high, low := 0xD800 + (n - 0x10000) / 1024, 0xDC00 + (n - 0x10000) % 1024;
      var r := Unescape([0x75] + PrintHex4(high) + [BACKSLASH, 0x75] + PrintHex4(low) + rest);
      r.Some? && Encodes(r.value.0, n) && r.value.1 == 11
  {
    hide Hex4, HexDigit, EncodeUtf8, Encodes;
    var high, low := 0xD800 + (n - 0x10000) / 1024, 0xDC00 + (n - 0x10000) % 1024;
    var s := [0x75] + PrintHex4(high) + [BACKSLASH, 0x75] + PrintHex4(low) + rest;
    ReadsHex4(high, [BACKSLASH, 0x75] + PrintHex4(low) + rest);
    assert s[1..] == PrintHex4(high) + ([BACKSLASH, 0x75] + PrintHex4(low) + rest);
    ReadsHex4(low, rest);
    assert s[7..] == PrintHex4(low) + rest;
    assert 0x10000 + (high - 0xD800) * 1024 + (low - 0xDC00) == n;
    EncodedIsWellFormed(n);
  }
}
