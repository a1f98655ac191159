/**
 * The text encodings of a pairing link: unpadded base64url (section 5 of RFC 4648), percent-encoding
 * (section 2.1 of RFC 3986) as query strings use it, and decimal integers.
 */
module Text {
  import opened Bytes

  function Byte(c: char): (b: byte)
    requires c < 128 as char
  {
    c as int
  }

  // ---------------------------------------------------------------- base64url

  function Char64(v: int): (c: byte)
    requires 0 <= v < 64
    ensures Value64(c) == v
  {
    if v < 26 then Byte('A') + v
    else if v < 52 then Byte('a') + v - 26
    else if v < 62 then Byte('0') + v - 52
    else if v == 62 then Byte('-')
    else Byte('_')
  }

  /** Some exactly on the alphabet; 64 stands for the other bytes. */
  function Value64(c: byte): (v: int)
    ensures 0 <= v <= 64
  {
    if Byte('A') <= c <= Byte('Z') then c - Byte('A')
    else if Byte('a') <= c <= Byte('z') then c - Byte('a') + 26
    else if Byte('0') <= c <= Byte('9') then c - Byte('0') + 52
    else if c == Byte('-') then 62
    else if c == Byte('_') then 63
    else 64
  }

  function Encode64(b: seq<byte>): seq<byte> {
    if b == [] then []
    else if |b| == 1 then [Char64(b[0] / 4), Char64(b[0] % 4 * 16)]
    else if |b| == 2 then [Char64(b[0] / 4), Char64(b[0] % 4 * 16 + b[1] / 16), Char64(b[1] % 16 * 4)]
    else Encode3(b[0], b[1], b[2]) + Encode64(b[3..])
  }

  function Encode3(x: byte, y: byte, z: byte): (s: seq<byte>)
    ensures |s| == 4
  {
    [Char64(x / 4), Char64(x % 4 * 16 + y / 16), Char64(y % 16 * 4 + z / 64), Char64(z % 64)]
  }

  const UPPER := Ascii("ABCDEFGHIJKLMNOPQRSTUVWXYZ")
  const LOWER := Ascii("abcdefghijklmnopqrstuvwxyz")
  const DIGITS := Ascii("0123456789")

  /** The alphabet in its order. */
  lemma Char64IsListed(v: int)
    requires 0 <= v < 64
    ensures |UPPER + LOWER + DIGITS| == 62
    ensures Char64(v) == (UPPER + LOWER + DIGITS + Ascii("-_"))[v]
  {
    hide UPPER, LOWER, DIGITS;
    InOrder();
    var marks := Ascii("-_");
    assert marks[0] == 45 && marks[1] == 95;
  }

  /** Three bytes, or the one or two that are left, are the digits of one number in base 64. */
  lemma GroupIsNumber(x: byte, y: byte, z: byte)
    ensures var s := Encode64([x, y, z]);
            && |s| == 4
            && Value64(s[0]) * 262144 + Value64(s[1]) * 4096 + Value64(s[2]) * 64 + Value64(s[3])
               == x as int * 65536 + y as int * 256 + z as int
    ensures var s := Encode64([x, y]);
            |s| == 3 && Value64(s[0]) * 4096 + Value64(s[1]) * 64 + Value64(s[2]) == (x as int * 256 + y as int) * 4
    ensures var s := Encode64([x]); |s| == 2 && Value64(s[0]) * 64 + Value64(s[1]) == x as int * 16
  {
    hide Value64, Char64;
    assert [x, y, z][3..] == [] && Encode64([x, y, z]) == Encode3(x, y, z) + Encode64([]);
    var x1, x0: int, y1, y0: int, z1, z0: int := x / 4, x % 4, y / 16, y % 16, z / 64, z % 64;
    assert x == 4 * x1 + x0 && y == 16 * y1 + y0 && z == 64 * z1 + z0;
  }

  /** The decoder skips line breaks and does not look at left-over bits. */
  function Decode64(s: seq<byte>): Option<seq<byte>> {
    DecodeGroups(Unbroken(s))
  }

  function Unbroken(s: seq<byte>): seq<byte> {
    if s == [] then []
    else if s[0] == Byte('\r') || s[0] == Byte('\n') then Unbroken(s[1..])
    else [s[0]] + Unbroken(s[1..])
  }

  /** Line breaks inside the text count for nothing. */
  lemma {:induction false} LineBreaksAreSkipped(a: seq<byte>, b: seq<byte>, c: byte)
    requires c == 10 || c == 13
    ensures Decode64(a + [c] + b) == Decode64(a + b)
  {
    BreakSkipped(a, b, c);
  }

  lemma {:induction false} BreakSkipped(a: seq<byte>, b: seq<byte>, c: byte)
    requires c == 10 || c == 13
    ensures Unbroken(a + [c] + b) == Unbroken(a + b)
  {
    if a == [] {
      assert [] + b == b && ([] + [c] + b)[1..] == b;
    } else {
      assert (a + [c] + b)[1..] == a[1..] + [c] + b && (a + b)[1..] == a[1..] + b;
      BreakSkipped(a[1..], b, c);
    }
  }

  function DecodeGroups(s: seq<byte>): Option<seq<byte>> {
    if s == [] then Some([])
    else if |s| == 1 then None
    else if Value64(s[0]) == 64 || Value64(s[1]) == 64 then None
    else if |s| == 2 then Some([First(s[0], s[1])])
    else if Value64(s[2]) == 64 then None
    else if |s| == 3 then Some([First(s[0], s[1]), Second(s[1], s[2])])
    else if Value64(s[3]) == 64 then None
    else
      match DecodeGroups(s[4..])
      case None => None
      case Some(rest) => Some([First(s[0], s[1]), Second(s[1], s[2]), Third(s[2], s[3])] + rest)
  }

  function First(a: byte, b: byte): byte
    requires Value64(a) < 64 && Value64(b) < 64
  {
    Value64(a) * 4 + Value64(b) / 16
  }

  function Second(b: byte, c: byte): byte
    requires Value64(b) < 64 && Value64(c) < 64
  {
    Value64(b) % 16 * 16 + Value64(c) / 4
  }

  function Third(c: byte, d: byte): byte
    requires Value64(c) < 64 && Value64(d) < 64
  {
    Value64(c) % 4 * 64 + Value64(d)
  }

  ghost predicate Alphabet(s: seq<byte>) {
    forall i :: 0 <= i < |s| ==> Value64(s[i]) < 64
  }

  lemma {:induction false} AlphabetUnbroken(s: seq<byte>)
    requires Alphabet(s)
    ensures Unbroken(s) == s
  {
    if s == [] {
    } else {
      assert Value64(s[0]) < 64;
      AlphabetUnbroken(s[1..]);
      assert s == [s[0]] + s[1..];
    }
  }

  lemma FirstBack(x: byte, low: int)
    requires 0 <= low < 16
    ensures First(Char64(x / 4), Char64(x % 4 * 16 + low)) == x
  {
    hide Value64, Char64;
    var h, l := x / 4, x % 4;
    assert 0 <= h < 64 && 0 <= l < 4 && x == 4 * h + l;
    assert (l * 16 + low) / 16 == l;
  }

  lemma SecondBack(high: int, y: byte, low: int)
    requires 0 <= low < 4 && 0 <= high < 4
    ensures Second(Char64(high * 16 + y / 16), Char64(y % 16 * 4 + low)) == y
  {
    hide Value64, Char64;
    var h, l := y / 16, y % 16;
    assert 0 <= h < 16 && 0 <= l < 16 && y == 16 * h + l;
    assert (high * 16 + h) % 16 == h && (l * 4 + low) / 4 == l;
  }

  lemma ThirdBack(high: int, z: byte)
    requires 0 <= high < 16
    ensures Third(Char64(high * 4 + z / 64), Char64(z % 64)) == z
  {
    hide Value64, Char64;
    var h, l := z / 64, z % 64;
    assert 0 <= h < 4 && 0 <= l < 64 && z == 64 * h + l;
    assert (high * 4 + h) % 4 == h;
  }

  /** Four characters of three bytes give the three bytes back. */
  lemma GroupRoundTrip(x: byte, y: byte, z: byte)
    ensures var s := Encode3(x, y, z);
            Alphabet(s) && First(s[0], s[1]) == x && Second(s[1], s[2]) == y && Third(s[2], s[3]) == z
  {
    FirstBack(x, y / 16);
    SecondBack(x % 4, y, z / 64);
    ThirdBack(y % 16, z);
  }

  lemma OneRoundTrip(x: byte)
    ensures Alphabet(Encode64([x])) && DecodeGroups(Encode64([x])) == Some([x])
  {
    FirstBack(x, 0);
  }

  lemma TwoRoundTrip(x: byte, y: byte)
    ensures Alphabet(Encode64([x, y])) && DecodeGroups(Encode64([x, y])) == Some([x, y])
  {
    FirstBack(x, y / 16);
    SecondBack(x % 4, y, 0);
  }

  lemma {:induction false} GroupsRoundTrip(b: seq<byte>)
    ensures Alphabet(Encode64(b)) && DecodeGroups(Encode64(b)) == Some(b)
  {
    if b == [] {
    } else if |b| == 1 {
      assert b == [b[0]];
      OneRoundTrip(b[0]);
    } else if |b| == 2 {
      assert b == [b[0], b[1]];
      TwoRoundTrip(b[0], b[1]);
    } else {
      GroupsRoundTrip(b[3..]);
      GroupThenRest(b[0], b[1], b[2], Encode64(b[3..]));
      assert b == [b[0], b[1], b[2]] + b[3..];
    }
  }

  lemma GroupThenRest(x: byte, y: byte, z: byte, rest: seq<byte>)
    requires Alphabet(rest) && DecodeGroups(rest).Some?
    ensures var s := Encode3(x, y, z) + rest;
            Alphabet(s) && DecodeGroups(s) == Some([x, y, z] + DecodeGroups(rest).value)
  {
    var head := Encode3(x, y, z);
    GroupRoundTrip(x, y, z);
    var s := head + rest;
    assert s[0] == head[0] && s[1] == head[1] && s[2] == head[2] && s[3] == head[3] && s[4..] == rest;
  }

  /** Decoding undoes encoding. */
  lemma Base64RoundTrip(b: seq<byte>)
    ensures Decode64(Encode64(b)) == Some(b)
  {
    GroupsRoundTrip(b);
    AlphabetUnbroken(Encode64(b));
  }

  // ---------------------------------------------------------------- percent-encoding

  predicate Unreserved(b: byte) {
    || Byte('A') <= b <= Byte('Z') || Byte('a') <= b <= Byte('z') || Byte('0') <= b <= Byte('9')
    || b == Byte('-') || b == Byte('_') || b == Byte('.') || b == Byte('~')
  }

  function UpperHex(v: int): (c: byte)
    requires 0 <= v < 16
  {
    if v < 10 then Byte('0') + v else Byte('A') + v - 10
  }

  /** 16 stands for a byte that is no hexadecimal digit. */
  function Unhex(c: byte): (v: int)
    ensures 0 <= v <= 16
  {
    if Byte('0') <= c <= Byte('9') then c - Byte('0')
    else if Byte('a') <= c <= Byte('f') then c - Byte('a') + 10
    else if Byte('A') <= c <= Byte('F') then c - Byte('A') + 10
    else 16
  }

  function EscapeByte(b: byte): seq<byte> {
    if Unreserved(b) then [b]
    else if b == Byte(' ') then [Byte('+')]
    else [Byte('%'), UpperHex(b / 16), UpperHex(b % 16)]
  }

  /** Hexadecimal digits are read in either case. */
  lemma UnhexReads(c: byte)
    ensures Unhex(c) < 16 <==> c in HEX || c in Ascii("abcdef")
    ensures Unhex(c) < 16 ==> c == HEX[Unhex(c)] || (Unhex(c) >= 10 && c == Ascii("abcdef")[Unhex(c) - 10])
  {
    hide UPPER, LOWER, DIGITS;
    InOrder();
    var small, big := Ascii("abcdef"), Ascii("ABCDEF");
    assert forall i :: 0 <= i < 6 ==> small[i] == 97 + i && big[i] == 65 + i;
    Listed(c);
    if 65 <= c <= 70 { assert HEX[c - 55] == big[c - 65] == c; }
    if 97 <= c <= 102 { assert small[c - 97] == c; }
    assert forall i :: 0 <= i < 16 ==> HEX[i] == if i < 10 then DIGITS[i] else big[i - 10];
  }

  /** Letters, digits and - _ . ~ stand for themselves, a space becomes a plus sign, and any other byte its two
      hexadecimal digits after a percent sign. */
  lemma EscapedAs(b: byte)
    ensures EscapeByte(b)
         == if b in UPPER + LOWER + DIGITS + Ascii("-_.~") then [b]
            else if b == 32 then Ascii("+")
            else Ascii("%") + [HEX[b / 16], HEX[b % 16]]
  {
    UnreservedIs(b);
    if !Unreserved(b) && b != 32 { HexDigits(b / 16, b % 16); }
  }

  lemma UnreservedIs(b: byte)
    ensures Unreserved(b) <==> b in UPPER + LOWER + DIGITS + Ascii("-_.~")
  {
    hide UPPER, LOWER, DIGITS;
    Listed(b);
    var marks := Ascii("-_.~");
    assert marks[0] == 45 && marks[1] == 95 && marks[2] == 46 && marks[3] == 126;
  }

  lemma HexDigits(v: int, w: int)
    requires 0 <= v < 16 && 0 <= w < 16
    ensures UpperHex(v) == HEX[v] && UpperHex(w) == HEX[w]
  {
  }

  const HEX := DIGITS + Ascii("ABCDEF")

  lemma Listed(b: byte)
    ensures 65 <= b <= 90 <==> b in UPPER
    ensures 97 <= b <= 122 <==> b in LOWER
    ensures 48 <= b <= 57 <==> b in DIGITS
  {
    hide UPPER, LOWER, DIGITS;
    InOrder();
    if 65 <= b <= 90 { assert UPPER[b - 65] == b; }
    if 97 <= b <= 122 { assert LOWER[b - 97] == b; }
    if 48 <= b <= 57 { assert DIGITS[b - 48] == b; }
  }

  lemma InOrder()
    ensures |UPPER| == 26 && forall i :: 0 <= i < 26 ==> UPPER[i] == 65 + i
    ensures |LOWER| == 26 && forall i :: 0 <= i < 26 ==> LOWER[i] == 97 + i
    ensures |DIGITS| == 10 && forall i :: 0 <= i < 10 ==> DIGITS[i] == 48 + i
  {
  }

  function Escape(s: seq<byte>): seq<byte> {
    if s == [] then [] else EscapeByte(s[0]) + Escape(s[1..])
  }

  function Unescape(s: seq<byte>): Option<seq<byte>> {
    if s == [] then Some([])
    else if s[0] == Byte('%') then
      if |s| < 3 || Unhex(s[1]) == 16 || Unhex(s[2]) == 16 then None
      else Prepend(Unhex(s[1]) * 16 + Unhex(s[2]), Unescape(s[3..]))
    else Prepend(if s[0] == Byte('+') then Byte(' ') else s[0], Unescape(s[1..]))
  }

  function Prepend(b: byte, rest: Option<seq<byte>>): Option<seq<byte>> {
    match rest
    case None => None
    case Some(s) => Some([b] + s)
  }

  lemma EscapedByte(b: byte, rest: seq<byte>)
    ensures Unescape(EscapeByte(b) + rest) == Prepend(b, Unescape(rest))
  {
    var s := EscapeByte(b) + rest;
    if Unreserved(b) || b == Byte(' ') {
      assert s[1..] == rest;
    } else {
      assert s[3..] == rest;
    }
  }

  /** Any bytes survive a query string. */
  lemma {:induction false} EscapeRoundTrip(s: seq<byte>)
    ensures Unescape(Escape(s)) == Some(s)
  {
    if s == [] {
    } else {
      EscapedByte(s[0], Escape(s[1..]));
      EscapeRoundTrip(s[1..]);
      assert s == [s[0]] + s[1..];
    }
  }

  predicate EscapedChar(b: byte) {
    Unreserved(b) || b == Byte('+') || b == Byte('%')
  }

  /** Escaped text has none of the bytes that mean something in a query or a URL. */
  lemma {:induction false} EscapedIsPlain(s: seq<byte>)
    ensures forall i :: 0 <= i < |Escape(s)| ==> EscapedChar(Escape(s)[i])
  {
    if s == [] {
    } else {
      EscapedIsPlain(s[1..]);
    }
  }

  // ---------------------------------------------------------------- decimal

  const MAX_INT64: int := 0x7FFF_FFFF_FFFF_FFFF

  predicate Int64(n: int) {
    -MAX_INT64 - 1 <= n <= MAX_INT64
  }

  function Decimal(n: nat): (s: seq<byte>)
    ensures |s| > 0
  {
    if n < 10 then [Byte('0') + n] else Decimal(n / 10) + [Byte('0') + n % 10]
  }

  function FormatInt(n: int): seq<byte> {
    if n < 0 then [Byte('-')] + Decimal(-n) else Decimal(n)
  }

  function Digits(s: seq<byte>): Option<nat> {
    if s == [] then Some(0)
    else
      var d := s[|s| - 1];
      match Digits(s[..|s| - 1])
      case None => None
      case Some(high) => if Byte('0') <= d <= Byte('9') then Some(high * 10 + d - Byte('0')) else None
  }

  /** An optional sign, at least one digit, nothing else, and the value fits 64 bits. */
  function ParseInt(s: seq<byte>): (r: Option<int>)
    ensures r.Some? ==> Int64(r.value)
  {
    var signed := s != [] && (s[0] == Byte('-') || s[0] == Byte('+'));
    var digits := if signed then s[1..] else s;
    if digits == [] then None
    else
      match Digits(digits)
      case None => None
      case Some(n) =>
        var size: int := n;
        var value := if signed && s[0] == Byte('-') then -size else size;
        if Int64(value) then Some(value) else None
  }

  lemma {:induction false} DecimalRoundTrip(n: nat)
    ensures Digits(Decimal(n)) == Some(n)
    ensures Byte('0') <= Decimal(n)[0] <= Byte('9')
  {
    if n < 10 {
      assert Decimal(n)[..0] == [];
    } else {
      DecimalRoundTrip(n / 10);
      var s := Decimal(n);
      assert s[..|s| - 1] == Decimal(n / 10) && s[|s| - 1] == Byte('0') + n % 10;
    }
  }

  function Pow10(i: nat): (p: nat)
    ensures p > 0
  {
    if i == 0 then 1 else 10 * Pow10(i - 1)
  }

  lemma DivideTwice(n: nat, p: nat)
    requires p > 0
    ensures n / 10 / p == n / (10 * p)
  {
    var q, r := n / (10 * p), n % (10 * p);
    assert n == 10 * (p * q) + r;
    assert n / 10 == p * q + r / 10 && 0 <= r / 10 < p;
    QuotientIs(n / 10, p, q, r / 10);
  }

  lemma QuotientIs(n: nat, p: nat, q: nat, r: nat)
    requires n == p * q + r && r < p
    ensures n / p == q
  {
    var d: int := n / p - q;
    assert p * d == r - n % p;
    MultipleIsFar(p, d);
  }

  lemma MultipleIsFar(p: int, d: int)
    requires p > 0
    ensures d >= 1 ==> p * d >= p
    ensures d <= -1 ==> p * d <= -p
  {
  }

  /** The decimal digits, from the last. */
  lemma {:induction false} DecimalDigit(n: nat, i: nat)
    ensures var s := Decimal(n);
            && (i < |s| ==> s[|s| - 1 - i] == DIGITS[n / Pow10(i) % 10])
            && (|s| > 1 ==> s[0] != DIGITS[0])
  {
    hide DIGITS, UPPER, LOWER;
    InOrder();
    var q := n / 10;
    if n < 10 {
      assert Pow10(0) == 1;
    } else if i == 0 {
      assert Pow10(0) == 1;
      DecimalDigit(q, 0);
    } else {
      DecimalDigit(q, i - 1);
      DivideTwice(n, Pow10(i - 1));
      assert Decimal(n)[..|Decimal(q)|] == Decimal(q);
    }
  }

  /** What parses: an optional sign, at least one digit and nothing else, with a value of 64 bits. */
  lemma ParsesExactly(s: seq<byte>)
    ensures var digits := if s != [] && (s[0] == Byte('-') || s[0] == Byte('+')) then s[1..] else s;
            var n := Digits(digits);
            && (n.Some? <==> forall i :: 0 <= i < |digits| ==> digits[i] in DIGITS)
            && ParseInt(s)
               == if digits == [] || n.None? then None
                  else if s[0] == Byte('-') && n.value <= 9223372036854775808 then Some(-(n.value as int))
                  else if s[0] != Byte('-') && n.value <= 9223372036854775807 then Some(n.value)
                  else None
  {
    hide Digits, DIGITS;
    var digits := if s != [] && (s[0] == Byte('-') || s[0] == Byte('+')) then s[1..] else s;
    DigitsOnly(digits);
  }

  lemma {:induction false} DigitsOnly(s: seq<byte>)
    ensures Digits(s).Some? <==> forall i :: 0 <= i < |s| ==> s[i] in DIGITS
  {
    hide UPPER, LOWER, DIGITS;
    if s != [] {
      var n := |s| - 1;
      DigitsOnly(s[..n]);
      Listed(s[n]);
      assert forall i :: 0 <= i < n ==> s[..n][i] == s[i];
    }
  }

  /** Leading zeros change nothing. */
  lemma {:induction false} LeadingZero(s: seq<byte>)
    ensures Digits([Byte('0')] + s) == Digits(s)
  {
    var all := [Byte('0')] + s;
    if s == [] {
      assert all[..0] == [];
    } else {
      var n := |s| - 1;
      assert all[..n + 1] == [Byte('0')] + s[..n];
      LeadingZero(s[..n]);
    }
  }

  /** Printing and parsing an integer gives it back exactly when it fits 64 bits. */
  lemma IntRoundTrip(n: int)
    ensures ParseInt(FormatInt(n))
         == if -9223372036854775808 <= n <= 9223372036854775807 then Some(n) else None
    ensures FormatInt(n) != [] && (FormatInt(n)[0] == Byte('-') <==> n < 0)
  {
    hide Decimal, Digits;
    if n < 0 {
      DecimalRoundTrip(-n);
      assert FormatInt(n)[1..] == Decimal(-n);
    } else {
      DecimalRoundTrip(n);
    }
  }
}
