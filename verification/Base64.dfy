/** Base64 as the signature code uses it (RFC 4648): the standard alphabet with padding
    (section 4) for keys, the URL alphabet without padding (section 5) for signatures. Decoding
    skips line breaks and ignores unused trailing bits, as Go's decoder does. */
module Base64 {
  import opened Arithmetic
  import opened Octets
  import opened Options

  datatype Encoding = StdPadded | UrlRaw

  function Digit(e: Encoding, n: nat): Octet
    requires n < 64
  {
    if n < 26 then At('A' as int + n)
    else if n < 52 then At('a' as int + n - 26)
    else if n < 62 then At('0' as int + n - 52)
    else if n == 62 then (if e.StdPadded? then '+' else '-')
    else if e.StdPadded? then '/' else '_'
  }

  function Value(e: Encoding, c: Octet): Option<nat> {
    if 'A' <= c <= 'Z' then Some(c as int - 'A' as int)
    else if 'a' <= c <= 'z' then Some(c as int - 'a' as int + 26)
    else if '0' <= c <= '9' then Some(c as int - '0' as int + 52)
    else if c == (if e.StdPadded? then '+' else '-') then Some(62)
    else if c == (if e.StdPadded? then '/' else '_') then Some(63)
    else None
  }

  function Encode(e: Encoding, bytes: Octets): Octets
    decreases |bytes|
  {
    if bytes == [] then []
    else
      var a := bytes[0] as int;
      var b := if |bytes| > 1 then bytes[1] as int else 0;
      var c := if |bytes| > 2 then bytes[2] as int else 0;
      var d0, d1 := Digit(e, a / 4), Digit(e, a % 4 * 16 + b / 16);
      var d2, d3 := Digit(e, b % 16 * 4 + c / 64), Digit(e, c % 64);
      if |bytes| == 1 then [d0, d1] + Pad(e, 2)
      else if |bytes| == 2 then [d0, d1, d2] + Pad(e, 1)
      else [d0, d1, d2, d3] + Encode(e, bytes[3..])
  }

  function Pad(e: Encoding, n: nat): Octets {
    if e.StdPadded? then seq(n, _ => '=') else []
  }

  /** The bytes of one group of two to four digits. */
  function Group(e: Encoding, digits: Octets): Option<Octets>
    requires 2 <= |digits| <= 4
  {
    if exists i :: 0 <= i < |digits| && Value(e, digits[i]).None? then None
    else
      var d2 := if |digits| > 2 then Value(e, digits[2]).value else 0;
      var d3 := if |digits| > 3 then Value(e, digits[3]).value else 0;
      Some(Bytes(Value(e, digits[0]).value, Value(e, digits[1]).value, d2, d3)[..|digits| - 1])
  }

  function Bytes(d0: nat, d1: nat, d2: nat, d3: nat): (bytes: Octets)
    ensures |bytes| == 3
  {
    [At((d0 * 4 + d1 / 16) % 256), At((d1 % 16 * 16 + d2 / 4) % 256), At((d2 % 4 * 64 + d3) % 256)]
  }

  function Padding(group: Octets): nat
    requires |group| == 4
  {
    if group[3] != '=' then 0 else if group[2] != '=' then 1 else 2
  }

  function DecodeGroups(e: Encoding, s: Octets): Option<Octets>
    decreases |s|
  {
    if s == [] then Some([])
    else if |s| < 4 then
      if e.StdPadded? || |s| == 1 then None else Group(e, s)
    else
      var padding := if e.StdPadded? then Padding(s[..4]) else 0;
      match Group(e, s[..4 - padding])
      case None => None
      case Some(bytes) =>
        if padding > 0 then (if |s| == 4 then Some(bytes) else None)
        else
          match DecodeGroups(e, s[4..])
          case None => None
          case Some(rest) => Some(bytes + rest)
  }

  function Kept(c: Octet): Octets {
    if c == '\r' || c == '\n' then [] else [c]
  }

  function SkipLineBreaks(s: Octets): Octets {
    if s == [] then [] else Kept(s[0]) + SkipLineBreaks(s[1..])
  }

  function Decode(e: Encoding, s: Octets): Option<Octets> {
    DecodeGroups(e, SkipLineBreaks(s))
  }

  lemma ValueOfDigit(e: Encoding, n: nat)
    requires n < 64
    ensures Value(e, Digit(e, n)) == Some(n) && Digit(e, n) != '='
  {
  }

  lemma SplitAt16(x: nat, low: nat)
    requires low < 16
    ensures (x * 16 + low) / 16 == x && (x * 16 + low) % 16 == low
  {
  }

  lemma SplitAt4(x: nat, low: nat)
    requires low < 4
    ensures (x * 4 + low) / 4 == x && (x * 4 + low) % 4 == low
  {
  }

  lemma BytesOfDigits(a: nat, b: nat, c: nat)
    requires a < 256 && b < 256 && c < 256
    ensures Bytes(a / 4, a % 4 * 16 + b / 16, b % 16 * 4 + c / 64, c % 64) == [At(a), At(b), At(c)]
  {
    SplitAt16(a % 4, b / 16);
    SplitAt4(b % 16, c / 64);
  }

  function Quad(e: Encoding, a: nat, b: nat, c: nat): (digits: Octets)
    requires a < 256 && b < 256 && c < 256
    ensures |digits| == 4
  {
    [Digit(e, a / 4), Digit(e, a % 4 * 16 + b / 16), Digit(e, b % 16 * 4 + c / 64), Digit(e, c % 64)]
  }

  /** The first `k` digits of a group hold its first `k - 1` bytes when the others are zero. */
  lemma GroupOfQuad(e: Encoding, a: nat, b: nat, c: nat, k: nat)
    requires a < 256 && b < 256 && c < 256 && 2 <= k <= 4
    requires (k < 4 ==> c == 0) && (k < 3 ==> b == 0)
    ensures Group(e, Quad(e, a, b, c)[..k]) == Some([At(a), At(b), At(c)][..k - 1])
    ensures forall i :: 0 <= i < 4 ==> Quad(e, a, b, c)[i] != '='
  {
    hide Digit, Value, Bytes, Group;
    ValueOfDigit(e, a / 4);
    ValueOfDigit(e, a % 4 * 16 + b / 16);
    ValueOfDigit(e, b % 16 * 4 + c / 64);
    ValueOfDigit(e, c % 64);
    BytesOfDigits(a, b, c);
    GroupIsBytes(e, a / 4, a % 4 * 16 + b / 16, b % 16 * 4 + c / 64, c % 64, k);
  }

  lemma GroupIsBytes(e: Encoding, d0: nat, d1: nat, d2: nat, d3: nat, k: nat)
    requires d0 < 64 && d1 < 64 && d2 < 64 && d3 < 64 && 2 <= k <= 4
    requires (k < 4 ==> d3 == 0) && (k < 3 ==> d2 == 0)
    ensures Group(e, [Digit(e, d0), Digit(e, d1), Digit(e, d2), Digit(e, d3)][..k]) == Some(Bytes(d0, d1, d2, d3)[..k - 1])
  {
    ValueOfDigit(e, d0);
    ValueOfDigit(e, d1);
    ValueOfDigit(e, d2);
    ValueOfDigit(e, d3);
    hide Digit, Value, Bytes;
  }

  lemma DecodeShort(e: Encoding, bytes: Octets)
    requires 1 <= |bytes| <= 2
    ensures DecodeGroups(e, Encode(e, bytes)) == Some(bytes)
  {
    hide Group, Digit, Value;
    var a := bytes[0] as int;
    var b := if |bytes| > 1 then bytes[1] as int else 0;
    var k := |bytes| + 1;
    GroupOfQuad(e, a, b, 0, k);
    assert [At(a), At(b), At(0)][..k - 1] == bytes;
    var s := Encode(e, bytes);
    assert s == Quad(e, a, b, 0)[..k] + Pad(e, 4 - k);
    assert s[..k] == Quad(e, a, b, 0)[..k];
    if e.StdPadded? {
      assert s[..4] == s;
      assert s[3] == '=' && (k == 2 ==> s[2] == '=') && (k == 3 ==> s[2] == Quad(e, a, b, 0)[2]);
      assert Padding(s[..4]) == 4 - k;
    } else {
      assert s[..k] == s;
    }
  }

  lemma DecodeLong(e: Encoding, bytes: Octets, four: Octets, rest: Octets)
    requires |four| == 4 && |bytes| == 3 && four[3] != '=' && Group(e, four) == Some(bytes)
    ensures DecodeGroups(e, four + rest) ==
      match DecodeGroups(e, rest) case None => None case Some(more) => Some(bytes + more)
  {
    var s := four + rest;
    assert s[..4] == four && s[4..] == rest;
  }

  lemma {:induction false} DecodeGroupsEncode(e: Encoding, bytes: Octets)
    ensures DecodeGroups(e, Encode(e, bytes)) == Some(bytes)
    decreases |bytes|
  {
    hide Group, DecodeGroups;
    if bytes == [] {
      DecodeNothing(e);
    } else if |bytes| < 3 {
      DecodeShort(e, bytes);
    } else {
      var a, b, c := bytes[0] as int, bytes[1] as int, bytes[2] as int;
      var four := Quad(e, a, b, c);
      GroupOfQuad(e, a, b, c, 4);
      assert four[..4] == four && [At(a), At(b), At(c)][..3] == bytes[..3];
      DecodeLong(e, bytes[..3], four, Encode(e, bytes[3..]));
      DecodeGroupsEncode(e, bytes[3..]);
      assert Encode(e, bytes) == four + Encode(e, bytes[3..]);
      assert bytes == bytes[..3] + bytes[3..];
    }
  }

  lemma DecodeNothing(e: Encoding)
    ensures DecodeGroups(e, []) == Some([])
  {
  }

  predicate IsEncodedCharacter(c: Octet) {
    'A' <= c <= 'Z' || 'a' <= c <= 'z' || '0' <= c <= '9' || c == '+' || c == '/' || c == '-' || c == '_' || c == '='
  }

  lemma {:induction false} EncodedCharacters(e: Encoding, bytes: Octets)
    ensures forall i :: 0 <= i < |Encode(e, bytes)| ==> IsEncodedCharacter(Encode(e, bytes)[i])
    ensures |bytes| > 0 ==> |Encode(e, bytes)| > 0
    decreases |bytes|
  {
    if |bytes| > 2 {
      EncodedCharacters(e, bytes[3..]);
    }
  }

  lemma {:induction false} NoLineBreaks(s: Octets)
    requires forall i :: 0 <= i < |s| ==> IsEncodedCharacter(s[i])
    ensures SkipLineBreaks(s) == s
  {
    if s != [] {
      NoLineBreaks(s[1..]);
    }
  }

  lemma DecodeEncode(e: Encoding, bytes: Octets)
    ensures Decode(e, Encode(e, bytes)) == Some(bytes)
  {
    EncodedCharacters(e, bytes);
    NoLineBreaks(Encode(e, bytes));
    DecodeGroupsEncode(e, bytes);
  }

  // ---- The text, by the tables of the standard -------------------------------------------------

  /** The digits 0 to 63 in ASCII: letters, small letters, numerals and the last two of each alphabet. */
  lemma DigitCodes(e: Encoding, n: nat)
    requires n < 64
    ensures Digit(e, n) as int ==
      if n <= 25 then 65 + n
      else if n <= 51 then 71 + n
      else if n <= 61 then n - 4
      else if n == 62 then (if e.StdPadded? then 43 else 45)
      else if e.StdPadded? then 47 else 95
  {
  }

  /** A character is worth the digit it is, and nothing else is a digit. */
  lemma ValueExactly(e: Encoding, c: Octet, n: nat)
    ensures Value(e, c) == Some(n) <==> n < 64 && Digit(e, n) == c
    ensures c == '=' || c == '\r' || c == '\n' ==> Value(e, c) == None
  {
  }

  /** Three bytes are the four digits of a 24-bit number, most significant first. */
  lemma EncodedText(e: Encoding, a: Octet, b: Octet, c: Octet, rest: Octets)
    ensures var n := a as int * 0x1_0000 + b as int * 0x100 + c as int;
      && 0 <= n < 0x100_0000
      && Encode(e, [a, b, c] + rest) ==
           [Digit(e, n / 0x4_0000), Digit(e, n / 0x1000 % 64), Digit(e, n / 64 % 64), Digit(e, n % 64)] + Encode(e, rest)
  {
    hide Digit;
    Sextets(a as int, b as int, c as int);
    EncodeFour(e, a, b, c, rest);
    hide Encode;
  }

  /** Two bytes at the end are three digits, and one more equals sign in the standard encoding. */
  lemma EncodedTwo(e: Encoding, a: Octet, b: Octet)
    ensures var n := a as int * 0x1_0000 + b as int * 0x100;
      && 0 <= n < 0x100_0000
      && Encode(e, [a, b]) ==
           [Digit(e, n / 0x4_0000), Digit(e, n / 0x1000 % 64), Digit(e, n / 64 % 64)] + (if e.StdPadded? then "=" else "")
  {
    hide Digit;
    Sextets(a as int, b as int, 0);
    EncodeTail(e, a, b);
    hide Encode;
  }

  /** One byte at the end is two digits, and two equals signs in the standard encoding. */
  lemma EncodedOne(e: Encoding, a: Octet)
    ensures var n := a as int * 0x1_0000;
      && 0 <= n < 0x100_0000
      && Encode(e, [a]) == [Digit(e, n / 0x4_0000), Digit(e, n / 0x1000 % 64)] + (if e.StdPadded? then "==" else "")
    ensures Encode(e, []) == []
  {
    hide Digit;
    Sextets(a as int, 0, 0);
    EncodeTail(e, a, a);
  }

  lemma Sextets(x: nat, y: nat, z: nat)
    requires x < 256 && y < 256 && z < 256
    ensures var n := x * 0x1_0000 + y * 0x100 + z;
      && 0 <= n < 0x100_0000
      && n / 0x4_0000 == x / 4 && n / 0x1000 % 64 == x % 4 * 16 + y / 16 && n / 64 % 64 == y % 16 * 4 + z / 64 && n % 64 == z % 64
  {
    var n := x * 0x1_0000 + y * 0x100 + z;
    QuotientIs(n, 0x4_0000, x / 4, x % 4 * 0x1_0000 + y * 0x100 + z);
    QuotientIs(n, 0x1000, x * 16 + y / 16, y % 16 * 0x100 + z);
    QuotientIs(x * 16 + y / 16, 64, x / 4, x % 4 * 16 + y / 16);
    QuotientIs(n, 64, x * 1024 + y * 4 + z / 64, z % 64);
    QuotientIs(x * 1024 + y * 4 + z / 64, 64, x * 16 + y / 16, y % 16 * 4 + z / 64);
  }

  lemma EncodeFour(e: Encoding, a: Octet, b: Octet, c: Octet, rest: Octets)
    ensures Encode(e, [a, b, c] + rest) == Quad(e, a as int, b as int, c as int) + Encode(e, rest)
  {
    hide Digit;
    assert ([a, b, c] + rest)[3..] == rest;
  }

  lemma EncodeTail(e: Encoding, a: Octet, b: Octet)
    ensures Encode(e, [a, b]) ==
      [Digit(e, a as int / 4), Digit(e, a as int % 4 * 16 + b as int / 16), Digit(e, b as int % 16 * 4)] + (if e.StdPadded? then "=" else "")
    ensures Encode(e, [a]) == [Digit(e, a as int / 4), Digit(e, a as int % 4 * 16)] + (if e.StdPadded? then "==" else "")
  {
    hide Digit;
    assert e.StdPadded? ==> Pad(e, 1) == "=" && Pad(e, 2) == "==";
  }

  predicate AllDigits(e: Encoding, digits: Octets) {
    forall i :: 0 <= i < |digits| ==> Value(e, digits[i]).Some?
  }

  /** A text of digits and, in the standard encoding, one or two equals signs at the end that fill the
      last four. */
  predicate IsGroups(e: Encoding, s: Octets, digits: Octets, pad: nat) {
    && AllDigits(e, digits) && s == digits + Equals(pad)
    && (if e.StdPadded? then |s| % 4 == 0 && pad <= 2 else pad == 0 && |s| % 4 != 1)
  }

  function Equals(pad: nat): Octets {
    seq(pad, _ => '=')
  }

  ghost predicate Groups(e: Encoding, s: Octets) {
    exists digits, pad :: IsGroups(e, s, digits, pad)
  }

  lemma DigitsBeforePadding(e: Encoding, s: Octets, digits: Octets, pad: nat)
    requires IsGroups(e, s, digits, pad) && |s| == 4
    ensures pad <= 2 && (e.StdPadded? ==> Padding(s) == pad) && s[..4 - pad] == digits
  {
    ValueExactly(e, '=', 0);
    assert Value(e, '=') == None;
    assert forall i :: 0 <= i < |digits| ==> s[i] == digits[i];
    assert forall i :: |digits| <= i < 4 ==> s[i] == '=';
  }

  /** Which texts decode, line breaks aside: digits in fours, padded at the very end. */
  lemma {:induction false} DecodesExactly(e: Encoding, s: Octets)
    ensures DecodeGroups(e, s).Some? <==> Groups(e, s)
    decreases |s|
  {
    hide Value;
    if |s| < 4 {
      ShortDecodes(e, s);
    } else {
      DecodesExactly(e, s[4..]);
      if Groups(e, s) {
        var digits, pad :| IsGroups(e, s, digits, pad);
        GroupsSplit(e, s, digits, pad);
      }
      if DecodeGroups(e, s).Some? {
        GroupsJoin(e, s);
      }
    }
  }

  lemma ShortDecodes(e: Encoding, s: Octets)
    requires |s| < 4
    ensures DecodeGroups(e, s).Some? <==> Groups(e, s)
  {
    hide Value;
    if s == [] {
      assert IsGroups(e, s, [], 0);
    } else if !e.StdPadded? && |s| > 1 {
      assert s + Equals(0) == s;
      assert AllDigits(e, s) ==> IsGroups(e, s, s, 0);
      if digits, pad :| IsGroups(e, s, digits, pad) {
        assert digits == s;
      }
    }
  }

  lemma GroupsSplit(e: Encoding, s: Octets, digits: Octets, pad: nat)
    requires |s| >= 4 && IsGroups(e, s, digits, pad)
    requires Groups(e, s[4..]) ==> DecodeGroups(e, s[4..]).Some?
    ensures DecodeGroups(e, s).Some?
  {
    hide Value;
    if |s| == 4 {
      assert s[..4] == s;
      DigitsBeforePadding(e, s, digits, pad);
      assert s[4..] == [];
      assert IsGroups(e, s[4..], [], 0);
    } else {
      assert |digits| >= 4;
      assert s[..4] == digits[..4] && s[4..] == digits[4..] + Equals(pad);
      assert IsGroups(e, s[4..], digits[4..], pad);
      FirstFour(e, s, digits);
    }
  }

  lemma FirstFour(e: Encoding, s: Octets, digits: Octets)
    requires |s| >= 4 && |digits| >= 4 && s[..4] == digits[..4] && AllDigits(e, digits)
    ensures e.StdPadded? ==> Padding(s[..4]) == 0
    ensures Group(e, s[..4]).Some?
  {
    ValueExactly(e, '=', 0);
    assert forall i :: 0 <= i < 4 ==> s[..4][i] == digits[i];
  }

  lemma GroupsJoin(e: Encoding, s: Octets)
    requires |s| >= 4 && DecodeGroups(e, s).Some?
    requires DecodeGroups(e, s[4..]).Some? ==> Groups(e, s[4..])
    ensures Groups(e, s)
  {
    hide Value;
    var p := if e.StdPadded? then Padding(s[..4]) else 0;
    var four := s[..4 - p];
    assert AllDigits(e, four);
    if p > 0 {
      assert s == four + Equals(p);
      assert IsGroups(e, s, four, p);
    } else {
      MoreGroups(e, s, four, s[4..]);
    }
  }

  lemma MoreGroups(e: Encoding, s: Octets, four: Octets, rest: Octets)
    requires |four| == 4 && s == four + rest && AllDigits(e, four) && Groups(e, rest)
    ensures Groups(e, s)
  {
    hide Value;
    var digits, pad :| IsGroups(e, rest, digits, pad);
    assert s == (four + digits) + Equals(pad);
    assert IsGroups(e, s, four + digits, pad);
  }

  /** The bytes of four digits are those of the 24-bit number they spell. */
  lemma GroupIs(e: Encoding, d0: nat, d1: nat, d2: nat, d3: nat)
    requires d0 < 64 && d1 < 64 && d2 < 64 && d3 < 64
    ensures var n := d0 * 0x4_0000 + d1 * 0x1000 + d2 * 64 + d3;
      && n < 0x100_0000
      && Group(e, [Digit(e, d0), Digit(e, d1), Digit(e, d2), Digit(e, d3)]) == Some([At(n / 0x1_0000), At(n / 0x100 % 256), At(n % 256)])
  {
    GroupIsBytes(e, d0, d1, d2, d3, 4);
    hide Group, Digit, Bytes;
    BytesAre(d0, d1, d2, d3);
    var digits := [Digit(e, d0), Digit(e, d1), Digit(e, d2), Digit(e, d3)];
    assert digits[..4] == digits && Bytes(d0, d1, d2, d3)[..3] == Bytes(d0, d1, d2, d3);
  }

  lemma BytesAre(d0: nat, d1: nat, d2: nat, d3: nat)
    requires d0 < 64 && d1 < 64 && d2 < 64 && d3 < 64
    ensures var n := d0 * 0x4_0000 + d1 * 0x1000 + d2 * 64 + d3;
      && n < 0x100_0000
      && Bytes(d0, d1, d2, d3) == [At(n / 0x1_0000), At(n / 0x100 % 256), At(n % 256)]
  {
    var b0, b1, b2 := d0 * 4 + d1 / 16, d1 % 16 * 16 + d2 / 4, d2 % 4 * 64 + d3;
    assert d1 == d1 / 16 * 16 + d1 % 16 && d2 == d2 / 4 * 4 + d2 % 4;
    ThreeBytes(b0, b1, b2);
    assert d0 * 0x4_0000 + d1 * 0x1000 + d2 * 64 + d3 == b0 * 0x1_0000 + b1 * 0x100 + b2;
  }

  lemma ThreeBytes(b0: nat, b1: nat, b2: nat)
    requires b0 < 256 && b1 < 256 && b2 < 256
    ensures var n := b0 * 0x1_0000 + b1 * 0x100 + b2;
      && n < 0x100_0000 && n / 0x1_0000 == b0 && n / 0x100 % 256 == b1 && n % 256 == b2
      && b0 % 256 == b0 && b1 % 256 == b1 && b2 % 256 == b2
  {
    var n := b0 * 0x1_0000 + b1 * 0x100 + b2;
    QuotientIs(n, 0x1_0000, b0, b1 * 0x100 + b2);
    QuotientIs(n, 0x100, b0 * 0x100 + b1, b2);
    QuotientIs(b0 * 0x100 + b1, 256, b0, b1);
  }

  lemma SkipFirst(c: Octet, s: Octets)
    ensures SkipLineBreaks([c] + s) == Kept(c) + SkipLineBreaks(s)
  {
    assert ([c] + s)[0] == c && ([c] + s)[1..] == s;
  }

  lemma {:induction false} SkipEach(a: Octets, b: Octets)
    ensures SkipLineBreaks(a + b) == SkipLineBreaks(a) + SkipLineBreaks(b)
  {
    if a == [] {
      assert a + b == b;
    } else {
      hide SkipLineBreaks, Kept;
      var rest := a[1..];
      SkipEach(rest, b);
      SkipFirst(a[0], rest);
      SkipFirst(a[0], rest + b);
      assert [a[0]] + rest == a && [a[0]] + (rest + b) == a + b;
      Associative(Kept(a[0]), SkipLineBreaks(rest), SkipLineBreaks(b));
    }
  }

  lemma Associative(a: Octets, b: Octets, c: Octets)
    ensures (a + b) + c == a + (b + c)
  {
  }

  /** Line breaks are skipped wherever they stand, and nothing else is. */
  lemma LineBreaksAreSkipped(a: Octets, c: Octet, b: Octets)
    ensures SkipLineBreaks(a + [c] + b) == SkipLineBreaks(a) + (if c == '\r' || c == '\n' then [] else [c]) + SkipLineBreaks(b)
  {
    SkipEach(a + [c], b);
    SkipEach(a, [c]);
    SkipFirst(c, []);
    assert [c] + [] == [c] && Kept(c) + [] == Kept(c) && SkipLineBreaks([]) == [];
    hide SkipLineBreaks;
  }
}
