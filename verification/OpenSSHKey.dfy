/** Ed25519 public keys in OpenSSH text (api/signature.go): the wire form is that of section 4 of
    RFC 8709, with the string encoding of section 5 of RFC 4251, in base64. */
module OpenSSHKey {
  import opened Arithmetic
  import opened Octets
  import opened Options
  import opened Base64

  const KEY_TYPE: Octets := "ssh-ed25519"
  const KEY_SIZE := 32
  const WIRE_SIZE := 4 + 11 + 4 + 32

  datatype KeyError =
    | TooFewFields
    | UnsupportedType
    | InvalidBase64
    | TooShort
    | TypeMismatch
    | Truncated
    | UnexpectedLength

  datatype Result = Ok(key: Octets) | Err(error: KeyError)

  function WordLength(s: Octets): (n: nat)
    ensures n <= |s|
    ensures forall i :: 0 <= i < n ==> !IsSpace(s[i])
    ensures n < |s| ==> IsSpace(s[n])
  {
    if s == [] || IsSpace(s[0]) then 0 else 1 + WordLength(s[1..])
  }

  lemma {:induction false} TrimLeftShape(s: Octets)
    ensures |TrimLeft(s, IsSpace)| <= |s|
    ensures TrimLeft(s, IsSpace) != [] ==> !IsSpace(TrimLeft(s, IsSpace)[0])
  {
    if s != [] && IsSpace(s[0]) {
      TrimLeftShape(s[1..]);
    }
  }

  /** The words of a text, split around runs of white space. */
  function Fields(s: Octets): seq<Octets>
    decreases |s|
  {
    TrimLeftShape(s);
    var t := TrimLeft(s, IsSpace);
    if t == [] then [] else [t[..WordLength(t)]] + Fields(t[WordLength(t)..])
  }

  /** Four bytes, most significant first; higher bits are dropped as by a conversion to a byte. */
  function Uint32(n: nat): (bytes: Octets)
    ensures |bytes| == 4
  {
    [At(n / 0x100_0000 % 256), At(n / 0x1_0000 % 256), At(n / 0x100 % 256), At(n % 256)]
  }

  function ReadUint32(bytes: Octets, offset: nat): nat
    requires offset + 4 <= |bytes|
  {
    bytes[offset] as int * 0x100_0000 + bytes[offset + 1] as int * 0x1_0000
      + bytes[offset + 2] as int * 0x100 + bytes[offset + 3] as int
  }

  function Wire(key: Octets): Octets {
    Uint32(|KEY_TYPE|) + KEY_TYPE + Uint32(|key|) + key
  }

  function OpenSSHText(key: Octets): Octets {
    KEY_TYPE + [' '] + Encode(StdPadded, Wire(key))
  }

  function ParseWire(decoded: Octets): Result {
    if |decoded| < WIRE_SIZE then Err(TooShort)
    else
      var typeLength := ReadUint32(decoded, 0);
      if typeLength != 11 || decoded[4..15] != KEY_TYPE then Err(TypeMismatch)
      else
        var offset := 4 + typeLength;
        if offset + 4 > |decoded| then Err(Truncated)
        else
          var keyLength := ReadUint32(decoded, offset);
          var start := offset + 4;
          if keyLength != KEY_SIZE || start + keyLength > |decoded| then Err(UnexpectedLength)
          else Ok(decoded[start..start + keyLength])
  }

  function Parse(text: Octets): Result {
    var parts := Fields(text);
    if |parts| < 2 then Err(TooFewFields)
    else if parts[0] != KEY_TYPE then Err(UnsupportedType)
    else
      match Decode(StdPadded, parts[1])
      case None => Err(InvalidBase64)
      case Some(decoded) => ParseWire(decoded)
  }

  method FormatEd25519OpenSSH(key: Octets) returns (text: Octets)
    ensures text == OpenSSHText(key)
  {
    hide Encode, Fields, Parse, ParseWire;
    var typeBytes := KEY_TYPE;
    var wire := new Octet[4 + |typeBytes| + 4 + |key|];
    var offset := 0;
    var n := |typeBytes|;
    wire[offset] := At(n / 0x100_0000 % 256);
    wire[offset + 1] := At(n / 0x1_0000 % 256);
    wire[offset + 2] := At(n / 0x100 % 256);
    wire[offset + 3] := At(n % 256);
    offset := offset + 4;
    assert wire[..4] == Uint32(n);
    forall i | 0 <= i < |typeBytes| {
      wire[offset + i] := typeBytes[i];
    }
    offset := offset + |typeBytes|;
    assert wire[..offset] == Uint32(n) + typeBytes;
    label typed:
    n := |key|;
    wire[offset] := At(n / 0x100_0000 % 256);
    wire[offset + 1] := At(n / 0x1_0000 % 256);
    wire[offset + 2] := At(n / 0x100 % 256);
    wire[offset + 3] := At(n % 256);
    assert wire[offset..offset + 4] == Uint32(n);
    assert wire[..offset] == old@typed(wire[..offset]);
    offset := offset + 4;
    assert wire[..offset] == Uint32(|typeBytes|) + typeBytes + Uint32(n);
    label sized:
    forall i | 0 <= i < |key| {
      wire[offset + i] := key[i];
    }
    assert wire[..offset] == old@sized(wire[..offset]);
    assert wire[..] == wire[..offset] + key;
    text := typeBytes + [' '] + Encode(StdPadded, wire[..]);
  }

  lemma ReadUint32IsSmall(n: nat)
    requires n < 256
    ensures Uint32(n) == [At(0), At(0), At(0), At(n)]
  {
  }

  lemma BytesOfSmallNumber(bytes: Octets, offset: nat, n: nat)
    requires offset + 4 <= |bytes| && n < 256
    ensures ReadUint32(bytes, offset) == n <==> bytes[offset..offset + 4] == Uint32(n)
  {
    ReadUint32IsSmall(n);
    var b := bytes[offset..offset + 4];
    assert b[0] == bytes[offset] && b[1] == bytes[offset + 1] && b[2] == bytes[offset + 2] && b[3] == bytes[offset + 3];
    if ReadUint32(bytes, offset) == n {
      assert b[0] as int == 0 && b[1] as int == 0 && b[2] as int == 0 && b[3] as int == n;
      assert b == Uint32(n);
    }
  }

  /** The wire form is accepted exactly when it begins with that of a 32-byte key; what follows it
      is ignored. */
  lemma ParseWireExact(decoded: Octets, key: Octets)
    ensures ParseWire(decoded) == Ok(key) <==>
            |key| == KEY_SIZE && |decoded| >= WIRE_SIZE && decoded[..WIRE_SIZE] == Wire(key)
  {
    if |decoded| >= WIRE_SIZE {
      BytesOfSmallNumber(decoded, 0, 11);
      BytesOfSmallNumber(decoded, 15, 32);
      var prefix := decoded[..WIRE_SIZE];
      assert prefix == decoded[0..4] + decoded[4..15] + decoded[15..19] + decoded[19..51];
      if |key| == KEY_SIZE && prefix == Wire(key) {
        assert decoded[0..4] == prefix[0..4] == Uint32(11);
        assert decoded[4..15] == prefix[4..15] == KEY_TYPE;
        assert decoded[15..19] == prefix[15..19] == Uint32(32);
        assert decoded[19..51] == prefix[19..51] == key;
      }
    }
  }

  lemma {:induction false} WordThenSpace(word: Octets, rest: Octets)
    requires forall c :: c in word ==> !IsSpace(c)
    requires rest == [] || IsSpace(rest[0])
    ensures WordLength(word + rest) == |word|
  {
    if word == [] {
      assert word + rest == rest;
    } else {
      assert (word + rest)[1..] == word[1..] + rest;
      assert forall c :: c in word[1..] ==> c in word;
      WordThenSpace(word[1..], rest);
    }
  }

  lemma FirstField(word: Octets, rest: Octets)
    requires word != [] && (forall c :: c in word ==> !IsSpace(c)) && (rest == [] || IsSpace(rest[0]))
    ensures Fields(word + rest) == [word] + Fields(rest)
  {
    hide IsSpace;
    var text := word + rest;
    assert text[0] == word[0] && word[0] in word;
    assert TrimLeft(text, IsSpace) == text;
    WordThenSpace(word, rest);
    assert text[..|word|] == word && text[|word|..] == rest;
  }

  /** White space before a word does not count, and a word ends at the next. */
  lemma SpaceIsSkipped(c: Octet, s: Octets)
    requires IsSpace(c)
    ensures Fields([c] + s) == Fields(s)
  {
    assert ([c] + s)[1..] == s;
    assert TrimLeft([c] + s, IsSpace) == TrimLeft(s, IsSpace);
  }

  lemma TwoFields(first: Octets, second: Octets)
    requires first != [] && second != []
    requires (forall c :: c in first ==> !IsSpace(c)) && (forall c :: c in second ==> !IsSpace(c))
    ensures Fields(first + [' '] + second) == [first, second]
  {
    hide Fields;
    var tail := [' '] + second;
    assert first + [' '] + second == first + tail;
    FirstField(first, tail);
    SpaceIsSkipped(' ', second);
    assert second + [] == second;
    FirstField(second, []);
    assert Fields([]) == [] by { NoFields(); }
  }

  lemma NoFields()
    ensures Fields([]) == []
  {
  }

  /** Printing a key and parsing it gives the key back exactly when it has the 32 bytes of an
      Ed25519 public key. */
  lemma ParseFormatted(key: Octets)
    ensures Parse(OpenSSHText(key)) == Ok(key) <==> |key| == KEY_SIZE
  {
    var wire := Wire(key);
    var text := Encode(StdPadded, wire);
    EncodedCharacters(StdPadded, wire);
    assert forall c :: c in text ==> !IsSpace(c);
    assert forall c :: c in KEY_TYPE ==> !IsSpace(c);
    TwoFields(KEY_TYPE, text);
    DecodeEncode(StdPadded, wire);
    ParseWireExact(wire, key);
    if |key| == KEY_SIZE {
      assert wire[..WIRE_SIZE] == wire;
    }
  }

  /** Which texts are accepted, and as which key: the first two words are the key type and the
      base64 of bytes that begin with the key's wire form. */
  lemma ParseExact(text: Octets, key: Octets)
    ensures Parse(text) == Ok(key) <==>
            && |Fields(text)| >= 2 && Fields(text)[0] == KEY_TYPE
            && Decode(StdPadded, Fields(text)[1]).Some?
            && |key| == KEY_SIZE
            && Wire(key) <= Decode(StdPadded, Fields(text)[1]).value
  {
    hide Decode, Fields, ParseWire;
    if |Fields(text)| >= 2 && Decode(StdPadded, Fields(text)[1]).Some? {
      var decoded := Decode(StdPadded, Fields(text)[1]).value;
      ParseWireExact(decoded, key);
      assert |key| == KEY_SIZE ==> |Wire(key)| == WIRE_SIZE;
    }
  }

  // ---- The wire form in bytes, and which texts are refused -------------------------------------------

  lemma ReadUint32Is(bytes: Octets, offset: nat)
    requires offset + 4 <= |bytes|
    ensures ReadUint32(bytes, offset) ==
      ((bytes[offset] as int * 256 + bytes[offset + 1] as int) * 256 + bytes[offset + 2] as int) * 256 + bytes[offset + 3] as int
  {
  }

  /** A length of up to 32 bits, most significant byte first. */
  lemma Uint32Is(n: nat)
    requires n < 0x1_0000_0000
    ensures ReadUint32(Uint32(n), 0) == n
  {
    var q1, q2, q3 := n / 0x100, n / 0x1_0000, n / 0x100_0000;
    QuotientIs(n, 0x1_0000, q1 / 256, q1 % 256 * 256 + n % 256);
    QuotientIs(n, 0x100_0000, q2 / 256, q2 % 256 * 0x1_0000 + n % 0x1_0000);
  }

  /** The wire form and the text of a key, with every byte. */
  lemma WireIs(key: Octets)
    requires |key| == 32
    ensures Wire(key) == [0 as char, 0 as char, 0 as char, 11 as char] + "ssh-ed25519" + [0 as char, 0 as char, 0 as char, 32 as char] + key
    ensures OpenSSHText(key) == "ssh-ed25519" + " " + Encode(StdPadded, Wire(key))
  {
    hide Encode;
    ReadUint32IsSmall(11);
    ReadUint32IsSmall(32);
    assert |KEY_TYPE| == 11;
  }

  /** Each refusal by what is wrong with the text. */
  lemma RefusedExactly(text: Octets)
    ensures var parts := Fields(text);
      && (Parse(text) == Err(TooFewFields) <==> |parts| < 2)
      && (Parse(text) == Err(UnsupportedType) <==> |parts| >= 2 && parts[0] != "ssh-ed25519")
      && (Parse(text) == Err(InvalidBase64) <==> |parts| >= 2 && parts[0] == "ssh-ed25519" && Decode(StdPadded, parts[1]) == None)
      && (|parts| >= 2 && parts[0] == "ssh-ed25519" && Decode(StdPadded, parts[1]) != None ==>
            WireRefused(Decode(StdPadded, parts[1]).value, Parse(text)))
  {
    hide Fields, Decode, ParseWire;
    if |Fields(text)| >= 2 && Decode(StdPadded, Fields(text)[1]).Some? {
      WireRefusedExactly(Decode(StdPadded, Fields(text)[1]).value);
    }
  }

  predicate WireRefused(decoded: Octets, r: Result) {
    && (r == Err(TooShort) <==> |decoded| < 51)
    && (r == Err(TypeMismatch) <==>
          |decoded| >= 51 && !(decoded[..4] == [0 as char, 0 as char, 0 as char, 11 as char] && decoded[4..15] == "ssh-ed25519"))
    && (r == Err(UnexpectedLength) <==>
          && |decoded| >= 51 && decoded[..4] == [0 as char, 0 as char, 0 as char, 11 as char] && decoded[4..15] == "ssh-ed25519"
          && decoded[15..19] != [0 as char, 0 as char, 0 as char, 32 as char])
    && r != Err(Truncated) && r != Err(TooFewFields) && r != Err(UnsupportedType) && r != Err(InvalidBase64)
    && (r.Ok? ==> |decoded| >= 51 && r.key == decoded[19..51])
  }

  lemma WireRefusedExactly(decoded: Octets)
    ensures WireRefused(decoded, ParseWire(decoded))
  {
    if |decoded| >= 51 {
      BytesOfSmallNumber(decoded, 0, 11);
      BytesOfSmallNumber(decoded, 15, 32);
      ReadUint32IsSmall(11);
      ReadUint32IsSmall(32);
      assert decoded[0..4] == decoded[..4];
    }
  }
}
