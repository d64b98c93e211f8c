/** The X-Permission-Slip-Signature header of api/signature.go: printed by SignRequestAt, read
    back by ParseSignatureHeader. White space and quotes are the ASCII ones. */
module SignatureHeader {
  import opened Octets
  import opened Options
  import opened Decimals
  import opened Base64

  datatype ParsedSignature = ParsedSignature(agentID: Int64, algorithm: Octets, timestamp: Int64, signature: Octets)

  datatype HeaderError =
    | MalformedField
    | MissingAgentID
    | InvalidAgentID
    | MissingAlgorithm
    | MissingTimestamp
    | InvalidTimestamp
    | MissingSignature
    | InvalidSignatureEncoding

  datatype Result = Ok(parsed: ParsedSignature) | Err(error: HeaderError)

  type Fields = map<Octets, Octets>

  /** Key and value of one comma-separated part, or nothing when it has no equals sign. */
  function ParseField(raw: Octets): Option<(Octets, Octets)> {
    var part := TrimSpace(raw);
    var eq := IndexOf(part, '=');
    if eq == |part| then None
    else Some((TrimSpace(part[..eq]), TrimQuotes(TrimSpace(part[eq + 1..]))))
  }

  /** The fields of the first `n` parts; a repeated key keeps its last value. */
  function FieldsOf(parts: seq<Octets>, n: nat): Option<Fields>
    requires n <= |parts|
  {
    if n == 0 then Some(map[])
    else
      match (FieldsOf(parts, n - 1), ParseField(parts[n - 1]))
      case (Some(fields), Some((key, value))) => Some(fields[key := value])
      case _ => None
  }

  function Field(fields: Fields, key: Octets): Octets {
    if key in fields then fields[key] else []
  }

  function Interpret(fields: Fields): Result {
    var agentID := Field(fields, "agent_id");
    var timestamp := Field(fields, "timestamp");
    var signature := Field(fields, "signature");
    if agentID == [] then Err(MissingAgentID)
    else if ParseInt(agentID).None? || ParseInt(agentID).value <= 0 then Err(InvalidAgentID)
    else if Field(fields, "algorithm") == [] then Err(MissingAlgorithm)
    else if timestamp == [] then Err(MissingTimestamp)
    else if ParseInt(timestamp).None? then Err(InvalidTimestamp)
    else if signature == [] then Err(MissingSignature)
    else
      match Decode(UrlRaw, signature)
      case None => Err(InvalidSignatureEncoding)
      case Some(bytes) =>
        Ok(ParsedSignature(ParseInt(agentID).value, Field(fields, "algorithm"), ParseInt(timestamp).value, bytes))
  }

  function Parse(header: Octets): Result {
    var parts := Split(header, ',');
    match FieldsOf(parts, |parts|)
    case None => Err(MalformedField)
    case Some(fields) => Interpret(fields)
  }

  lemma {:induction false} MalformedPrefix(parts: seq<Octets>, n: nat, m: nat)
    requires n <= m <= |parts| && FieldsOf(parts, n).None?
    ensures FieldsOf(parts, m).None?
  {
    hide ParseField;
    if n < m {
      MalformedPrefix(parts, n, m - 1);
    }
  }

  method ParseSignatureHeader(header: Octets) returns (result: Result)
    ensures result == Parse(header)
  {
    hide Split, TrimSpace, TrimQuotes, Interpret, IndexOf;
    var fields: Fields := map[];
    var parts := Split(header, ',');
    for i := 0 to |parts|
      invariant FieldsOf(parts, i) == Some(fields)
    {
      var part := TrimSpace(parts[i]);
      var eq := IndexOf(part, '=');
      if eq == |part| {
        MalformedPrefix(parts, i + 1, |parts|);
        return Err(MalformedField);
      }
      var key := TrimSpace(part[..eq]);
      var val := TrimSpace(part[eq + 1..]);
      val := TrimQuotes(val);
      fields := fields[key := val];
    }
    return Interpret(fields);
  }

  /** `key="value"`, as one field of the header. */
  function FieldText(key: Octets, value: Octets): Octets {
    key + ['='] + (['"'] + value + ['"'])
  }

  const PLACEHOLDER_AGENT_ID: Int64 := MAX_INT64

  function HeaderAgentID(agentID: Int64): Int64 {
    if agentID <= 0 then PLACEHOLDER_AGENT_ID else agentID
  }

  function HeaderParts(agentID: Int64, timestamp: Int64, signature: Octets): seq<Octets> {
    [FieldText("agent_id", FormatInt(HeaderAgentID(agentID))),
     [' '] + FieldText("algorithm", "Ed25519"),
     [' '] + FieldText("timestamp", FormatInt(timestamp)),
     [' '] + FieldText("signature", Encode(UrlRaw, signature))]
  }

  /** The header text for a signature; an id that is not positive is printed as a placeholder. */
  function HeaderText(agentID: Int64, timestamp: Int64, signature: Octets): Octets {
    Join(HeaderParts(agentID, timestamp, signature), ',')
  }

  predicate IsPlain(s: Octets) {
    forall c :: c in s ==> c != ',' && c != '"' && c != '=' && !IsSpace(c)
  }

  lemma ParseFieldText(key: Octets, value: Octets, indent: bool)
    requires IsPlain(key) && key != [] && '"' !in value
    ensures ParseField((if indent then [' '] else []) + FieldText(key, value)) == Some((key, value))
  {
    var text := FieldText(key, value);
    var quoted := ['"'] + value + ['"'];
    assert text[0] == key[0] && text[|text| - 1] == '"';
    assert key[0] in key;
    TrimNothing(text, IsSpace);
    var raw := (if indent then [' '] else []) + text;
    assert TrimLeft(raw, IsSpace) == text by {
      if indent {
        assert raw[1..] == text;
      } else {
        assert raw == text;
      }
    }
    assert TrimSpace(raw) == text;
    CutAt(key, '=', quoted);
    assert text[..|key|] == key && text[|key| + 1..] == quoted;
    assert key[|key| - 1] in key;
    TrimNothing(key, IsSpace);
    TrimNothing(quoted, IsSpace);
    Unquote(value);
  }

  lemma NumbersArePlain(n: Int64)
    ensures IsPlain(FormatInt(n)) && FormatInt(n) != []
  {
    FormatIntCharacters(n);
  }

  lemma {:induction false} RawEncodingIsPlain(bytes: Octets)
    ensures IsPlain(Encode(UrlRaw, bytes)) && (bytes != [] <==> Encode(UrlRaw, bytes) != [])
    decreases |bytes|
  {
    if |bytes| > 2 {
      RawEncodingIsPlain(bytes[3..]);
    }
  }

  lemma FieldTextAvoidsComma(key: Octets, value: Octets)
    requires IsPlain(key) && IsPlain(value)
    ensures ',' !in FieldText(key, value) && ',' !in [' '] + FieldText(key, value)
  {
  }

  lemma FieldsOfFour(parts: seq<Octets>, k0: Octets, v0: Octets, k1: Octets, v1: Octets,
                     k2: Octets, v2: Octets, k3: Octets, v3: Octets)
    requires |parts| == 4
    requires ParseField(parts[0]) == Some((k0, v0)) && ParseField(parts[1]) == Some((k1, v1))
    requires ParseField(parts[2]) == Some((k2, v2)) && ParseField(parts[3]) == Some((k3, v3))
    ensures FieldsOf(parts, 4) == Some(map[][k0 := v0][k1 := v1][k2 := v2][k3 := v3])
  {
    hide ParseField;
    var none: Fields := map[];
    assert FieldsOf(parts, 1) == Some(none[k0 := v0]);
    assert FieldsOf(parts, 2) == Some(none[k0 := v0][k1 := v1]);
    assert FieldsOf(parts, 3) == Some(none[k0 := v0][k1 := v1][k2 := v2]);
  }

  lemma NamesArePlain()
    ensures IsPlain("agent_id") && IsPlain("algorithm") && IsPlain("Ed25519") && IsPlain("timestamp") && IsPlain("signature")
  {
  }

  lemma PartReadsBack(key: Octets, value: Octets, indent: bool, part: Octets)
    requires IsPlain(key) && key != [] && IsPlain(value)
    requires part == (if indent then [' '] else []) + FieldText(key, value)
    ensures ',' !in part && ParseField(part) == Some((key, value))
  {
    FieldTextAvoidsComma(key, value);
    ParseFieldText(key, value, indent);
  }

  lemma PrintedParts(agentID: Int64, timestamp: Int64, signature: Octets, parts: seq<Octets>)
    requires parts == HeaderParts(agentID, timestamp, signature)
    ensures forall i :: 0 <= i < 4 ==> ',' !in parts[i]
    ensures ParseField(parts[0]) == Some(("agent_id", FormatInt(HeaderAgentID(agentID))))
    ensures ParseField(parts[1]) == Some(("algorithm", "Ed25519"))
    ensures ParseField(parts[2]) == Some(("timestamp", FormatInt(timestamp)))
    ensures ParseField(parts[3]) == Some(("signature", Encode(UrlRaw, signature)))
  {
    NamesArePlain();
    NumbersArePlain(HeaderAgentID(agentID));
    NumbersArePlain(timestamp);
    RawEncodingIsPlain(signature);
    hide FormatInt, Encode, ParseField, FieldText, IsPlain;
    PartReadsBack("agent_id", FormatInt(HeaderAgentID(agentID)), false, parts[0]);
    PartReadsBack("algorithm", "Ed25519", true, parts[1]);
    PartReadsBack("timestamp", FormatInt(timestamp), true, parts[2]);
    PartReadsBack("signature", Encode(UrlRaw, signature), true, parts[3]);
  }

  function PrintedFields(id: Octets, ts: Octets, sig: Octets): Fields {
    map[]["agent_id" := id]["algorithm" := "Ed25519"]["timestamp" := ts]["signature" := sig]
  }

  lemma HeaderReadsFields(agentID: Int64, timestamp: Int64, signature: Octets)
    ensures Parse(HeaderText(agentID, timestamp, signature)) ==
      Interpret(PrintedFields(FormatInt(HeaderAgentID(agentID)), FormatInt(timestamp), Encode(UrlRaw, signature)))
  {
    var parts := HeaderParts(agentID, timestamp, signature);
    PrintedParts(agentID, timestamp, signature, parts);
    hide FormatInt, Encode, FieldText, Split, Join, FieldsOf, ParseField, Interpret, HeaderAgentID;
    FieldsOfFour(parts, "agent_id", FormatInt(HeaderAgentID(agentID)), "algorithm", "Ed25519",
                 "timestamp", FormatInt(timestamp), "signature", Encode(UrlRaw, signature));
    SplitJoin(parts, ',');
  }

  lemma FieldsByName(id: Octets, ts: Octets, sig: Octets)
    ensures Field(PrintedFields(id, ts, sig), "agent_id") == id
    ensures Field(PrintedFields(id, ts, sig), "algorithm") == "Ed25519"
    ensures Field(PrintedFields(id, ts, sig), "timestamp") == ts
    ensures Field(PrintedFields(id, ts, sig), "signature") == sig
  {
    assert |"agent_id"| == 8 && |"algorithm"| == 9 && |"timestamp"| == 9 && |"signature"| == 9;
    assert "algorithm"[0] == 'a' && "timestamp"[0] == 't' && "signature"[0] == 's';
  }

  /** What SignRequestAt prints is what ParseSignatureHeader reads, for every agent id, timestamp and
      signature; only an empty signature is refused. */
  lemma ParsePrintedHeader(agentID: Int64, timestamp: Int64, signature: Octets)
    ensures Parse(HeaderText(agentID, timestamp, signature)) ==
      if signature == [] then Err(MissingSignature)
      else Ok(ParsedSignature(HeaderAgentID(agentID), "Ed25519", timestamp, signature))
  {
    var id, ts, sig := FormatInt(HeaderAgentID(agentID)), FormatInt(timestamp), Encode(UrlRaw, signature);
    HeaderReadsFields(agentID, timestamp, signature);
    FieldsByName(id, ts, sig);
    FormatIntCharacters(HeaderAgentID(agentID));
    FormatIntCharacters(timestamp);
    RawEncodingIsPlain(signature);
    ParseFormatInt(HeaderAgentID(agentID));
    ParseFormatInt(timestamp);
    DecodeEncode(UrlRaw, signature);
    hide FormatInt, ParseInt, Encode, Decode, Parse, HeaderText, Field, IsPlain, PrintedFields;
  }

  // ---- Which headers are refused ------------------------------------------------------------------

  /** A part is a field exactly when it has an equals sign; the key stands before the first one and the
      value after it, without the white space around them and without the quotes around the value. */
  lemma FieldIs(before: Octets, after: Octets)
    requires '=' !in before
    ensures ParseField(before + ['='] + after) == Some((TrimSpace(before), TrimQuotes(TrimSpace(after))))
    ensures ParseField(before) == None
  {
    hide TrimLeft, TrimRight, IndexOf;
    TrimLeftUpTo(before, '=', after, IsSpace);
    var left, right := TrimLeft(before, IsSpace), TrimRight(after, IsSpace);
    TrimRightUpTo(left, '=', after, IsSpace);
    assert TrimSpace(before + ['='] + after) == left + ['='] + right;
    TrimmedHasNoMore(before, '=');
    CutAt(left, '=', right);
    var part := left + ['='] + right;
    assert part[..|left|] == left && part[|left| + 1..] == right;
    TrimAgainLeft(before, IsSpace);
    TrimAgainRight(after, IsSpace);
    CutNowhere(TrimSpace(before), '=');
  }

  lemma TrimmedHasNoMore(s: Octets, c: Octet)
    requires c !in s
    ensures c !in TrimLeft(s, IsSpace) && c !in TrimSpace(s)
  {
    var n := TrimLeftTakes(s, IsSpace);
    var from, to := TrimTakes(s, IsSpace);
  }

  lemma FieldExactly(part: Octets)
    ensures ParseField(part).Some? <==> '=' in part
  {
    if '=' in part {
      var i := IndexOf(part, '=');
      assert part[..|part|] == part;
      assert part == part[..i] + ['='] + part[i + 1..];
      FieldIs(part[..i], part[i + 1..]);
    } else {
      FieldIs(part, []);
    }
  }

  /** Part `i` is the last with this key. */
  predicate IsLast(parts: seq<Octets>, n: nat, i: nat, key: Octets)
    requires n <= |parts|
  {
    && i < n && ParseField(parts[i]).Some? && ParseField(parts[i]).value.0 == key
    && forall j :: i < j < n && ParseField(parts[j]).Some? ==> ParseField(parts[j]).value.0 != key
  }

  /** The fields are read exactly when every part is one, and the last of a key counts. */
  lemma {:induction false} LastFieldCounts(parts: seq<Octets>, n: nat, key: Octets)
    requires n <= |parts|
    ensures FieldsOf(parts, n).Some? <==> forall i :: 0 <= i < n ==> ParseField(parts[i]).Some?
    ensures FieldsOf(parts, n).Some? ==>
      var fields := FieldsOf(parts, n).value;
      && (key in fields <==> exists i: nat :: IsLast(parts, n, i, key))
      && forall i: nat :: IsLast(parts, n, i, key) ==> fields[key] == ParseField(parts[i]).value.1
  {
    hide ParseField;
    if n > 0 {
      var m := n - 1;
      LastFieldCounts(parts, m, key);
      if FieldsOf(parts, n).Some? {
        if ParseField(parts[m]).value.0 == key {
          assert IsLast(parts, n, m, key);
        } else {
          forall i: nat ensures IsLast(parts, n, i, key) <==> IsLast(parts, m, i, key) {
          }
          assert key in FieldsOf(parts, n).value <==> key in FieldsOf(parts, m).value;
        }
      }
    }
  }

  /** A whole number of at least one in decimal. */
  predicate IsPositive(text: Octets) {
    ParseInt(text).Some? && (ParseInt(text).value as int) >= 1
  }

  function ValueOf(fields: Fields, key: Octets): Octets {
    if key in fields then fields[key] else ""
  }

  /** Each refusal by the first field at fault, and what is read when there is none. */
  predicate ReadsAs(fields: Fields, r: Result) {
    var id, algorithm := ValueOf(fields, "agent_id"), ValueOf(fields, "algorithm");
    var timestamp, signature := ValueOf(fields, "timestamp"), ValueOf(fields, "signature");
    && (r == Err(MissingAgentID) <==> |id| == 0)
    && (r == Err(InvalidAgentID) <==> |id| > 0 && !IsPositive(id))
    && (r == Err(MissingAlgorithm) <==> IsPositive(id) && |algorithm| == 0)
    && (r == Err(MissingTimestamp) <==> IsPositive(id) && |algorithm| > 0 && |timestamp| == 0)
    && (r == Err(InvalidTimestamp) <==> IsPositive(id) && |algorithm| > 0 && |timestamp| > 0 && ParseInt(timestamp) == None)
    && (r == Err(MissingSignature) <==> IsPositive(id) && |algorithm| > 0 && ParseInt(timestamp) != None && |signature| == 0)
    && (r == Err(InvalidSignatureEncoding) <==>
          IsPositive(id) && |algorithm| > 0 && ParseInt(timestamp) != None && |signature| > 0 && Decode(UrlRaw, signature) == None)
    && (r.Ok? <==>
          IsPositive(id) && |algorithm| > 0 && ParseInt(timestamp) != None && |signature| > 0 && Decode(UrlRaw, signature) != None)
    && (r.Ok? ==>
          r.parsed == ParsedSignature(ParseInt(id).value, algorithm, ParseInt(timestamp).value, Decode(UrlRaw, signature).value))
  }

  /** A header is refused for a part without an equals sign before anything else; the rest goes by the
      fields. */
  lemma RefusedExactly(header: Octets)
    ensures var parts := Split(header, ',');
      && (Parse(header) == Err(MalformedField) <==> HasBarePart(parts))
      && (Parse(header) != Err(MalformedField) ==>
            FieldsOf(parts, |parts|).Some? && ReadsAs(FieldsOf(parts, |parts|).value, Parse(header)))
  {
    hide Split, FieldsOf, Interpret, ReadsAs, HasBarePart;
    MalformedExactly(header);
    if Parse(header) != Err(MalformedField) {
      var parts := Split(header, ',');
      InterpretExactly(FieldsOf(parts, |parts|).value);
    }
  }

  /** A part without an equals sign. */
  predicate HasBarePart(parts: seq<Octets>) {
    exists i :: 0 <= i < |parts| && '=' !in parts[i]
  }

  lemma MalformedExactly(header: Octets)
    ensures var parts := Split(header, ',');
      && (Parse(header) == Err(MalformedField) <==> HasBarePart(parts))
      && (Parse(header) != Err(MalformedField) ==> FieldsOf(parts, |parts|).Some?)
  {
    hide ParseField, Split, FieldsOf;
    var parts := Split(header, ',');
    LastFieldCounts(parts, |parts|, []);
    forall i | 0 <= i < |parts| ensures ParseField(parts[i]).Some? <==> '=' in parts[i] {
      FieldExactly(parts[i]);
    }
    match FieldsOf(parts, |parts|)
    case None =>
      var i :| 0 <= i < |parts| && !ParseField(parts[i]).Some?;
      assert '=' !in parts[i];
    case Some(fields) =>
      assert forall i :: 0 <= i < |parts| ==> ParseField(parts[i]).Some?;
      NeverMalformed(fields);
  }

  lemma NeverMalformed(fields: Fields)
    ensures Interpret(fields) != Err(MalformedField)
  {
    hide Decode, ParseInt;
  }

  lemma InterpretExactly(fields: Fields)
    ensures ReadsAs(fields, Interpret(fields))
  {
    hide Decode, ParseInt;
    NothingIsNoNumber();
    assert forall key: Octets :: ValueOf(fields, key) == Field(fields, key);
  }

  lemma NothingIsNoNumber()
    ensures ParseInt([]) == None
  {
  }

  /** The header as text: four fields with their values in quotes, a comma and a space between. An id that
      is not positive is printed as the largest there is. */
  lemma HeaderTextIs(agentID: Int64, timestamp: Int64, signature: Octets)
    ensures var id: Int64 := if (agentID as int) > 0 then agentID else 9223372036854775807;
      HeaderText(agentID, timestamp, signature) ==
        "agent_id=\"" + FormatInt(id) + "\"" + [','] +
        (" algorithm=\"Ed25519\"" + [','] +
         (" timestamp=\"" + FormatInt(timestamp) + "\"" + [','] +
          (" signature=\"" + Encode(UrlRaw, signature) + "\"")))
  {
    var parts := HeaderParts(agentID, timestamp, signature);
    var id: Int64 := if (agentID as int) > 0 then agentID else 9223372036854775807;
    assert HeaderAgentID(agentID) == id;
    IDField(FormatInt(id));
    AlgorithmField();
    TimestampField(FormatInt(timestamp));
    SignatureField(Encode(UrlRaw, signature));
    hide FormatInt, Encode, Join, FieldText;
    JoinFour(parts[0], parts[1], parts[2], parts[3]);
    assert parts == [parts[0], parts[1], parts[2], parts[3]];
  }

  lemma IDField(value: Octets)
    ensures FieldText("agent_id", value) == "agent_id=\"" + value + "\""
  {
    assert "agent_id" + "=\"" == "agent_id=\"";
  }

  lemma AlgorithmField()
    ensures [' '] + FieldText("algorithm", "Ed25519") == " algorithm=\"Ed25519\""
  {
  }

  lemma TimestampField(value: Octets)
    ensures [' '] + FieldText("timestamp", value) == " timestamp=\"" + value + "\""
  {
    assert [' '] + "timestamp" + "=\"" == " timestamp=\"";
  }

  lemma SignatureField(value: Octets)
    ensures [' '] + FieldText("signature", value) == " signature=\"" + value + "\""
  {
    assert [' '] + "signature" + "=\"" == " signature=\"";
  }

  lemma JoinFour(a: Octets, b: Octets, c: Octets, d: Octets)
    ensures Join([a, b, c, d], ',') == a + [','] + (b + [','] + (c + [','] + d))
  {
    assert [a, b, c, d][1..] == [b, c, d] && [b, c, d][1..] == [c, d] && [c, d][1..] == [d];
    assert Join([c, d], ',') == c + [','] + d;
    assert Join([b, c, d], ',') == b + [','] + Join([c, d], ',');
  }
}
