/** Constraints of a standing approval in their flat form (api/standing_approvals.go,
    api/standing_approval_constraint_keys.go, db/relative_date.go, db/data_window.go): the values are
    validated and bare globs wrapped as patterns, the keys are checked against the action, and every
    parameter left out is filled in as a wildcard. `parseTime` reads an RFC 3339 time stamp. */
module Constraints {
  import opened Octets
  import opened Options
  import opened Decimals

  datatype Json =
    | Null
    | Bool(b: bool)
    | Number(n: real)
    | Str(s: Octets)
    | List(items: seq<Json>)
    | Object(fields: map<Octets, Json>)

  type Document = map<Octets, Json>

  const META: Octets := "$meta"
  const DATA_WINDOW: Octets := "$data_window"
  const PATTERN: Octets := "$pattern"
  const WILDCARD := Str("*")

  /** What is known of an action: its parameters (none known when it has no schema), which of them are
      dates, the metadata its connector can verify, and whether it takes a data window. */
  datatype Action = Action(schema: Option<set<Octets>>, temporal: set<Octets>, metaFields: Option<set<Octets>>, hasWindow: bool)

  // ---- Values --------------------------------------------------------------------------------------

  predicate IsRelativeDate(token: Octets) {
    var s := TrimSpace(token);
    || s == "@today" || s == "@yesterday" || s == "@now"
    || (|s| >= 3 && s[0] == '-' && s[|s| - 1] == 'd'
        && (forall i :: 1 <= i < |s| - 1 ==> IsDigit(s[i]))
        && ParseInt(s[1..|s| - 1]).Some? && ParseInt(s[1..|s| - 1]).value >= 1)
  }

  predicate IsDateToken(v: Json) {
    v.Str? && IsRelativeDate(v.s)
  }

  function Wrap(pattern: Octets): Json {
    Object(map[PATTERN := Str(pattern)])
  }

  /** A bare string with a `*` in it, other than the wildcard. */
  predicate IsGlob(v: Json) {
    v.Str? && v.s != "*" && '*' in v.s
  }

  /** A glob becomes a pattern. */
  function WrapGlob(v: Json): Json {
    if IsGlob(v) then Wrap(v.s) else v
  }

  predicate Timestamp(parseTime: Octets -> Option<int>, v: Json) {
    v.Str? && v.s != [] && parseTime(v.s).Some?
  }

  predicate WindowField(parseTime: Octets -> Option<int>, key: Octets, v: Json) {
    if key == "starts_at" || key == "ends_at" then Timestamp(parseTime, v)
    else key == "last_days" && v.Number? && v.n == v.n.Floor as real && v.n >= 1.0
  }

  /** At least one bound, `last_days` never with `starts_at`, and the end after the start. */
  predicate IsDataWindow(parseTime: Octets -> Option<int>, v: Json) {
    && v.Object? && v.fields != map[]
    && (forall key :: key in v.fields ==> WindowField(parseTime, key, v.fields[key]))
    && !("last_days" in v.fields && "starts_at" in v.fields)
    && ("starts_at" in v.fields && "ends_at" in v.fields ==>
          parseTime(v.fields["ends_at"].s).value > parseTime(v.fields["starts_at"].s).value)
  }

  predicate IsAllowedValue(v: Json) {
    v.Str? || v.Null? || v.Number? || v.Bool? || (v.Object? && v.fields.Keys == {PATTERN})
  }

  /** A minus, the digits of a positive number of days with any zeros before them, and a `d`. */
  predicate IsOffset(token: Octets, zeros: nat, days: nat) {
    1 <= days <= MAX_INT64 && token == ['-'] + (Zeros(zeros) + Digits(days)) + ['d']
  }

  lemma {:induction false} NumberHasDigits(s: Octets)
    requires Decimals.Number(s).Some?
    ensures s != [] && forall i :: 0 <= i < |s| ==> IsDigit(s[i])
  {
    if |s| > 1 {
      NumberHasDigits(s[..|s| - 1]);
    }
  }

  lemma DigitsAreUnsigned(s: Octets)
    requires s != [] && forall i :: 0 <= i < |s| ==> IsDigit(s[i])
    ensures ParseInt(s).Some? <==> Decimals.Number(s).Some? && Decimals.Number(s).value <= MAX_INT64
    ensures ParseInt(s).Some? ==> ParseInt(s).value as int == Decimals.Number(s).value
  {
  }

  /** Which texts are date tokens: white space aside, one of the three names or an offset. */
  lemma DateTokensExactly(text: Octets)
    ensures var s := TrimSpace(text);
      IsRelativeDate(text) <==>
        s == "@today" || s == "@yesterday" || s == "@now" || exists zeros, days :: IsOffset(s, zeros, days)
  {
    hide Digits, ParseInt, Decimals.Number;
    var s := TrimSpace(text);
    if zeros: nat, days: nat :| IsOffset(s, zeros, days) {
      var digits := Zeros(zeros) + Digits(days);
      PaddedReadsBack(zeros, days);
      NumberHasDigits(digits);
      DigitsAreUnsigned(digits);
      assert s[1..|s| - 1] == digits;
      assert forall i :: 1 <= i < |s| - 1 ==> s[i] == digits[i - 1];
    }
    if IsRelativeDate(text) && s != "@today" && s != "@yesterday" && s != "@now" {
      var digits := s[1..|s| - 1];
      assert forall i :: 0 <= i < |digits| ==> digits[i] == s[i + 1];
      DigitsAreUnsigned(digits);
      var zeros := NumberIsPadded(digits);
      assert s == ['-'] + digits + ['d'];
      assert IsOffset(s, zeros, Decimals.Number(digits).value);
    }
  }

  lemma {:induction false} TrimLeftKeepsStars(s: Octets)
    ensures '*' in s <==> '*' in TrimLeft(s, IsSpace)
  {
    if s != [] && IsSpace(s[0]) {
      TrimLeftKeepsStars(s[1..]);
      assert s == [s[0]] + s[1..];
    }
  }

  lemma {:induction false} TrimRightKeepsStars(s: Octets)
    ensures '*' in s <==> '*' in TrimRight(s, IsSpace)
  {
    if s != [] && IsSpace(s[|s| - 1]) {
      TrimRightKeepsStars(s[..|s| - 1]);
      assert s == s[..|s| - 1] + [s[|s| - 1]];
    }
  }

  /** A date token is never a glob, so that letting it pass first never keeps a glob from being wrapped. */
  lemma DateTokensAreNotGlobs(s: Octets)
    requires IsRelativeDate(s)
    ensures '*' !in s
  {
    TrimLeftKeepsStars(s);
    TrimRightKeepsStars(TrimLeft(s, IsSpace));
    assert TrimSpace(s) == TrimRight(TrimLeft(s, IsSpace), IsSpace);
  }

  // ---- The three passes ------------------------------------------------------------------------------

  predicate EntryValid(parseTime: Octets -> Option<int>, key: Octets, v: Json) {
    if key == META then v.Null? || (v.Object? && forall k :: k in v.fields ==> k != [] && !v.fields[k].Null?)
    else if key == DATA_WINDOW then IsDataWindow(parseTime, v)
    else !v.Null?
  }

  function WrapAll(fields: map<Octets, Json>): map<Octets, Json> {
    map k | k in fields :: WrapGlob(fields[k])
  }

  function Normalized(key: Octets, v: Json): Json {
    if key == META then (if v.Object? then Object(WrapAll(v.fields)) else v)
    else if key == DATA_WINDOW || IsDateToken(v) then v
    else WrapGlob(v)
  }

  predicate Valid(parseTime: Octets -> Option<int>, doc: Document) {
    forall key :: key in doc ==> EntryValid(parseTime, key, doc[key])
  }

  function NormalizeAll(doc: Document): Document {
    map key | key in doc :: Normalized(key, doc[key])
  }

  predicate MetaAllowed(action: Action, v: Json) {
    v.Null? || (v.Object? && (v.fields != map[] ==> action.metaFields.Some? && v.fields.Keys <= action.metaFields.value))
  }

  predicate KeyAllowed(action: Action, key: Octets, v: Json) {
    if IsDateToken(v) then action.schema.Some? ==> key in action.schema.value && key in action.temporal
    else if key == [] then false
    else if action.schema.Some? then key in action.schema.value && IsAllowedValue(v)
    else !(action.metaFields.Some? && key in action.metaFields.value) && IsAllowedValue(v)
  }

  predicate Checked(parseTime: Octets -> Option<int>, action: Action, doc: Document) {
    && (META in doc ==> MetaAllowed(action, doc[META]))
    && (DATA_WINDOW in doc ==> IsDataWindow(parseTime, doc[DATA_WINDOW]) && action.hasWindow)
    && (forall key :: key in doc && key != META && key != DATA_WINDOW ==> KeyAllowed(action, key, doc[key]))
  }

  function Parameters(action: Action): set<Octets> {
    if action.schema.Some? then action.schema.value else {}
  }

  function Fill(action: Action, doc: Document): Document {
    doc + map key | key in Parameters(action) - doc.Keys :: WILDCARD
  }

  /** Documents of the structured form take another path. */
  predicate IsStructured(v: Json) {
    v.Object? && "$version" in v.fields && v.fields["$version"] == Number(2.0)
  }

  /** What is stored for a flat document, or nothing when it is rejected. */
  function Stored(parseTime: Octets -> Option<int>, action: Action, raw: Option<Json>): Option<Document>
    requires raw.Some? ==> !IsStructured(raw.value)
  {
    if raw.None? || !raw.value.Object? || !Valid(parseTime, raw.value.fields) then None
    else
      var normalized := NormalizeAll(raw.value.fields);
      if Checked(parseTime, action, normalized) then Some(Fill(action, normalized)) else None
  }

  // ---- A normal form -----------------------------------------------------------------------------------

  /** The keys that mean something else than a parameter of that name. */
  const RESERVED: set<Octets> := {[], META, DATA_WINDOW}

  lemma NormalizedTwice(key: Octets, v: Json)
    ensures Normalized(key, Normalized(key, v)) == Normalized(key, v)
  {
    if key == META && v.Object? {
      assert WrapAll(WrapAll(v.fields)) == WrapAll(v.fields);
    }
  }

  /** Of the parameters exactly the globs are rewritten. */
  lemma RewritesGlobsExactly(key: Octets, v: Json)
    requires key != META && key != DATA_WINDOW
    ensures Normalized(key, v) == if IsGlob(v) then Wrap(v.s) else v
  {
    if IsDateToken(v) {
      DateTokensAreNotGlobs(v.s);
    }
  }

  lemma NormalizedStaysValid(parseTime: Octets -> Option<int>, key: Octets, v: Json)
    requires EntryValid(parseTime, key, v)
    ensures EntryValid(parseTime, key, Normalized(key, v))
  {
    if key == META && v.Object? {
      var fields := WrapAll(v.fields);
      assert forall k :: k in fields ==> k != [] && !fields[k].Null?;
    }
  }

  lemma WildcardIsPlain(action: Action, key: Octets)
    requires key != [] && key in Parameters(action)
    ensures !IsDateToken(WILDCARD) && KeyAllowed(action, key, WILDCARD) && Normalized(key, WILDCARD) == WILDCARD
  {
    assert TrimSpace("*") == "*";
  }

  /** Of the keys of a stored document all but the reserved two are parameters. */
  lemma StoredKeys(parseTime: Octets -> Option<int>, action: Action, doc: Document)
    requires !IsStructured(Object(doc)) && Stored(parseTime, action, Some(Object(doc))).Some? && Parameters(action) != {}
    ensures var out := Stored(parseTime, action, Some(Object(doc))).value;
      && out.Keys == Parameters(action) + (doc.Keys * {META, DATA_WINDOW})
      && (forall key :: key in out ==> out[key] == if key in doc then Normalized(key, doc[key]) else WILDCARD)
  {
    var normalized := NormalizeAll(doc);
    forall key | key in doc ensures key in Parameters(action) || key == META || key == DATA_WINDOW {
      assert key in normalized;
    }
  }

  lemma AcceptedAgain(parseTime: Octets -> Option<int>, action: Action, doc: Document)
    requires !IsStructured(Object(doc)) && Stored(parseTime, action, Some(Object(doc))).Some?
    requires RESERVED * Parameters(action) <= doc.Keys
    ensures var out := Stored(parseTime, action, Some(Object(doc))).value;
      !IsStructured(Object(out)) && Stored(parseTime, action, Some(Object(out))) == Some(out)
  {
    hide IsDataWindow, IsDateToken, KeyAllowed, WrapGlob, MetaAllowed;
    var normalized := NormalizeAll(doc);
    var out := Fill(action, normalized);
    forall key | key in out && key !in doc ensures key in Parameters(action) && key !in RESERVED {
    }
    forall key | key in out ensures EntryValid(parseTime, key, out[key]) && Normalized(key, out[key]) == out[key] {
      if key in doc {
        NormalizedTwice(key, doc[key]);
        NormalizedStaysValid(parseTime, key, doc[key]);
      } else {
        WildcardIsPlain(action, key);
      }
    }
    forall key | key in out && key != META && key != DATA_WINDOW ensures KeyAllowed(action, key, out[key]) {
      if key in doc {
        assert key in normalized && out[key] == normalized[key];
      } else {
        WildcardIsPlain(action, key);
      }
    }
    assert NormalizeAll(out) == out;
    assert Fill(action, out) == out;
    NotStructured(doc, normalized, out);
  }

  lemma NotStructured(doc: Document, normalized: Document, out: Document)
    requires !IsStructured(Object(doc)) && normalized == NormalizeAll(doc)
    requires forall key :: key in out ==> out[key] == WILDCARD || (key in normalized && out[key] == normalized[key])
    ensures !IsStructured(Object(out))
  {
  }

  lemma RejectedAgain(parseTime: Octets -> Option<int>, action: Action, doc: Document, key: Octets)
    requires !IsStructured(Object(doc)) && Stored(parseTime, action, Some(Object(doc))).Some?
    requires key in RESERVED * Parameters(action) && key !in doc
    ensures var out := Stored(parseTime, action, Some(Object(doc))).value;
      !IsStructured(Object(out)) && Stored(parseTime, action, Some(Object(out))) == None
  {
    hide IsDateToken, KeyAllowed, WrapGlob, Checked, Valid;
    var normalized := NormalizeAll(doc);
    var out := Fill(action, normalized);
    assert key in out && out[key] == WILDCARD;
    NotStructured(doc, normalized, out);
    ReservedWildcard(parseTime, action, out, key);
  }

  lemma ReservedWildcard(parseTime: Octets -> Option<int>, action: Action, out: Document, key: Octets)
    requires key in RESERVED && key in out && out[key] == WILDCARD
    ensures !Valid(parseTime, out) || !Checked(parseTime, action, NormalizeAll(out))
  {
    if key == [] {
      EmptyKeyIsRejected(action);
      assert NormalizeAll(out)[key] == Normalized(key, WILDCARD) == WILDCARD;
    } else {
      assert !EntryValid(parseTime, key, WILDCARD);
    }
  }

  /** Storing what was stored: the result is accepted again, and then unchanged, exactly when every
      parameter that bears a reserved name was given in the first document. */
  lemma StoringTwiceExactly(parseTime: Octets -> Option<int>, action: Action, doc: Document)
    requires !IsStructured(Object(doc)) && Stored(parseTime, action, Some(Object(doc))).Some?
    ensures !IsStructured(Object(Stored(parseTime, action, Some(Object(doc))).value))
    ensures var out := Stored(parseTime, action, Some(Object(doc))).value;
      var again := Stored(parseTime, action, Some(Object(out)));
      && (again.Some? ==> again.value == out)
      && (again.Some? <==> RESERVED * Parameters(action) <= doc.Keys)
  {
    hide Stored;
    if RESERVED * Parameters(action) <= doc.Keys {
      AcceptedAgain(parseTime, action, doc);
    } else {
      var key :| key in RESERVED * Parameters(action) && key !in doc.Keys;
      RejectedAgain(parseTime, action, doc, key);
    }
  }

  lemma EmptyKeyIsRejected(action: Action)
    ensures !KeyAllowed(action, [], WILDCARD) && Normalized([], WILDCARD) == WILDCARD
  {
    assert TrimSpace("*") == "*";
  }

  // ---- Which documents are stored, entry by entry ----------------------------------------------------

  predicate StoredAlone(parseTime: Octets -> Option<int>, action: Action, key: Octets, v: Json)
  {
    var doc: Document := map[key := v];
    !IsStructured(Object(doc)) && Stored(parseTime, action, Some(Object(doc))).Some?
  }

  /** A document is stored exactly when each of its entries would be stored alone; with no entry it always is. */
  lemma StoredEntrywise(parseTime: Octets -> Option<int>, action: Action, doc: Document)
    requires !IsStructured(Object(doc))
    ensures Stored(parseTime, action, Some(Object(doc))).Some? <==>
      forall key :: key in doc ==> StoredAlone(parseTime, action, key, doc[key])
  {
    hide EntryValid, Normalized, KeyAllowed, MetaAllowed, IsDataWindow, StoredAlone;
    forall key | key in doc ensures StoredAlone(parseTime, action, key, doc[key]) <==> EntryStored(parseTime, action, key, doc[key]) {
      AloneIsEntry(parseTime, action, key, doc[key]);
    }
    if forall key :: key in doc ==> EntryStored(parseTime, action, key, doc[key]) {
      EntriesMakeDocument(parseTime, action, doc);
    }
    if Stored(parseTime, action, Some(Object(doc))).Some? {
      DocumentMakesEntries(parseTime, action, doc);
    }
  }

  /** The conditions on one entry: on its value as given, and on its key with the value as normalized. */
  predicate EntryStored(parseTime: Octets -> Option<int>, action: Action, key: Octets, v: Json) {
    && EntryValid(parseTime, key, v)
    && (if key == META then MetaAllowed(action, Normalized(key, v))
        else if key == DATA_WINDOW then IsDataWindow(parseTime, v) && action.hasWindow
        else KeyAllowed(action, key, Normalized(key, v)))
  }

  lemma AloneIsEntry(parseTime: Octets -> Option<int>, action: Action, key: Octets, v: Json)
    requires !(key == "$version" && v == Number(2.0))
    ensures StoredAlone(parseTime, action, key, v) <==> EntryStored(parseTime, action, key, v)
  {
    hide EntryStored, Stored;
    var doc: Document := map[key := v];
    assert "$version" in doc ==> key == "$version";
    if EntryStored(parseTime, action, key, v) {
      EntriesMakeDocument(parseTime, action, doc);
    }
    if Stored(parseTime, action, Some(Object(doc))).Some? {
      DocumentMakesEntries(parseTime, action, doc);
      assert key in doc && doc[key] == v;
    }
  }

  lemma EntriesMakeDocument(parseTime: Octets -> Option<int>, action: Action, doc: Document)
    requires !IsStructured(Object(doc)) && forall key :: key in doc ==> EntryStored(parseTime, action, key, doc[key])
    ensures Stored(parseTime, action, Some(Object(doc))).Some?
  {
    hide EntryValid, KeyAllowed, MetaAllowed, IsDataWindow, IsDateToken, WrapGlob;
    var n := NormalizeAll(doc);
    assert forall key :: key in n ==> key in doc && n[key] == Normalized(key, doc[key]);
  }

  lemma DocumentMakesEntries(parseTime: Octets -> Option<int>, action: Action, doc: Document)
    requires !IsStructured(Object(doc)) && Stored(parseTime, action, Some(Object(doc))).Some?
    ensures forall key :: key in doc ==> EntryStored(parseTime, action, key, doc[key])
  {
    hide EntryValid, KeyAllowed, MetaAllowed, IsDataWindow, IsDateToken, WrapGlob;
    var n := NormalizeAll(doc);
    forall key | key in doc ensures EntryStored(parseTime, action, key, doc[key]) {
      assert key in n && n[key] == Normalized(key, doc[key]);
    }
  }

  /** A parameter is stored exactly when it is not null and the action knows it: a date token for a date, any
      other string, number, truth value or lone pattern for every parameter. Without a schema every name is
      known that is not one of the verified metadata; no parameter has the empty name. */
  lemma ParameterExactly(parseTime: Octets -> Option<int>, action: Action, key: Octets, v: Json)
    requires key != "$meta" && key != "$data_window" && !(key == "$version" && v == Number(2.0))
    ensures StoredAlone(parseTime, action, key, v) <==>
      if v.Str? && IsRelativeDate(v.s) then action.schema == None || (key in action.schema.value && key in action.temporal)
      else
        && |key| > 0
        && (if action.schema != None then key in action.schema.value
            else action.metaFields == None || key !in action.metaFields.value)
        && match v
           case Null => false
           case Bool(_) => true
           case Number(_) => true
           case Str(_) => true
           case List(_) => false
           case Object(fields) => forall k :: k in fields <==> k == "$pattern"
  {
    AloneIsEntry(parseTime, action, key, v);
    RewritesGlobsExactly(key, v);
    hide IsRelativeDate, StoredAlone, Normalized;
    assert v.Object? ==> (v.fields.Keys == {PATTERN} <==> forall k :: k in v.fields <==> k == "$pattern");
    assert v.Str? && IsGlob(v) ==> Wrap(v.s).fields.Keys == {PATTERN};
    if v.Str? && IsRelativeDate(v.s) {
      DateTokensAreNotGlobs(v.s);
    }
  }

  /** Verified metadata is stored exactly when it is null or an object without empty names and null values,
      and, unless that is empty, of metadata the connector can verify. */
  lemma MetaExactly(parseTime: Octets -> Option<int>, action: Action, v: Json)
    ensures StoredAlone(parseTime, action, "$meta", v) <==>
      match v
      case Null => true
      case Object(fields) =>
        && (forall k :: k in fields ==> |k| > 0 && !fields[k].Null?)
        && (fields != map[] ==> action.metaFields != None && forall k :: k in fields ==> k in action.metaFields.value)
      case _ => false
  {
    AloneIsEntry(parseTime, action, "$meta", v);
    hide StoredAlone, WrapGlob;
    if v.Object? {
      assert WrapAll(v.fields).Keys == v.fields.Keys;
      assert WrapAll(v.fields) == map[] <==> v.fields == map[];
    }
  }

  predicate IsTime(parseTime: Octets -> Option<int>, v: Json) {
    v.Str? && |v.s| > 0 && parseTime(v.s) != None
  }

  /** A data window is stored exactly for an action that takes one, with at least one bound and nothing else
      in it: times that can be read, the start before the end, or a whole number of days of at least one,
      which does not go with a start. */
  lemma DataWindowExactly(parseTime: Octets -> Option<int>, action: Action, v: Json)
    ensures StoredAlone(parseTime, action, "$data_window", v) <==>
      && action.hasWindow && v.Object? && v.fields != map[]
      && (forall k :: k in v.fields ==> k == "starts_at" || k == "ends_at" || k == "last_days")
      && ("starts_at" in v.fields ==> IsTime(parseTime, v.fields["starts_at"]))
      && ("ends_at" in v.fields ==> IsTime(parseTime, v.fields["ends_at"]))
      && ("last_days" in v.fields ==> "starts_at" !in v.fields && v.fields["last_days"].Number? && IsDays(v.fields["last_days"].n))
      && ("starts_at" in v.fields && "ends_at" in v.fields ==>
            parseTime(v.fields["starts_at"].s).value < parseTime(v.fields["ends_at"].s).value)
  {
    AloneIsEntry(parseTime, action, "$data_window", v);
    Reserved();
    WindowIs(parseTime, v);
    hide StoredAlone, IsDataWindow, IsDays, IsTime;
  }

  lemma Reserved()
    ensures META == "$meta" && DATA_WINDOW == "$data_window" && PATTERN == "$pattern" && WILDCARD == Str("*")
    ensures META != DATA_WINDOW && "$version" != DATA_WINDOW
  {
    assert |"$meta"| == 5 && |"$data_window"| == 12 && |"$version"| == 8;
  }

  function Days(d: int): real {
    d as real
  }

  ghost predicate IsDays(n: real) {
    exists d :: d >= 1 && Days(d) == n
  }

  lemma DaysExactly(n: real)
    ensures IsDays(n) <==> n == n.Floor as real && n >= 1.0
  {
    if n == n.Floor as real && n >= 1.0 {
      assert Days(n.Floor) == n;
    }
  }

  lemma WindowIs(parseTime: Octets -> Option<int>, v: Json)
    ensures IsDataWindow(parseTime, v) <==>
      && v.Object? && v.fields != map[]
      && (forall k :: k in v.fields ==> k == "starts_at" || k == "ends_at" || k == "last_days")
      && ("starts_at" in v.fields ==> IsTime(parseTime, v.fields["starts_at"]))
      && ("ends_at" in v.fields ==> IsTime(parseTime, v.fields["ends_at"]))
      && ("last_days" in v.fields ==> "starts_at" !in v.fields && v.fields["last_days"].Number? && IsDays(v.fields["last_days"].n))
      && ("starts_at" in v.fields && "ends_at" in v.fields ==>
            parseTime(v.fields["starts_at"].s).value < parseTime(v.fields["ends_at"].s).value)
  {
    assert |"starts_at"| == 9 && |"ends_at"| == 7 && |"last_days"| == 9 && "starts_at"[0] == 's' && "last_days"[0] == 'l';
    if v.Object? && "last_days" in v.fields && v.fields["last_days"].Number? {
      DaysExactly(v.fields["last_days"].n);
    }
    hide IsDays;
    if v.Object? {
      forall k | k in v.fields ensures WindowField(parseTime, k, v.fields[k]) <==>
        || ((k == "starts_at" || k == "ends_at") && IsTime(parseTime, v.fields[k]))
        || (k == "last_days" && v.fields[k].Number? && v.fields[k].n == v.fields[k].n.Floor as real && v.fields[k].n >= 1.0) {
      }
    }
  }

  /** A range of two times, in a document that is stored without it. */
  lemma RangeExactly(parseTime: Octets -> Option<int>, action: Action, doc: Document, starts: Octets, ends: Octets)
    requires !IsStructured(Object(doc)) && Stored(parseTime, action, Some(Object(doc))).Some? && DATA_WINDOW !in doc
    requires |starts| > 0 && |ends| > 0
    ensures var with := doc[DATA_WINDOW := Object(map["starts_at" := Str(starts), "ends_at" := Str(ends)])];
      && !IsStructured(Object(with))
      && (Stored(parseTime, action, Some(Object(with))).Some? <==>
            action.hasWindow && parseTime(starts) != None && parseTime(ends) != None &&
            parseTime(starts).value < parseTime(ends).value)
  {
    var fields: map<Octets, Json> := map["starts_at" := Str(starts), "ends_at" := Str(ends)];
    var with := doc[DATA_WINDOW := Object(fields)];
    Reserved();
    assert "starts_at" in fields && "ends_at" in fields && "last_days" !in fields by {
      assert |"starts_at"| == 9 && |"ends_at"| == 7 && "starts_at"[0] == 's' && "last_days"[0] == 'l' && |"last_days"| == 9;
    }
    DataWindowExactly(parseTime, action, Object(fields));
    StoredEntrywise(parseTime, action, doc);
    StoredEntrywise(parseTime, action, with);
    hide StoredAlone, Stored;
    assert forall key :: key in with <==> key in doc || key == DATA_WINDOW;
  }

  /** The stored document: the given entries, normalized, and a wildcard for each parameter left out. */
  lemma StoredIs(parseTime: Octets -> Option<int>, action: Action, doc: Document, key: Octets)
    requires !IsStructured(Object(doc)) && Stored(parseTime, action, Some(Object(doc))).Some?
    ensures var out := Stored(parseTime, action, Some(Object(doc))).value;
      && (key in out <==> key in doc || (action.schema != None && key in action.schema.value))
      && (key in out && key !in doc ==> out[key] == Str("*"))
      && (key in doc && key != "$meta" && key != "$data_window" ==>
            out[key] == if doc[key].Str? && doc[key].s != "*" && '*' in doc[key].s
                        then Object(map["$pattern" := Str(doc[key].s)]) else doc[key])
      && (key in doc && key == "$data_window" ==> out[key] == doc[key])
      && (key in doc && key == "$meta" && doc[key].Object? ==>
            && out[key].Object? && out[key].fields.Keys == doc[key].fields.Keys
            && forall k :: k in doc[key].fields ==>
                 var v := doc[key].fields[k];
                 out[key].fields[k] == if v.Str? && v.s != "*" && '*' in v.s then Object(map["$pattern" := Str(v.s)]) else v)
      && (key in doc && key == "$meta" && !doc[key].Object? ==> out[key] == doc[key])
  {
    hide Valid, Checked, IsDateToken;
    Reserved();
    if key in doc && key != META && key != DATA_WINDOW {
      RewritesGlobsExactly(key, doc[key]);
    }
  }

  /** What is no flat object is never stored. */
  lemma OnlyObjectsAreStored(parseTime: Octets -> Option<int>, action: Action, v: Json)
    ensures Stored(parseTime, action, None) == None
    ensures !v.Object? ==> Stored(parseTime, action, Some(v)) == None
  {
  }

  // ---- The passes as they run ----------------------------------------------------------------------

  /** Validates the entries in any order and rewrites the ones that need it in place. */
  method ValidateConstraints(parseTime: Octets -> Option<int>, raw: Option<Json>) returns (out: Option<Document>)
    ensures out == if raw.None? || !raw.value.Object? || !Valid(parseTime, raw.value.fields) then None
                   else Some(NormalizeAll(raw.value.fields))
  {
    hide Wrap, IsRelativeDate, IsDataWindow;
    if raw.None? || !raw.value.Object? {
      return None;
    }
    var given := raw.value.fields;
    var obj := given;
    var mutated := false;
    var todo := obj.Keys;
    while todo != {}
      invariant todo <= given.Keys == obj.Keys
      invariant forall k :: k in given ==> obj[k] == if k in todo then given[k] else Normalized(k, given[k])
      invariant forall k :: k in given && k !in todo ==> EntryValid(parseTime, k, given[k])
      invariant !mutated ==> obj == given
      decreases |todo|
    {
      var key :| key in todo;
      todo := todo - {key};
      var v := obj[key];
      if key == META {
        if !v.Null? && !v.Object? {
          return None;
        }
        var meta := if v.Object? then v.fields else map[];
        var wrapped, changed, ok := WrapMeta(meta);
        if !ok {
          return None;
        }
        if changed {
          obj := obj[key := Object(wrapped)];
          mutated := true;
        }
      } else if key == DATA_WINDOW {
        if !IsDataWindow(parseTime, v) {
          return None;
        }
      } else if IsDateToken(v) {
      } else if v.Null? {
        return None;
      } else if IsGlob(v) {
        obj := obj[key := Wrap(v.s)];
        mutated := true;
      }
    }
    assert obj == NormalizeAll(given);
    out := if mutated then Some(obj) else Some(given);
  }

  method WrapMeta(meta: map<Octets, Json>) returns (wrapped: map<Octets, Json>, changed: bool, ok: bool)
    ensures ok <==> forall k :: k in meta ==> k != [] && !meta[k].Null?
    ensures ok ==> wrapped == WrapAll(meta) && (!changed ==> wrapped == meta) && (changed ==> meta != map[])
  {
    hide Wrap;
    wrapped, changed := meta, false;
    var todo := meta.Keys;
    while todo != {}
      invariant todo <= meta.Keys == wrapped.Keys
      invariant forall k :: k in todo ==> wrapped[k] == meta[k]
      invariant forall k :: k in meta && k !in todo ==> wrapped[k] == WrapGlob(meta[k]) && k != [] && !meta[k].Null?
      invariant (!changed ==> wrapped == meta) && (changed ==> meta != map[])
      decreases |todo|
    {
      var key :| key in todo;
      todo := todo - {key};
      var v := wrapped[key];
      if key == [] || v.Null? {
        return wrapped, changed, false;
      }
      if IsGlob(v) {
        wrapped := wrapped[key := Wrap(v.s)];
        changed := true;
      }
      assert wrapped[key] == WrapGlob(v);
    }
    assert wrapped == WrapAll(meta);
    ok := true;
  }

  method CheckKeys(parseTime: Octets -> Option<int>, action: Action, obj: Document) returns (ok: bool)
    ensures ok == Checked(parseTime, action, obj)
  {
    if META in obj {
      var meta := obj[META];
      if !meta.Null? && !meta.Object? {
        return false;
      }
      if meta.Object? && meta.fields != map[] {
        if action.metaFields.None? || !(meta.fields.Keys <= action.metaFields.value) {
          return false;
        }
      }
    }
    if DATA_WINDOW in obj && (!IsDataWindow(parseTime, obj[DATA_WINDOW]) || !action.hasWindow) {
      return false;
    }
    var todo := obj.Keys;
    while todo != {}
      invariant todo <= obj.Keys
      invariant forall k :: k in obj && k !in todo && k != META && k != DATA_WINDOW ==> KeyAllowed(action, k, obj[k])
      decreases |todo|
    {
      var key :| key in todo;
      todo := todo - {key};
      if key == META || key == DATA_WINDOW {
        continue;
      }
      var v := obj[key];
      if IsDateToken(v) {
        if action.schema.Some? && (key !in action.schema.value || key !in action.temporal) {
          return false;
        }
      } else if key == [] {
        return false;
      } else if action.schema.Some? {
        if key !in action.schema.value || !IsAllowedValue(v) {
          return false;
        }
      } else if (action.metaFields.Some? && key in action.metaFields.value) || !IsAllowedValue(v) {
        return false;
      }
    }
    ok := true;
  }

  method FillMissingWildcards(action: Action, constraints: Document) returns (obj: Document)
    ensures obj == Fill(action, constraints)
  {
    obj := constraints;
    if action.schema.None? || action.schema.value == {} {
      return;
    }
    var todo := action.schema.value;
    while todo != {}
      invariant todo <= action.schema.value
      invariant obj.Keys == constraints.Keys + (action.schema.value - todo)
      invariant forall k :: k in obj ==> obj[k] == if k in constraints then constraints[k] else WILDCARD
      decreases |todo|
    {
      var key :| key in todo;
      todo := todo - {key};
      if key !in obj {
        obj := obj[key := WILDCARD];
      }
    }
    assert obj == Fill(action, constraints);
  }

  method ValidateForAction(parseTime: Octets -> Option<int>, action: Action, raw: Option<Json>) returns (out: Option<Document>)
    requires raw.Some? ==> !IsStructured(raw.value)
    ensures out == Stored(parseTime, action, raw)
  {
    var normalized := ValidateConstraints(parseTime, raw);
    if normalized.None? {
      return None;
    }
    var ok := CheckKeys(parseTime, action, normalized.value);
    if !ok {
      return None;
    }
    var filled := FillMissingWildcards(action, normalized.value);
    out := Some(filled);
  }
}
