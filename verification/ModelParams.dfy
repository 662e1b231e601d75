/** The seven model parameters that the CLI stores in an env file under a common key prefix, and
    reads back from it. */
module ModelParams {
  import opened Text
  import opened EnvFile

  datatype ModelParamValues = ModelParamValues(
    latencyClass: Option<string>,
    speedTier: Option<string>,
    temperature: Option<string>,
    topP: Option<string>,
    maxOutputTokens: Option<string>,
    reasoningEffort: Option<string>,
    timeoutSeconds: Option<string>)

  const SUFFIXES: seq<string> :=
    ["LATENCY_CLASS", "SPEED_TIER", "TEMPERATURE", "TOP_P", "MAX_OUTPUT_TOKENS", "REASONING_EFFORT", "TIMEOUT_SECONDS"]

  function Fields(p: ModelParamValues): seq<Option<string>> {
    [p.latencyClass, p.speedTier, p.temperature, p.topP, p.maxOutputTokens, p.reasoningEffort, p.timeoutSeconds]
  }

  function KeyAt(prefix: string, i: nat): string
    requires i < 7
  {
    prefix + ['_'] + SUFFIXES[i]
  }

  // ---------------------------------------------------------------------------------------------
  // Writing
  // ---------------------------------------------------------------------------------------------

  /** The text after the first `n` parameters are written, in the order of the suffixes. */
  function Applied(text: string, prefix: string, params: ModelParamValues, n: nat): string
    requires n <= 7
  {
    if n == 0 then text
    else Replaced(Applied(text, prefix, params, n - 1), KeyAt(prefix, n - 1), Fields(params)[n - 1].GetOr(""))
  }

  method ApplyModelParamValues(envText: string, prefix: string, params: ModelParamValues) returns (r: string)
    ensures r == Applied(envText, prefix, params, 7)
  {
    var rows := [
      ("LATENCY_CLASS", params.latencyClass),
      ("SPEED_TIER", params.speedTier),
      ("TEMPERATURE", params.temperature),
      ("TOP_P", params.topP),
      ("MAX_OUTPUT_TOKENS", params.maxOutputTokens),
      ("REASONING_EFFORT", params.reasoningEffort),
      ("TIMEOUT_SECONDS", params.timeoutSeconds)];
    assert forall i :: 0 <= i < 7 ==> rows[i].0 == SUFFIXES[i] && rows[i].1 == Fields(params)[i];
    r := envText;
    for n := 0 to 7
      invariant r == Applied(envText, prefix, params, n)
    {
      r := ReplaceEnvLine(r, prefix + ['_'] + rows[n].0, rows[n].1.GetOr(""));
    }
  }

  // ---------------------------------------------------------------------------------------------
  // Reading
  // ---------------------------------------------------------------------------------------------

  function EnvValue(values: map<string, string>, name: string): Option<string> {
    if name in values && Trim(values[name]) != "" then Some(values[name]) else None
  }

  function NonEmpty(value: string): Option<string> {
    if Trim(value) == "" then None else Some(Trim(value))
  }

  function ReadParam(values: map<string, string>, name: string): Option<string> {
    match EnvValue(values, name)
    case Some(v) => NonEmpty(v)
    case None => None
  }

  function ModelParamValuesFromEnv(values: map<string, string>, prefix: string): ModelParamValues {
    ModelParamValues(
      ReadParam(values, prefix + ['_'] + "LATENCY_CLASS"),
      ReadParam(values, prefix + ['_'] + "SPEED_TIER"),
      ReadParam(values, prefix + ['_'] + "TEMPERATURE"),
      ReadParam(values, prefix + ['_'] + "TOP_P"),
      ReadParam(values, prefix + ['_'] + "MAX_OUTPUT_TOKENS"),
      ReadParam(values, prefix + ['_'] + "REASONING_EFFORT"),
      ReadParam(values, prefix + ['_'] + "TIMEOUT_SECONDS"))
  }

  // ---------------------------------------------------------------------------------------------
  // Round trip
  // ---------------------------------------------------------------------------------------------

  /** A prefix under which every parameter key is a well-formed env key. */
  predicate IsKeyPrefix(prefix: string) {
    && '=' !in prefix && '\n' !in prefix
    && (prefix == "" || (prefix[0] != '#' && !IsWhitespace(prefix[0])))
  }

  predicate AreSingleLine(params: ModelParamValues) {
    forall i :: 0 <= i < 7 && Fields(params)[i].Some? ==> '\n' !in Fields(params)[i].value
  }

  /** A present value that a parameter can hold across a write and a read. */
  predicate IsStorable(value: string) {
    value != "" && IsTrimmed(value) && IsCommentFree(value)
  }

  lemma SuffixesAreKeyTails(i: nat)
    requires i < 7
    ensures SUFFIXES[i] != "" && forall c :: c in SUFFIXES[i] ==> 'A' <= c <= 'Z' || c == '_'
  {
  }

  lemma KeyIsEnvKey(prefix: string, i: nat)
    requires IsKeyPrefix(prefix) && i < 7
    ensures IsEnvKey(KeyAt(prefix, i))
  {
    SuffixesAreKeyTails(i);
    var key := KeyAt(prefix, i);
    assert key[|key| - 1] == SUFFIXES[i][|SUFFIXES[i]| - 1];
    assert SUFFIXES[i][|SUFFIXES[i]| - 1] in SUFFIXES[i];
  }

  lemma KeysAreDistinct(prefix: string, i: nat, j: nat)
    requires i < j < 7
    ensures KeyAt(prefix, i) != KeyAt(prefix, j)
  {
    assert SUFFIXES[i] != SUFFIXES[j];
    var n := |prefix| + 1;
    assert KeyAt(prefix, i)[n..] == SUFFIXES[i] && KeyAt(prefix, j)[n..] == SUFFIXES[j];
  }

  /** A key that is not among the first `n` written ones is left alone by them. */
  lemma {:induction false} UnwrittenKey(text: string, prefix: string, params: ModelParamValues, n: nat, k: string)
    requires IsKeyPrefix(prefix) && AreSingleLine(params) && n <= 7
    requires forall i :: 0 <= i < n ==> k != KeyAt(prefix, i)
    ensures Value(Applied(text, prefix, params, n), k) == Value(text, k)
    ensures Settles(Applied(text, prefix, params, n), k) == Settles(text, k)
  {
    if n > 0 {
      var before, key := Applied(text, prefix, params, n - 1), KeyAt(prefix, n - 1);
      var value := Fields(params)[n - 1].GetOr("");
      KeyIsEnvKey(prefix, n - 1);
      UnwrittenKey(text, prefix, params, n - 1, k);
      ValueAfterSet(before, key, value, k);
      SetKeepsSettles(before, key, value, k);
    }
  }

  /** A written key holds its cleaned value if its line settled and its old value otherwise. */
  lemma {:induction false} WrittenKey(text: string, prefix: string, params: ModelParamValues, n: nat, i: nat)
    requires IsKeyPrefix(prefix) && AreSingleLine(params) && i < n <= 7
    ensures Value(Applied(text, prefix, params, n), KeyAt(prefix, i)) ==
      if Settles(text, KeyAt(prefix, i)) then Some(Cleaned(Fields(params)[i].GetOr("")))
      else Value(text, KeyAt(prefix, i))
  {
    if i == n - 1 {
      NewlyWrittenKey(text, prefix, params, i);
    } else {
      var before, key := Applied(text, prefix, params, n - 1), KeyAt(prefix, n - 1);
      KeyIsEnvKey(prefix, n - 1);
      ValueAfterSet(before, key, Fields(params)[n - 1].GetOr(""), KeyAt(prefix, i));
      KeysAreDistinct(prefix, i, n - 1);
      WrittenKey(text, prefix, params, n - 1, i);
    }
  }

  lemma NewlyWrittenKey(text: string, prefix: string, params: ModelParamValues, i: nat)
    requires IsKeyPrefix(prefix) && AreSingleLine(params) && i < 7
    ensures Value(Applied(text, prefix, params, i + 1), KeyAt(prefix, i)) ==
      if Settles(text, KeyAt(prefix, i)) then Some(Cleaned(Fields(params)[i].GetOr("")))
      else Value(text, KeyAt(prefix, i))
  {
    forall j | 0 <= j < i ensures KeyAt(prefix, i) != KeyAt(prefix, j) {
      KeysAreDistinct(prefix, j, i);
    }
    KeyIsEnvKey(prefix, i);
    UnwrittenKey(text, prefix, params, i, KeyAt(prefix, i));
    ValueAfterSet(Applied(text, prefix, params, i), KeyAt(prefix, i), Fields(params)[i].GetOr(""), KeyAt(prefix, i));
  }

  /** What reading makes of a parameter that was written and settled. */
  lemma ReadBack(field: Option<string>)
    requires field.Some? ==> '\n' !in field.value
    ensures NonEmpty(Cleaned(field.GetOr(""))) == field <==> field.None? || IsStorable(field.value)
  {
    var written := field.GetOr("");
    CleanedIsIdentity(written);
    TrimIsTrimmed(Trim(written)[..CommentStart(Trim(written))]);
    TrimTrimmed(Cleaned(written));
  }

  lemma ReadOfText(text: string, name: string)
    ensures ReadParam(ParseEnvFileContent(text), name) ==
      if Value(text, name).None? then None else NonEmpty(Value(text, name).value)
  {
  }

  function FieldRead(text: string, prefix: string, i: nat): Option<string>
    requires i < 7
  {
    Fields(ModelParamValuesFromEnv(ParseEnvFileContent(text), prefix))[i]
  }

  lemma FieldReadIsReadOfKey(text: string, prefix: string, i: nat)
    requires i < 7
    ensures FieldRead(text, prefix, i) ==
      var v := Value(text, KeyAt(prefix, i));
      if v.None? then None else NonEmpty(v.value)
  {
    ReadOfText(text, KeyAt(prefix, i));
  }

  /** One parameter survives a write of all seven and a read exactly in these cases. */
  lemma FieldRoundTrip(text: string, prefix: string, params: ModelParamValues, i: nat)
    requires IsKeyPrefix(prefix) && AreSingleLine(params) && i < 7
    ensures FieldRead(Applied(text, prefix, params, 7), prefix, i) == Fields(params)[i]
      <==> if Settles(text, KeyAt(prefix, i)) then Fields(params)[i].None? || IsStorable(Fields(params)[i].value)
           else FieldRead(text, prefix, i) == Fields(params)[i]
  {
    var written := Applied(text, prefix, params, 7);
    WrittenKey(text, prefix, params, 7, i);
    FieldReadIsReadOfKey(written, prefix, i);
    FieldReadIsReadOfKey(text, prefix, i);
    ReadBack(Fields(params)[i]);
  }

  /** All seven parameters are read back as they were written exactly when each of them is. */
  lemma RoundTrip(text: string, prefix: string, params: ModelParamValues)
    requires IsKeyPrefix(prefix) && AreSingleLine(params)
    ensures ModelParamValuesFromEnv(ParseEnvFileContent(Applied(text, prefix, params, 7)), prefix) == params
      <==> forall i :: 0 <= i < 7 ==>
             if Settles(text, KeyAt(prefix, i)) then Fields(params)[i].None? || IsStorable(Fields(params)[i].value)
             else FieldRead(text, prefix, i) == Fields(params)[i]
  {
    var read := ModelParamValuesFromEnv(ParseEnvFileContent(Applied(text, prefix, params, 7)), prefix);
    SameFieldsSameParams(read, params);
    forall i | 0 <= i < 7 {
      FieldRoundTrip(text, prefix, params, i);
    }
  }

  lemma SameFieldsSameParams(a: ModelParamValues, b: ModelParamValues)
    ensures a == b <==> forall i :: 0 <= i < 7 ==> Fields(a)[i] == Fields(b)[i]
  {
    if forall i :: 0 <= i < 7 ==> Fields(a)[i] == Fields(b)[i] {
      assert Fields(a)[0] == Fields(b)[0] && Fields(a)[1] == Fields(b)[1] && Fields(a)[2] == Fields(b)[2];
      assert Fields(a)[3] == Fields(b)[3] && Fields(a)[4] == Fields(b)[4] && Fields(a)[5] == Fields(b)[5];
      assert Fields(a)[6] == Fields(b)[6];
    }
  }

  /** Keys outside the seven keep their parsed values. */
  lemma OtherKeysKeepTheirValues(text: string, prefix: string, params: ModelParamValues, k: string)
    requires IsKeyPrefix(prefix) && AreSingleLine(params)
    requires forall i :: 0 <= i < 7 ==> k != KeyAt(prefix, i)
    ensures Value(Applied(text, prefix, params, 7), k) == Value(text, k)
  {
    UnwrittenKey(text, prefix, params, 7, k);
  }

  /** The parameter under its key: written cleaned when the key's line takes effect. */
  ghost predicate IsWritten(text: string, written: string, key: string, param: Option<string>) {
    Value(written, key) == if Settles(text, key) then Some(Cleaned(param.GetOr(""))) else Value(text, key)
  }

  /** Which parameter goes under which key. */
  lemma NamedParameters(text: string, prefix: string, params: ModelParamValues)
    requires IsKeyPrefix(prefix) && AreSingleLine(params)
    ensures var written := Applied(text, prefix, params, 7);
      && IsWritten(text, written, prefix + ['_'] + "LATENCY_CLASS", params.latencyClass)
      && IsWritten(text, written, prefix + ['_'] + "SPEED_TIER", params.speedTier)
      && IsWritten(text, written, prefix + ['_'] + "TEMPERATURE", params.temperature)
      && IsWritten(text, written, prefix + ['_'] + "TOP_P", params.topP)
      && IsWritten(text, written, prefix + ['_'] + "MAX_OUTPUT_TOKENS", params.maxOutputTokens)
      && IsWritten(text, written, prefix + ['_'] + "REASONING_EFFORT", params.reasoningEffort)
      && IsWritten(text, written, prefix + ['_'] + "TIMEOUT_SECONDS", params.timeoutSeconds)
  {
    FieldIsWritten(text, prefix, params, 0);
    FieldIsWritten(text, prefix, params, 1);
    FieldIsWritten(text, prefix, params, 2);
    FieldIsWritten(text, prefix, params, 3);
    FieldIsWritten(text, prefix, params, 4);
    FieldIsWritten(text, prefix, params, 5);
    FieldIsWritten(text, prefix, params, 6);
  }

  lemma FieldIsWritten(text: string, prefix: string, params: ModelParamValues, i: nat)
    requires IsKeyPrefix(prefix) && AreSingleLine(params) && i < 7
    ensures IsWritten(text, Applied(text, prefix, params, 7), prefix + ['_'] + SUFFIXES[i], Fields(params)[i])
  {
    WrittenKey(text, prefix, params, 7, i);
  }
}
