/** The end-to-end test script's own logic: the strict-sections switch, the
    check that a rewritten prompt carries the six canonical section headers in
    order, the reading of the service's reply, and the request payload. */
module ApiTest {
  import opened Wrappers
  import opened PyStr
  import Json

  // ---------------------------------------------------------- strict sections

  /** `REWRITER_STRICT_SECTIONS` (default `"1"`) not in `("0", "false", "False")`. */
  function StrictSections(env: Option<string>): (strict: bool)
    ensures env.None? ==> strict
    ensures !strict <==> env.Some? && (env.value == "0" || env.value == "false" || env.value == "False")
  {
    env.GetOr("1") !in ["0", "false", "False"]
  }

  // ---------------------------------------------------------- section headers

  const Headers: seq<string> := ["Goal", "Inputs", "Constraints", "Tasks", "Output Format", "Acceptance Criteria"]

  const ConstraintsAlt: string := "Constraints & Standards"

  /** Where the `k`-th header first occurs, or -1. */
  function HeaderPos(text: string, k: nat): int
    requires k < |Headers|
  {
    Find(text, Headers[k])
  }

  /** Every header occurs, and their first occurrences never go backwards. */
  predicate SectionsInOrder(text: string) {
    && (forall k :: 0 <= k < |Headers| ==> HeaderPos(text, k) >= 0)
    && (forall k :: 0 < k < |Headers| ==> HeaderPos(text, k - 1) <= HeaderPos(text, k))
  }

  /** The alternative header starts with "Constraints", so it can occur only
      where "Constraints" does: looking for it after "Constraints" was not found
      never finds anything. */
  lemma AltNeverHelps(text: string)
    requires Find(text, "Constraints") < 0
    ensures Find(text, ConstraintsAlt) < 0
  {
    if Contains(text, ConstraintsAlt) {
      var i :| 0 <= i <= |text| - |ConstraintsAlt| && OccursAt(text, ConstraintsAlt, i);
      assert ConstraintsAlt[..11] == "Constraints";
      assert text[i..i + 11] == text[i..i + |ConstraintsAlt|][..11];
      assert OccursAt(text, "Constraints", i);
    }
  }

  /** `check_t4all_sections`: walk the headers, keep the last index, stop at
      the first header that is missing or earlier than the one before. */
  method CheckSections(strict: bool, text: string) returns (ok: bool)
    ensures ok <==> !strict || SectionsInOrder(text)
  {
    if !strict {
      return true;
    }
    ok := true;
    var lastPos := -1;
    var i := 0;
    while i < |Headers|
      invariant 0 <= i <= |Headers|
      invariant forall k :: 0 <= k < i ==> HeaderPos(text, k) >= 0
      invariant forall k :: 0 < k < i ==> HeaderPos(text, k - 1) <= HeaderPos(text, k)
      invariant lastPos == if i == 0 then -1 else HeaderPos(text, i - 1)
    {
      var h := Headers[i];
      var alt := if h == "Constraints" then Some(ConstraintsAlt) else None;
      var idx := Find(text, h);
      if idx < 0 && alt.Some? {
        AltNeverHelps(text);
        idx := Find(text, alt.value);
      }
      if idx < 0 || idx < lastPos {
        assert HeaderPos(text, i) < 0 || HeaderPos(text, i - 1) > HeaderPos(text, i);
        ok := false;
        break;
      }
      lastPos := idx;
      i := i + 1;
    }
  }

  /** A text missing one of the headers is rejected. */
  lemma MissingHeaderRejected(text: string, k: nat)
    requires k < |Headers| && !Contains(text, Headers[k])
    ensures !SectionsInOrder(text)
  {
    assert HeaderPos(text, k) < 0;
  }

  // ------------------------------------------------------------- the reply

  /** Why the script stops. */
  datatype Stop = HttpStatus(status: int) | NonJson | NotAnObject | NotAString | EmptyPrompt

  /** The reply handling of `post_rewrite`: `(data.get("rewritten_prompt") or "").strip()`,
      which must be non-empty. */
  function PostRewrite(reply: Json.Reply): (r: Result<string, Stop>)
    ensures reply.HttpFailure? ==> r == Err(HttpStatus(reply.status))
    ensures reply.NotJson? ==> r == Err(NonJson)
    ensures r.Ok? <==> (reply.Decoded? && reply.data.Object? && "rewritten_prompt" in reply.data.fields
      && reply.data.fields["rewritten_prompt"].Str? && Strip(reply.data.fields["rewritten_prompt"].s) != "")
    ensures r.Ok? ==> r.value == Strip(reply.data.fields["rewritten_prompt"].s) && NoEdgeSpace(r.value)
    ensures reply.Decoded? && reply.data.Object? && "rewritten_prompt" !in reply.data.fields ==> r == Err(EmptyPrompt)
  {
    match reply
    case HttpFailure(status) => Err(HttpStatus(status))
    case NotJson => Err(NonJson)
    case Decoded(data) =>
      if !data.Object? then Err(NotAnObject)
      else
        match Json.OrEmptyStripped(Json.Get(data.fields, "rewritten_prompt"))
        case None => Err(NotAString)
        case Some(text) => if text == "" then Err(EmptyPrompt) else Ok(text)
  }

  /** A JSON null counts as an empty prompt, not as a crash. */
  lemma NullPromptIsEmpty(fields: map<string, Json.Value>)
    requires "rewritten_prompt" in fields && fields["rewritten_prompt"] == Json.Null
    ensures PostRewrite(Json.Decoded(Json.Object(fields))) == Err(EmptyPrompt)
  {
  }

  // ----------------------------------------------------------- the payload

  const ExamplePrompt: string :=
    "add subtitle auto-sync step after whisper transcription and before ffmpeg burn, and log it in the db"
  const ExampleFiles: seq<string> := ["t4a/services/subtitles.py", "t4a/db/helpers.py"]
  const ExampleSpec: string :=
    "Insert karaoke auto-sync phase; record phase_start/finish; ensure idempotence."

  /** `if override: payload[key] = override`, for a key the payload lacks. */
  method PutOverride(payload: Json.Dict, truthy: bool, key: string, value: Json.Value) returns (next: Json.Dict)
    requires key !in Json.Keys(payload)
    ensures Json.Keys(next) == Json.Keys(payload) + (if truthy then [key] else [])
    ensures forall k :: Json.Lookup(next, k) == if truthy && k == key then Some(value) else Json.Lookup(payload, k)
  {
    next := payload;
    if truthy {
      Json.PutNew(payload, key, value);
      next := Json.Put(payload, key, value);
    }
  }

  /** The four keys every test request carries. */
  const TestKeys: seq<string> := ["raw_prompt", "profile", "files", "function_spec"]

  /** The two override keys differ from each other, from `profile`, and from every fixed key. */
  lemma OverrideKeysNew()
    ensures "rules_file" !in TestKeys && "template_file" !in TestKeys
    ensures "rules_file" != "template_file" && "profile" != "rules_file" && "profile" != "template_file"
  {
  }

  function TestBase(profile: string): (d: Json.Dict)
    ensures Json.Keys(d) == TestKeys
    ensures Json.Lookup(d, "profile") == Some(Json.Str(profile))
  {
    var d: Json.Dict := [
      ("raw_prompt", Json.Str(ExamplePrompt)),
      ("profile", Json.Str(profile)),
      ("files", Json.StrList(ExampleFiles)),
      ("function_spec", Json.Str(ExampleSpec))
    ];
    assert d[1..][0] == ("profile", Json.Str(profile));
    d
  }

  /** The payload of the test request: the four fixed keys, then each file
      override that is set and non-empty. */
  method BuildTestPayload(profile: string, rulesOverride: Option<string>, templateOverride: Option<string>)
    returns (payload: Json.Dict)
    ensures |payload| == 4 + (if TruthyStr(rulesOverride) then 1 else 0) + (if TruthyStr(templateOverride) then 1 else 0)
    ensures Json.Keys(payload)[..4] == TestKeys
    ensures Json.Keys(payload) == TestKeys + (if TruthyStr(rulesOverride) then ["rules_file"] else [])
      + (if TruthyStr(templateOverride) then ["template_file"] else [])
    ensures Json.Lookup(payload, "profile") == Some(Json.Str(profile))
    ensures Json.Lookup(payload, "rules_file") ==
      if TruthyStr(rulesOverride) then Some(Json.Str(rulesOverride.value)) else None
    ensures Json.Lookup(payload, "template_file") ==
      if TruthyStr(templateOverride) then Some(Json.Str(templateOverride.value)) else None
  {
    var fixed := TestBase(profile);
    var fixedKeys := Json.Keys(fixed);
    ghost var r: seq<string> := if TruthyStr(rulesOverride) then ["rules_file"] else [];
    ghost var t: seq<string> := if TruthyStr(templateOverride) then ["template_file"] else [];
    OverrideKeysNew();
    var withRules := PutOverride(fixed, TruthyStr(rulesOverride), "rules_file", Json.Str(rulesOverride.GetOr("")));
    assert Json.Keys(withRules) == fixedKeys + r;
    payload := PutOverride(withRules, TruthyStr(templateOverride), "template_file",
      Json.Str(templateOverride.GetOr("")));
    assert Json.Keys(payload) == fixedKeys + r + t;
    assert (fixedKeys + r + t)[..4] == fixedKeys;
    assert |Json.Keys(payload)| == |payload|;
  }
}
