/** The prompt side of the Ollama client: the rules text, the context blob, the
    code-or-prose model choice, the layout of the full prompt and the check on
    the model's reply, together with `generate_rewrite`, which strings them
    together around three calls to the server (taken here as parameters). */
module LlmClient {
  import opened Wrappers
  import opened PyStr
  import Json

  const DefaultSystemPromptPath: string := "templates/system_prompt_t4all.txt"

  // ---------------------------------------------------------------- rules text

  /** A loaded rules mapping: section name to its items, in the mapping's order. */
  type Rules = seq<(string, seq<string>)>

  function HeaderLine(section: string): string {
    "### " + Upper(section)
  }

  function ItemLines(items: seq<string>): seq<string> {
    seq(|items|, j requires 0 <= j < |items| => "- " + items[j])
  }

  /** The lines of the rules text: per section, in order, its header line and
      then one line per item. */
  function RulesLines(rules: Rules): seq<string> {
    if rules == [] then []
    else
      var last := rules[|rules| - 1];
      RulesLines(rules[..|rules| - 1]) + [HeaderLine(last.0)] + ItemLines(last.1)
  }

  function RulesText(rules: Rules): string {
    Join(RulesLines(rules), "\n")
  }

  function TotalItems(rules: Rules): nat {
    if rules == [] then 0 else TotalItems(rules[..|rules| - 1]) + |rules[|rules| - 1].1|
  }

  /** `_build_rules_text`: collect the lines in a list, then join them with newlines. */
  method BuildRulesText(rules: Rules) returns (text: string)
    ensures text == RulesText(rules)
  {
    var parts: seq<string> := [];
    for i := 0 to |rules|
      invariant parts == RulesLines(rules[..i])
    {
      var section := rules[i].0;
      var lines := rules[i].1;
      parts := parts + [HeaderLine(section)];
      for j := 0 to |lines|
        invariant parts == RulesLines(rules[..i]) + [HeaderLine(section)] + ItemLines(lines[..j])
      {
        assert ItemLines(lines[..j + 1]) == ItemLines(lines[..j]) + ["- " + lines[j]];
        parts := parts + ["- " + lines[j]];
      }
      assert lines[..|lines|] == lines;
      assert rules[..i + 1][..i] == rules[..i];
    }
    assert rules[..|rules|] == rules;
    text := Join(parts, "\n");
  }

  /** One line per section header plus one per item. */
  lemma {:induction false} RulesLineCount(rules: Rules)
    ensures |RulesLines(rules)| == |rules| + TotalItems(rules)
  {
    if rules != [] {
      RulesLineCount(rules[..|rules| - 1]);
    }
  }

  /** The first line is the first section's header. */
  lemma {:induction false} RulesLinesStart(rules: Rules)
    requires rules != []
    ensures |RulesLines(rules)| > 0 && RulesLines(rules)[0] == HeaderLine(rules[0].0)
  {
    var init := rules[..|rules| - 1];
    if init != [] {
      RulesLinesStart(init);
      assert init[0] == rules[0];
    }
  }

  /** The rules text is empty exactly for the empty mapping. */
  lemma RulesTextEmptyIff(rules: Rules)
    ensures RulesText(rules) == "" <==> rules == []
  {
    if rules != [] {
      RulesLinesStart(rules);
      JoinStartsWithFirst(RulesLines(rules), "\n");
    }
  }

  lemma UpperKeepsNoNewline(s: string)
    requires '\n' !in s
    ensures '\n' !in Upper(s)
  {
  }

  predicate NoNewlines(rules: Rules) {
    forall i :: 0 <= i < |rules| ==>
      '\n' !in rules[i].0 && forall j :: 0 <= j < |rules[i].1| ==> '\n' !in rules[i].1[j]
  }

  lemma {:induction false} RulesLinesNoNewline(rules: Rules)
    requires NoNewlines(rules)
    ensures forall k :: 0 <= k < |RulesLines(rules)| ==> '\n' !in RulesLines(rules)[k]
  {
    if rules != [] {
      var init := rules[..|rules| - 1];
      var last := rules[|rules| - 1];
      assert NoNewlines(init) by {
        forall i | 0 <= i < |init| ensures init[i] == rules[i] { }
      }
      RulesLinesNoNewline(init);
      UpperKeepsNoNewline(last.0);
      var lines := RulesLines(rules);
      forall k | 0 <= k < |lines| ensures '\n' !in lines[k] {
        var n := |RulesLines(init)|;
        if k > n {
          assert lines[k] == "- " + last.1[k - n - 1];
        }
      }
    }
  }

  /** When no section name or item holds a newline, splitting the rules text
      into lines recovers exactly the header and item lines, so it has one line
      per section plus one per item. */
  lemma RulesTextLines(rules: Rules)
    requires rules != [] && NoNewlines(rules)
    ensures SplitOn(RulesText(rules), '\n') == RulesLines(rules)
    ensures |SplitOn(RulesText(rules), '\n')| == |rules| + TotalItems(rules)
  {
    RulesLinesStart(rules);
    RulesLinesNoNewline(rules);
    SplitJoin(RulesLines(rules), '\n');
    RulesLineCount(rules);
  }

  // ------------------------------------------------------------- context blob

  /** The optional context fields of a rewrite request. */
  datatype ContextFields = ContextFields(
    context: Option<string>,
    stack: Option<string>,
    files: Option<seq<string>>,
    errors: Option<string>,
    functionSpec: Option<string>)

  function FilesChunk(files: seq<string>): string {
    "Files:\n- " + Join(files, "\n- ")
  }

  /** When no file name holds a newline, the files chunk splits into a
      `Files:` line followed by one bullet line per file. */
  lemma FilesChunkLines(files: seq<string>)
    requires |files| > 0 && forall i :: 0 <= i < |files| ==> '\n' !in files[i]
    ensures SplitOn(FilesChunk(files), '\n') == ["Files:"] + ItemLines(files)
  {
    BulletLines(files);
    assert FilesChunk(files) == "Files:" + "\n" + ("- " + Join(files, "\n- "));
    assert (["Files:"] + ItemLines(files))[1..] == ItemLines(files);
    SplitJoin(["Files:"] + ItemLines(files), '\n');
  }

  /** `"- " + "\n- ".join(files)` is the newline join of the bullet lines. */
  lemma {:induction false} BulletLines(files: seq<string>)
    requires |files| > 0
    ensures "- " + Join(files, "\n- ") == Join(ItemLines(files), "\n")
  {
    if |files| > 1 {
      BulletLines(files[1..]);
      assert ItemLines(files)[1..] == ItemLines(files[1..]);
      assert "- " + Join(files, "\n- ") == "- " + files[0] + "\n" + ("- " + Join(files[1..], "\n- "));
    }
  }

  /** `[chunk]` when the field is truthy, nothing otherwise. */
  function When(truthy: bool, chunk: string): seq<string> {
    if truthy then [chunk] else []
  }

  /** The chunks of the blob: each truthy field once, in the fixed order
      context, stack, files, errors, function spec. */
  function ContextChunks(f: ContextFields): seq<string> {
    When(TruthyStr(f.context), f.context.GetOr(""))
    + When(TruthyStr(f.stack), "Stack: " + f.stack.GetOr(""))
    + When(TruthyList(f.files), FilesChunk(f.files.GetOr([])))
    + When(TruthyStr(f.errors), "Errors:\n" + f.errors.GetOr(""))
    + When(TruthyStr(f.functionSpec), "Function Spec:\n" + f.functionSpec.GetOr(""))
  }

  function ContextBlob(f: ContextFields): string {
    Join(ContextChunks(f), "\n\n")
  }

  function TruthyCount(f: ContextFields): nat {
    (if TruthyStr(f.context) then 1 else 0)
    + (if TruthyStr(f.stack) then 1 else 0)
    + (if TruthyList(f.files) then 1 else 0)
    + (if TruthyStr(f.errors) then 1 else 0)
    + (if TruthyStr(f.functionSpec) then 1 else 0)
  }

  /** `_build_context_blob`: append the labelled chunks of the truthy fields,
      then join them with blank lines. */
  method BuildContextBlob(f: ContextFields) returns (blob: string)
    ensures blob == ContextBlob(f)
  {
    var chunks: seq<string> := [];
    if TruthyStr(f.context) {
      chunks := chunks + [f.context.value];
    }
    assert chunks == When(TruthyStr(f.context), f.context.GetOr(""));
    ghost var done := chunks;
    if TruthyStr(f.stack) {
      chunks := chunks + ["Stack: " + f.stack.value];
    }
    assert chunks == done + When(TruthyStr(f.stack), "Stack: " + f.stack.GetOr(""));
    done := chunks;
    if TruthyList(f.files) {
      chunks := chunks + ["Files:\n- " + Join(f.files.value, "\n- ")];
    }
    assert chunks == done + When(TruthyList(f.files), FilesChunk(f.files.GetOr([])));
    done := chunks;
    if TruthyStr(f.errors) {
      chunks := chunks + ["Errors:\n" + f.errors.value];
    }
    assert chunks == done + When(TruthyStr(f.errors), "Errors:\n" + f.errors.GetOr(""));
    done := chunks;
    if TruthyStr(f.functionSpec) {
      chunks := chunks + ["Function Spec:\n" + f.functionSpec.value];
    }
    assert chunks == done + When(TruthyStr(f.functionSpec), "Function Spec:\n" + f.functionSpec.GetOr(""));
    blob := Join(chunks, "\n\n");
  }

  /** One chunk per truthy field. */
  lemma ChunkCount(f: ContextFields)
    ensures |ContextChunks(f)| == TruthyCount(f)
  {
  }

  /** Every chunk is non-empty: the context chunk because it is truthy, the
      others because of their labels. */
  lemma ChunksNonEmpty(f: ContextFields)
    ensures forall k :: 0 <= k < |ContextChunks(f)| ==> ContextChunks(f)[k] != ""
  {
  }

  /** The blob is empty exactly when no field is truthy (`None`, `""`, `[]`). */
  lemma ContextBlobEmptyIff(f: ContextFields)
    ensures ContextBlob(f) == "" <==> TruthyCount(f) == 0
  {
    var chunks := ContextChunks(f);
    ChunkCount(f);
    if chunks != [] {
      ChunksNonEmpty(f);
      JoinStartsWithFirst(chunks, "\n\n");
    }
  }

  /** A truthy free-text context comes first in the blob, verbatim. */
  lemma ContextComesFirst(f: ContextFields)
    requires TruthyStr(f.context)
    ensures f.context.value <= ContextBlob(f)
  {
    JoinStartsWithFirst(ContextChunks(f), "\n\n");
  }

  /** With only a file list, the blob is the bulleted file list. */
  lemma FilesOnlyBlob(files: seq<string>)
    requires |files| > 0
    ensures ContextBlob(ContextFields(None, None, Some(files), None, None)) == FilesChunk(files)
  {
  }

  /** Two files, `a.py` and `b.py`, give a two-bullet list. */
  lemma TwoFilesBlob()
    ensures ContextBlob(ContextFields(None, None, Some(["a.py", "b.py"]), None, None))
      == "Files:\n- a.py\n- b.py"
  {
    FilesOnlyBlob(["a.py", "b.py"]);
    assert Join(["a.py", "b.py"], "\n- ") == "a.py" + "\n- " + Join(["b.py"], "\n- ");
  }

  // ----------------------------------------------------------- model selection

  const CodeFence: string := "```"

  const CodeMarkers: seq<string> := [
    "def ", "class ", "interface ", "function ",
    "public ", "private ", "const ", "let ",
    "import ", "from ", "export ",
    "try:", "except ", "raise ",
    "{", "}", ";"
  ]

  /** `_looks_like_code`: a code fence or one of the markers occurs in the text. */
  predicate LooksLikeCode(text: string) {
    Contains(text, CodeFence) || exists k :: 0 <= k < |CodeMarkers| && Contains(text, CodeMarkers[k])
  }

  lemma OccurrenceAt(s: string, m: string, i: int, j: int)
    requires OccursAt(s, m, i) && 0 <= j < |m|
    ensures s[i + j] == m[j]
  {
    assert s[i..i + |m|][j] == s[i + j];
  }

  /** A pattern without `c` occurs in `a + [c] + b` iff it occurs in `a` or in `b`. */
  lemma ContainsAcross(a: string, c: char, b: string, m: string)
    requires c !in m
    ensures Contains(a + [c] + b, m) <==> Contains(a, m) || Contains(b, m)
  {
    var s := a + [c] + b;
    if Contains(s, m) {
      var i :| 0 <= i <= |s| - |m| && OccursAt(s, m, i);
      if i + |m| <= |a| {
        assert s[i..i + |m|] == a[i..i + |m|];
        assert OccursAt(a, m, i);
      } else if i > |a| {
        assert s[|a| + 1..] == b;
        assert s[i..i + |m|] == s[|a| + 1..][i - |a| - 1..i - |a| - 1 + |m|];
        assert OccursAt(b, m, i - |a| - 1);
      } else {
        OccurrenceAt(s, m, i, |a| - i);
        assert false;
      }
    }
    if Contains(a, m) {
      var i :| 0 <= i <= |a| - |m| && OccursAt(a, m, i);
      assert s[i..i + |m|] == a[i..i + |m|];
      assert OccursAt(s, m, i);
    }
    if Contains(b, m) {
      var i :| 0 <= i <= |b| - |m| && OccursAt(b, m, i);
      var j := i + |a| + 1;
      assert s[|a| + 1..] == b;
      assert s[j..j + |m|] == s[|a| + 1..][i..i + |m|];
      assert OccursAt(s, m, j);
    }
  }

  /** No marker holds a newline, so the newline `_pick_model` puts between the
      request and the blob never creates one: the haystack looks like code iff
      one of its two halves does. */
  lemma LooksLikeCodeAcrossNewline(raw: string, blob: string)
    ensures LooksLikeCode(raw + "\n" + blob) <==> LooksLikeCode(raw) || LooksLikeCode(blob)
  {
    assert raw + "\n" + blob == raw + ['\n'] + blob;
    ContainsAcross(raw, '\n', blob, CodeFence);
    forall k | 0 <= k < |CodeMarkers|
      ensures Contains(raw + "\n" + blob, CodeMarkers[k])
        <==> Contains(raw, CodeMarkers[k]) || Contains(blob, CodeMarkers[k])
    {
      ContainsAcross(raw, '\n', blob, CodeMarkers[k]);
    }
  }

  /** The characters that end a fence or a marker. */
  predicate TellChar(c: char) {
    c == ' ' || c == ':' || c == '{' || c == '}' || c == ';' || c == '`'
  }

  lemma ContainsLast(t: string, m: string)
    requires m != [] && Contains(t, m)
    ensures exists i :: 0 <= i < |t| && t[i] == m[|m| - 1]
  {
    var i :| 0 <= i <= |t| - |m| && OccursAt(t, m, i);
    assert t[i..i + |m|][|m| - 1] == t[i + |m| - 1];
  }

  /** Every fence and marker ends in a space, colon, brace, semicolon or
      backtick, so a text with none of these characters never looks like code. */
  lemma PlainTextIsNotCode(text: string)
    requires forall i :: 0 <= i < |text| ==> !TellChar(text[i])
    ensures !LooksLikeCode(text)
  {
    if Contains(text, CodeFence) {
      ContainsLast(text, CodeFence);
    }
    forall k | 0 <= k < |CodeMarkers| ensures !Contains(text, CodeMarkers[k]) {
      var m := CodeMarkers[k];
      assert m != [] && TellChar(m[|m| - 1]);
      if Contains(text, m) {
        ContainsLast(text, m);
      }
    }
  }

  /** Each fence and marker holds one of these characters. */
  predicate MarkerLetter(c: char) {
    c in "cdlmnpr{};`"
  }

  /** For each marker, the index of one of its marker letters. */
  const MarkerLetterAt: seq<nat> := [0, 0, 1, 2, 0, 0, 0, 0, 1, 1, 2, 1, 2, 0, 0, 0, 0]

  lemma ContainsHas(t: string, m: string, j: nat)
    requires Contains(t, m) && j < |m|
    ensures exists i :: 0 <= i < |t| && t[i] == m[j]
  {
    var i :| 0 <= i <= |t| - |m| && OccursAt(t, m, i);
    assert t[i..i + |m|][j] == t[i + j];
  }

  /** A text without any of the marker letters never looks like code, even
      when it has spaces: ordinary lower-case prose such as `fix the bug`. */
  lemma NoMarkerLetterIsNotCode(text: string)
    requires forall i :: 0 <= i < |text| ==> !MarkerLetter(text[i])
    ensures !LooksLikeCode(text)
  {
    if Contains(text, CodeFence) {
      ContainsHas(text, CodeFence, 0);
    }
    forall k | 0 <= k < |CodeMarkers| ensures !Contains(text, CodeMarkers[k]) {
      var m := CodeMarkers[k];
      var j := MarkerLetterAt[k];
      assert j < |m| && MarkerLetter(m[j]);
      if Contains(text, m) {
        ContainsHas(text, m, j);
      }
    }
  }

  /** The request `fix the bug` is prose. */
  lemma FixTheBugIsProse()
    ensures !LooksLikeCode("fix the bug")
  {
    NoMarkerLetterIsNotCode("fix the bug");
  }

  /** `_pick_model`: the coder model when the request or the blob looks like code. */
  function PickModel(coder: string, general: string, raw: string, blob: string): (model: string)
    ensures model == coder || model == general
    ensures LooksLikeCode(raw) || LooksLikeCode(blob) ==> model == coder
    ensures !LooksLikeCode(raw) && !LooksLikeCode(blob) ==> model == general
    ensures coder != general ==> (model == coder <==> LooksLikeCode(raw + "\n" + blob))
  {
    LooksLikeCodeAcrossNewline(raw, blob);
    if LooksLikeCode(raw + "\n" + blob) then coder else general
  }

  /** A request holding `def ` or `;` goes to the coder model. */
  lemma DefOrSemicolonPicksCoder(coder: string, general: string, raw: string, blob: string)
    requires Contains(raw, "def ") || Contains(raw, ";")
    ensures PickModel(coder, general, raw, blob) == coder
  {
    assert CodeMarkers[0] == "def " && CodeMarkers[16] == ";";
  }

  // --------------------------------------------------------------- the prompt

  /** The fixed part of the prompt in front of the user's request. */
  function PromptHead(systemPrompt: string, blob: string, rulesText: string): string {
    systemPrompt + "\n\n" + "Context:\n" + blob + "\n\n" + "Rules:\n" + rulesText + "\n\n" + "User Request:\n"
  }

  /** `full_prompt`: system prompt, context, rules and the stripped request, in
      that order, ending in one newline. */
  function FullPrompt(systemPrompt: string, blob: string, rulesText: string, raw: string): (prompt: string)
    ensures systemPrompt <= prompt
    ensures PromptHead(systemPrompt, blob, rulesText) <= prompt
    ensures prompt[|PromptHead(systemPrompt, blob, rulesText)|..] == Strip(raw) + "\n"
    ensures Strip(raw) != "" ==> !IsSpace(prompt[|prompt| - 2])
  {
    var head := PromptHead(systemPrompt, blob, rulesText);
    var p := head + Strip(raw) + "\n";
    assert p[|head|..] == Strip(raw) + "\n";
    assert head == systemPrompt + head[|systemPrompt|..];
    p
  }

  /** With the same template, blob and rules, two prompts are equal exactly
      when the stripped requests are. */
  lemma FullPromptDeterminesRequest(systemPrompt: string, blob: string, rulesText: string, raw1: string, raw2: string)
    ensures FullPrompt(systemPrompt, blob, rulesText, raw1) == FullPrompt(systemPrompt, blob, rulesText, raw2)
      <==> Strip(raw1) == Strip(raw2)
  {
    var n := |PromptHead(systemPrompt, blob, rulesText)|;
    var p1 := FullPrompt(systemPrompt, blob, rulesText, raw1);
    var p2 := FullPrompt(systemPrompt, blob, rulesText, raw2);
    if p1 == p2 {
      assert Strip(raw1) + "\n" == Strip(raw2) + "\n";
      assert Strip(raw1) == (Strip(raw1) + "\n")[..|Strip(raw1)|];
      assert Strip(raw2) == (Strip(raw2) + "\n")[..|Strip(raw2)|];
    }
  }

  // --------------------------------------------------------- the model's reply

  /** What the modelled code raises, one constructor per failure. The payloads
      are labels chosen here: the pull failure, an HTTP error in Python, does
      not name the model. */
  datatype GenError =
    | Unreachable(host: string)
    | TemplateUnreadable(path: string)
    | PullFailed(model: string)
    | ModelNotReady(model: string)
    | RequestFailed(status: int)
    | BadReply
    | EmptyResponse

  /** The generation response check: `(data.get("response") or "").strip()`,
      which must be non-empty. */
  function AcceptResponse(reply: Json.Reply): (r: Result<string, GenError>)
    ensures r.Ok? <==> (reply.Decoded? && reply.data.Object? && "response" in reply.data.fields
      && reply.data.fields["response"].Str? && Strip(reply.data.fields["response"].s) != "")
    ensures r.Ok? ==> r.value == Strip(reply.data.fields["response"].s) && NoEdgeSpace(r.value)
    ensures reply.Decoded? && reply.data.Object? && Json.OrEmptyStripped(Json.Get(reply.data.fields, "response")) == Some("")
      ==> r == Err(EmptyResponse)
  {
    match reply
    case HttpFailure(status) => Err(RequestFailed(status))
    case NotJson => Err(BadReply)
    case Decoded(data) =>
      if !data.Object? then Err(BadReply)
      else
        match Json.OrEmptyStripped(Json.Get(data.fields, "response"))
        case None => Err(BadReply)
        case Some(text) => if text == "" then Err(EmptyResponse) else Ok(text)
  }

  /** The response text is already stripped: stripping it again changes nothing. */
  lemma AcceptedIsStripped(reply: Json.Reply)
    requires AcceptResponse(reply).Ok?
    ensures Strip(AcceptResponse(reply).value) == AcceptResponse(reply).value
  {
    StripIdempotent(reply.data.fields["response"].s);
  }

  // ----------------------------------------------------------- generate_rewrite

  /** How `_ensure_model` ends. */
  datatype EnsureOutcome = Available | PullRejected | NotReadyInTime

  /** The Ollama server as the client sees it: whether `/api/tags` answers, how
      making a model available ends, and the reply to a generation request for
      a model and a prompt. */
  datatype Ollama = Ollama(
    host: string,
    up: bool,
    ensureModel: string -> EnsureOutcome,
    generate: (string, string) -> Json.Reply)

  /** The model and prompt `generate_rewrite` sends for a request. */
  function ChosenModel(coder: string, general: string, raw: string, f: ContextFields): string {
    PickModel(coder, general, raw, ContextBlob(f))
  }

  function ComposedPrompt(systemPrompt: string, rules: Rules, f: ContextFields, raw: string): string {
    FullPrompt(systemPrompt, ContextBlob(f), RulesText(rules), raw)
  }

  /** `generate_rewrite`: check the server, read the template, compose the
      prompt, choose and ensure the model, generate, and check the reply. */
  function GenerateRewrite(
    server: Ollama, readText: string -> Option<string>, coder: string, general: string,
    raw: string, rules: Rules, f: ContextFields, systemPromptPath: Option<string>): (r: Result<string, GenError>)
    ensures !server.up ==> r == Err(Unreachable(server.host))
    ensures server.up ==>
      var path := if TruthyStr(systemPromptPath) then systemPromptPath.value else DefaultSystemPromptPath;
      && (readText(path).None? ==> r == Err(TemplateUnreadable(path)))
      && (readText(path).Some? ==>
        var model := ChosenModel(coder, general, raw, f);
        var reply := server.generate(model, ComposedPrompt(readText(path).value, rules, f, raw));
        && (server.ensureModel(model) == PullRejected ==> r == Err(PullFailed(model)))
        && (server.ensureModel(model) == NotReadyInTime ==> r == Err(ModelNotReady(model)))
        && (server.ensureModel(model) == Available ==> r == AcceptResponse(reply)))
    ensures r.Ok? ==> r.value != "" && NoEdgeSpace(r.value)
    ensures r.Ok? ==>
      var path := if TruthyStr(systemPromptPath) then systemPromptPath.value else DefaultSystemPromptPath;
      && server.up && readText(path).Some?
      && var model := ChosenModel(coder, general, raw, f);
      && server.ensureModel(model) == Available
      && AcceptResponse(server.generate(model, ComposedPrompt(readText(path).value, rules, f, raw))) == Ok(r.value)
  {
    if !server.up then Err(Unreachable(server.host))
    else
      var path := if TruthyStr(systemPromptPath) then systemPromptPath.value else DefaultSystemPromptPath;
      match readText(path)
      case None => Err(TemplateUnreadable(path))
      case Some(systemPrompt) =>
        var prompt := ComposedPrompt(systemPrompt, rules, f, raw);
        var model := ChosenModel(coder, general, raw, f);
        match server.ensureModel(model)
        case PullRejected => Err(PullFailed(model))
        case NotReadyInTime => Err(ModelNotReady(model))
        case Available => AcceptResponse(server.generate(model, prompt))
  }

  /** When the server is up, the template reads, the chosen model is
      available and the server's reply to that model's composed prompt is an
      object whose `response` field is non-blank text (other fields may be
      present), the rewrite is that text stripped. */
  lemma GenerateAnswered(
    server: Ollama, readText: string -> Option<string>, coder: string, general: string,
    raw: string, rules: Rules, f: ContextFields, systemPromptPath: Option<string>, answer: string)
    ensures
      var path := if TruthyStr(systemPromptPath) then systemPromptPath.value else DefaultSystemPromptPath;
      var model := ChosenModel(coder, general, raw, f);
      server.up && readText(path).Some? && server.ensureModel(model) == Available
      && (var reply := server.generate(model, ComposedPrompt(readText(path).value, rules, f, raw));
          reply.Decoded? && reply.data.Object? && "response" in reply.data.fields
          && reply.data.fields["response"] == Json.Str(answer))
      && Strip(answer) != ""
      ==> GenerateRewrite(server, readText, coder, general, raw, rules, f, systemPromptPath) == Ok(Strip(answer))
  {
    var path := if TruthyStr(systemPromptPath) then systemPromptPath.value else DefaultSystemPromptPath;
    var model := ChosenModel(coder, general, raw, f);
    if server.up && readText(path).Some? {
      var reply := server.generate(model, ComposedPrompt(readText(path).value, rules, f, raw));
      if reply.Decoded? && reply.data.Object? && "response" in reply.data.fields
        && reply.data.fields["response"] == Json.Str(answer) && Strip(answer) != ""
      {
        assert Json.Get(reply.data.fields, "response") == Some(Json.Str(answer));
        assert AcceptResponse(reply) == Ok(Strip(answer));
      }
    }
  }
}
