/** The rewrite endpoint of the web service: profile and override resolution,
    the `_safe_join` check on requested file names, and the request flow from
    the validated paths to the stripped rewritten prompt. */
module Server {
  import opened Wrappers
  import opened PyStr
  import LlmClient
  import Json

  // ------------------------------------------------------------------ profiles

  /** A profile names a rules file and a system-prompt template. */
  datatype Profile = Profile(rules: string, template: string)

  const DefaultProfile: string := "t4all"

  const Profiles: map<string, Profile> := map[
    "t4all" := Profile("rules_t4all_v2.yaml", "system_prompt_t4all_v2.txt"),
    "default" := Profile("rules.yaml", "system_prompt.txt")
  ]

  /** `PROFILES.get(profile or "t4all", PROFILES["t4all"])`. */
  function ResolveProfile(profile: Option<string>): (p: Profile)
    ensures p in Profiles.Values
    ensures profile.None? ==> p == Profiles[DefaultProfile]
    ensures profile.Some? && profile.value in Profiles ==> p == Profiles[profile.value]
    ensures profile.Some? && profile.value !in Profiles ==> p == Profiles[DefaultProfile]
  {
    var key := if TruthyStr(profile) then profile.value else DefaultProfile;
    if key in Profiles then Profiles[key] else Profiles[DefaultProfile]
  }

  /** `override or fallback` for a file name. */
  function Override(override: Option<string>, fallback: string): (name: string)
    ensures TruthyStr(override) ==> name == override.value
    ensures !TruthyStr(override) ==> name == fallback
    ensures fallback != "" ==> name != ""
  {
    if TruthyStr(override) then override.value else fallback
  }

  // ---------------------------------------------------------------- safe join

  /** A resolved absolute path as its segments below the root (`/` is `[]`). */
  type Path = seq<string>

  /** `p.parents`: every proper ancestor, the root included. */
  function Parents(p: Path): set<Path> {
    set k | 0 <= k < |p| :: p[..k]
  }

  /** `p.parent`: the root is its own parent. */
  function Parent(p: Path): Path {
    if p == [] then [] else p[..|p| - 1]
  }

  predicate IsProperPrefix(base: Path, p: Path) {
    |base| < |p| && p[..|base|] == base
  }

  lemma ParentsAreProperPrefixes(base: Path, p: Path)
    ensures base in Parents(p) <==> IsProperPrefix(base, p)
  {
    if IsProperPrefix(base, p) {
      assert p[..|base|] in Parents(p);
    }
  }

  datatype HttpError = HttpError(status: int, detail: string)

  const InvalidFilePath: string := "Invalid file path."

  /** The decision of `_safe_join`, given the resolved base, the resolved
      `base / name` and whether that path exists: reject a path outside the
      base first, then a missing one. */
  function SafeJoin(base: Path, resolved: Path, found: bool, name: string): (r: Result<Path, HttpError>)
    ensures r.Ok? <==> (IsProperPrefix(base, resolved) || resolved == base == []) && found
    ensures r.Ok? ==> r.value == resolved
    ensures !IsProperPrefix(base, resolved) && base != [] ==> r == Err(HttpError(400, InvalidFilePath))
    ensures IsProperPrefix(base, resolved) && !found ==> r == Err(HttpError(400, "File not found: " + name))
  {
    ParentsAreProperPrefixes(base, resolved);
    if base !in Parents(resolved) && Parent(resolved) != base then
      Err(HttpError(400, InvalidFilePath))
    else if !found then
      Err(HttpError(400, "File not found: " + name))
    else
      Ok(resolved)
  }

  /** The `p.parent != base` test only ever admits the root as its own base:
      whenever the base is not the root, `_safe_join` accepts exactly the
      existing paths strictly below it. */
  lemma SafeJoinBelowBase(base: Path, resolved: Path, found: bool, name: string)
    requires base != []
    ensures SafeJoin(base, resolved, found, name).Ok? <==> base in Parents(resolved) && found
  {
    ParentsAreProperPrefixes(base, resolved);
  }

  // ----------------------------------------------------- lexical path resolve

  /** A resolved path: no empty, `.` or `..` segment, and no `/` inside one. */
  predicate Canonical(p: Path) {
    forall i :: 0 <= i < |p| ==> p[i] != "" && p[i] != "." && p[i] != ".." && '/' !in p[i]
  }

  /** Apply path segments to an absolute path: `""` and `"."` stay, `".."`
      goes up (not above the root), anything else goes down. */
  function Normalize(acc: Path, segments: seq<string>): (p: Path)
    decreases |segments|
    ensures |p| <= |acc| + |segments|
    ensures Canonical(acc) && (forall k :: 0 <= k < |segments| ==> '/' !in segments[k]) ==> Canonical(p)
  {
    if segments == [] then acc
    else
      var seg := segments[0];
      var next := if seg == "" || seg == "." then acc else if seg == ".." then Parent(acc) else acc + [seg];
      Normalize(next, segments[1..])
  }

  /** `(base / name).resolve()` without symbolic links: an absolute name
      starts again from the root. */
  function Resolve(base: Path, name: string): (p: Path)
    ensures Canonical(base) ==> Canonical(p)
  {
    JoinSplit(name, '/');
    Normalize(if name != "" && name[0] == '/' then [] else base, SplitOn(name, '/'))
  }

  /** A plain basename. */
  predicate IsBasename(name: string) {
    name != "" && name != "." && name != ".." && '/' !in name
  }

  /** A plain basename resolves to the entry right below the base, so it is
      accepted exactly when it exists. */
  lemma BasenameAccepted(base: Path, name: string, found: bool)
    requires IsBasename(name)
    ensures Resolve(base, name) == base + [name]
    ensures SafeJoin(base, base + [name], found, name)
      == if found then Ok(base + [name]) else Err(HttpError(400, "File not found: " + name))
  {
    assert SplitOn(name, '/') == [name];
    assert Normalize(base, [name]) == Normalize(base + [name], [name][1..]);
    assert [name][1..] == [];
    assert (base + [name])[..|base|] == base;
  }

  /** Basename segments only ever go down: each one is appended in turn. */
  lemma {:induction false} NormalizeDescends(acc: Path, segments: seq<string>)
    requires forall k :: 0 <= k < |segments| ==> IsBasename(segments[k])
    ensures Normalize(acc, segments) == acc + segments
    decreases |segments|
  {
    if segments != [] {
      NormalizeDescends(acc + [segments[0]], segments[1..]);
      assert acc + [segments[0]] + segments[1..] == acc + segments;
    }
  }

  /** A name whose `/`-separated segments are all basenames (so it is neither
      absolute nor empty, and holds no `.` or `..`) resolves to the base
      followed by those segments. */
  lemma RelativeNameResolves(base: Path, name: string)
    requires forall k :: 0 <= k < |SplitOn(name, '/')| ==> IsBasename(SplitOn(name, '/')[k])
    ensures Resolve(base, name) == base + SplitOn(name, '/')
  {
    if name != "" && name[0] == '/' {
      assert IndexOfChar(name, '/') == 0;
      assert SplitOn(name, '/')[0] == "";
      assert false;
    }
    NormalizeDescends(base, SplitOn(name, '/'));
  }

  /** The check follows the code, not the "basenames only" wording of its
      docstring: a name with a directory part, `sub/x`, resolves two levels
      down and is accepted whenever it exists. */
  lemma NestedNameAccepted(base: Path, dir: string, name: string, found: bool)
    requires IsBasename(dir) && IsBasename(name)
    ensures Resolve(base, dir + "/" + name) == base + [dir, name]
    ensures SafeJoin(base, base + [dir, name], found, dir + "/" + name).Ok? <==> found
  {
    assert Join([dir, name], "/") == dir + "/" + name by {
      assert [dir, name][1..] == [name];
    }
    SplitJoin([dir, name], '/');
    assert (dir + "/" + name)[0] == dir[0];
    assert Normalize(base, [dir, name]) == Normalize(base + [dir], [name]) by {
      assert [dir, name][1..] == [name];
    }
    assert Normalize(base + [dir], [name]) == Normalize(base + [dir] + [name], []);
    assert base + [dir] + [name] == base + [dir, name];
    assert (base + [dir, name])[..|base|] == base;
  }

  const Traversal: string := "../../etc/passwd"

  lemma TraversalJoin()
    ensures Join(["..", "..", "etc", "passwd"], "/") == Traversal
  {
    var parts := ["..", "..", "etc", "passwd"];
    assert Join(parts[3..], "/") == "passwd";
    assert Join(parts[2..], "/") == "etc/passwd";
    assert Join(parts[1..], "/") == "../etc/passwd";
  }

  lemma TraversalSegments()
    ensures SplitOn(Traversal, '/') == ["..", "..", "etc", "passwd"]
  {
    TraversalJoin();
    SplitJoin(["..", "..", "etc", "passwd"], '/');
  }

  lemma NormalizeTraversal(cwd: Path)
    ensures Normalize(cwd + ["rules"], ["..", "..", "etc", "passwd"]) == Parent(cwd) + ["etc", "passwd"]
  {
    var base := cwd + ["rules"];
    assert Parent(base) == cwd;
    var segs := ["..", "..", "etc", "passwd"];
    assert segs[1..] == ["..", "etc", "passwd"];
    assert ["..", "etc", "passwd"][1..] == ["etc", "passwd"];
    assert ["etc", "passwd"][1..] == ["passwd"];
    assert ["passwd"][1..] == [];
    calc {
      Normalize(base, segs);
      Normalize(cwd, ["..", "etc", "passwd"]);
      Normalize(Parent(cwd), ["etc", "passwd"]);
      Normalize(Parent(cwd) + ["etc"], ["passwd"]);
      Normalize(Parent(cwd) + ["etc"] + ["passwd"], []);
    }
    assert Parent(cwd) + ["etc"] + ["passwd"] == Parent(cwd) + ["etc", "passwd"];
  }

  lemma TraversalResolves(cwd: Path)
    ensures Resolve(cwd + ["rules"], Traversal) == Parent(cwd) + ["etc", "passwd"]
  {
    TraversalSegments();
    assert Traversal[0] == '.';
    NormalizeTraversal(cwd);
  }

  /** Climbing out of the rules directory is refused as an invalid path,
      whatever the working directory and whether or not the target exists. */
  lemma TraversalRejected(cwd: Path, found: bool)
    ensures SafeJoin(cwd + ["rules"], Resolve(cwd + ["rules"], Traversal), found, Traversal)
      == Err(HttpError(400, InvalidFilePath))
  {
    var base := cwd + ["rules"];
    TraversalResolves(cwd);
    var r := Parent(cwd) + ["etc", "passwd"];
    if cwd != [] {
      assert |r| == |base|;
    } else {
      assert r[0] == "etc" && base[0] == "rules";
    }
    assert !IsProperPrefix(base, r);
  }

  // ------------------------------------------------------------ the endpoint

  /** The JSON body of a rewrite request. */
  datatype RewriteRequest = RewriteRequest(
    rawPrompt: string,
    fields: LlmClient.ContextFields,
    profile: Option<string>,
    rulesFile: Option<string>,
    templateFile: Option<string>)

  /** What the service process sees around it: its working directory, which
      paths exist, what loading a rules file gives, what reading a template
      gives, the Ollama server and the two model identifiers. */
  datatype Deployment = Deployment(
    cwd: Path,
    pathExists: Path -> bool,
    loadRules: Path -> Result<LlmClient.Rules, string>,
    readText: string -> Option<string>,
    server: LlmClient.Ollama,
    coder: string,
    general: string)

  function RulesDir(d: Deployment): Path { d.cwd + ["rules"] }
  function TemplatesDir(d: Deployment): Path { d.cwd + ["templates"] }

  /** `str(path)` of an absolute path. */
  function PathText(p: Path): string { "/" + Join(p, "/") }

  /** The rules and template file names a request asks for. */
  function RequestedNames(req: RewriteRequest): (names: (string, string))
    ensures names.0 != "" && names.1 != ""
    ensures TruthyStr(req.rulesFile) ==> names.0 == req.rulesFile.value
    ensures TruthyStr(req.templateFile) ==> names.1 == req.templateFile.value
    ensures !TruthyStr(req.rulesFile) ==> names.0 == ResolveProfile(req.profile).rules
    ensures !TruthyStr(req.templateFile) ==> names.1 == ResolveProfile(req.profile).template
  {
    var prof := ResolveProfile(req.profile);
    (Override(req.rulesFile, prof.rules), Override(req.templateFile, prof.template))
  }

  function JoinUnder(d: Deployment, dir: Path, name: string): Result<Path, HttpError> {
    SafeJoin(dir, Resolve(dir, name), d.pathExists(Resolve(dir, name)), name)
  }

  /** The two validated paths, the rules path checked first. */
  function ValidatedPaths(d: Deployment, req: RewriteRequest): (r: Result<(Path, Path), HttpError>)
    ensures JoinUnder(d, RulesDir(d), RequestedNames(req).0).Err? ==>
      r == Err(JoinUnder(d, RulesDir(d), RequestedNames(req).0).error)
    ensures JoinUnder(d, RulesDir(d), RequestedNames(req).0).Ok? && JoinUnder(d, TemplatesDir(d), RequestedNames(req).1).Err? ==>
      r == Err(JoinUnder(d, TemplatesDir(d), RequestedNames(req).1).error)
    ensures r.Ok? <==>
      JoinUnder(d, RulesDir(d), RequestedNames(req).0).Ok? && JoinUnder(d, TemplatesDir(d), RequestedNames(req).1).Ok?
    ensures r.Ok? ==>
      r.value == (JoinUnder(d, RulesDir(d), RequestedNames(req).0).value, JoinUnder(d, TemplatesDir(d), RequestedNames(req).1).value)
  {
    var names := RequestedNames(req);
    var rulesPath :- JoinUnder(d, RulesDir(d), names.0);
    var templatePath :- JoinUnder(d, TemplatesDir(d), names.1);
    Ok((rulesPath, templatePath))
  }

  datatype ServiceError = Http(http: HttpError) | Internal(cause: LlmClient.GenError)

  /** `rewrite_prompt`: validate the two paths, load the rules, generate, and
      answer with the stripped generation result. */
  function RewritePrompt(d: Deployment, req: RewriteRequest): (r: Result<string, ServiceError>)
    ensures ValidatedPaths(d, req).Err? ==> r == Err(Http(ValidatedPaths(d, req).error))
    ensures ValidatedPaths(d, req).Ok? && d.loadRules(ValidatedPaths(d, req).value.0).Err? ==>
      r == Err(Http(HttpError(500, "Failed to load rules: " + d.loadRules(ValidatedPaths(d, req).value.0).error)))
    ensures ValidatedPaths(d, req).Ok? && d.loadRules(ValidatedPaths(d, req).value.0).Ok? ==>
      var paths := ValidatedPaths(d, req).value;
      var g := LlmClient.GenerateRewrite(d.server, d.readText, d.coder, d.general, req.rawPrompt,
        d.loadRules(paths.0).value, req.fields, Some(PathText(paths.1)));
      && (g.Err? ==> r == Err(Internal(g.error)))
      && (g.Ok? ==> r == Ok(g.value))
    ensures r.Ok? ==> r.value != "" && NoEdgeSpace(r.value)
    ensures r.Ok? ==>
      var paths := ValidatedPaths(d, req).value;
      && d.loadRules(paths.0).Ok?
      && LlmClient.GenerateRewrite(d.server, d.readText, d.coder, d.general, req.rawPrompt,
           d.loadRules(paths.0).value, req.fields, Some(PathText(paths.1))) == Ok(r.value)
  {
    match ValidatedPaths(d, req)
    case Err(e) => Err(Http(e))
    case Ok(paths) =>
      match d.loadRules(paths.0)
      case Err(msg) => Err(Http(HttpError(500, "Failed to load rules: " + msg)))
      case Ok(rules) =>
        match LlmClient.GenerateRewrite(d.server, d.readText, d.coder, d.general, req.rawPrompt,
                rules, req.fields, Some(PathText(paths.1)))
        case Err(cause) => Err(Internal(cause))
        case Ok(prompt) =>
          StripIdempotent(prompt);
          StripOfPadded([], prompt, []);
          assert [] + prompt + [] == prompt;
          Ok(Strip(prompt))
  }

  /** A rejected file name is answered before the rules are loaded or the
      model server is contacted: the answer does not depend on either. */
  lemma RejectedBeforeServerCall(d: Deployment, req: RewriteRequest,
      loadRules: Path -> Result<LlmClient.Rules, string>, readText: string -> Option<string>, server: LlmClient.Ollama)
    ensures ValidatedPaths(d, req).Err? ==>
      RewritePrompt(d, req) == RewritePrompt(d.(loadRules := loadRules, readText := readText, server := server), req)
    ensures ValidatedPaths(d, req).Err? ==>
      RewritePrompt(d, req).Err? && RewritePrompt(d, req).error.Http? && RewritePrompt(d, req).error.http.status == 400
  {
    var d' := d.(loadRules := loadRules, readText := readText, server := server);
    assert ValidatedPaths(d', req) == ValidatedPaths(d, req);
    assert RulesDir(d) != [] && TemplatesDir(d) != [];
  }

  /** A `rules_file` that climbs out of the rules directory is refused with
      status 400 before anything else happens. */
  lemma TraversalRequestRejected(d: Deployment, req: RewriteRequest)
    requires req.rulesFile == Some(Traversal)
    ensures RewritePrompt(d, req) == Err(Http(HttpError(400, InvalidFilePath)))
  {
    TraversalRejected(d.cwd, d.pathExists(Resolve(RulesDir(d), Traversal)));
  }

  /** The request `{"raw_prompt": "fix the bug", "profile": "default"}`, with no context fields. */
  const FixTheBug: RewriteRequest :=
    RewriteRequest("fix the bug", LlmClient.ContextFields(None, None, None, None, None), Some("default"), None, None)

  /** The default profile's files validate to their places under the rules
      and templates directories when both exist. */
  lemma DefaultProfilePaths(d: Deployment)
    requires d.pathExists(RulesDir(d) + ["rules.yaml"]) && d.pathExists(TemplatesDir(d) + ["system_prompt.txt"])
    ensures ValidatedPaths(d, FixTheBug) == Ok((RulesDir(d) + ["rules.yaml"], TemplatesDir(d) + ["system_prompt.txt"]))
  {
    assert RequestedNames(FixTheBug) == ("rules.yaml", "system_prompt.txt");
    BasenameAccepted(RulesDir(d), "rules.yaml", true);
    BasenameAccepted(TemplatesDir(d), "system_prompt.txt", true);
    assert JoinUnder(d, RulesDir(d), "rules.yaml") == Ok(RulesDir(d) + ["rules.yaml"]);
    assert JoinUnder(d, TemplatesDir(d), "system_prompt.txt") == Ok(TemplatesDir(d) + ["system_prompt.txt"]);
  }

  /** `{"raw_prompt": "fix the bug", "profile": "default"}` against a
      deployment where the default profile's files exist and load and the
      server is up: the request is prose, so the general model is used, and
      when it is available and its reply to the composed prompt is an object
      whose `response` field is non-blank text (other fields may be present),
      the service returns that text stripped. */
  lemma DefaultProfileRoundTrip(d: Deployment, answer: string)
    ensures LlmClient.ChosenModel(d.coder, d.general, FixTheBug.rawPrompt, FixTheBug.fields) == d.general
    ensures
      var rulesPath := RulesDir(d) + ["rules.yaml"];
      var templateText := d.readText(PathText(TemplatesDir(d) + ["system_prompt.txt"]));
      d.pathExists(rulesPath) && d.pathExists(TemplatesDir(d) + ["system_prompt.txt"])
      && d.loadRules(rulesPath).Ok? && templateText.Some?
      && d.server.up && d.server.ensureModel(d.general) == LlmClient.Available
      && (var reply := d.server.generate(d.general, LlmClient.ComposedPrompt(templateText.value,
            d.loadRules(rulesPath).value, FixTheBug.fields, FixTheBug.rawPrompt));
          reply.Decoded? && reply.data.Object? && "response" in reply.data.fields
          && reply.data.fields["response"] == Json.Str(answer))
      && Strip(answer) != ""
      ==> RewritePrompt(d, FixTheBug) == Ok(Strip(answer))
  {
    var rulesPath := RulesDir(d) + ["rules.yaml"];
    var templatePath := TemplatesDir(d) + ["system_prompt.txt"];
    GeneralModelForFixTheBug(d.coder, d.general);
    if d.pathExists(rulesPath) && d.pathExists(templatePath) && d.loadRules(rulesPath).Ok? {
      DefaultProfilePaths(d);
      LlmClient.GenerateAnswered(d.server, d.readText, d.coder, d.general, FixTheBug.rawPrompt,
        d.loadRules(rulesPath).value, FixTheBug.fields, Some(PathText(templatePath)), answer);
    }
  }

  /** With no context, `fix the bug` goes to the general model. */
  lemma GeneralModelForFixTheBug(coder: string, general: string)
    ensures LlmClient.ChosenModel(coder, general, FixTheBug.rawPrompt, FixTheBug.fields) == general
  {
    LlmClient.FixTheBugIsProse();
    assert LlmClient.ContextBlob(FixTheBug.fields) == "";
    LlmClient.NoMarkerLetterIsNotCode("");
  }
}
