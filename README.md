# Prompt optimizer, modelled in Dafny

The prompt optimizer rewrites a rough request ("fix the bug") into a
structured prompt for a coding assistant. It has four parts, and this project
models the logic of each:

- **The Ollama client** (`llm_client.py`). It turns a rules mapping into a
  block of `### SECTION` headers and `- item` lines. It joins the optional
  context fields (free text, stack, files, errors, function spec) into a
  context blob. It picks the coder model when the request or the blob looks
  like code, and the general model otherwise. It lays out the full prompt
  (template, context, rules, stripped request) and accepts the model's reply
  only when its `response` text, stripped, is non-empty.
- **The web service** (`main.py`). Its `/rewrite` endpoint resolves a profile
  to a rules file and a template, applies per-request file overrides, and
  checks each requested file name with `_safe_join`. That check refuses paths
  that climb out of their directory and files that do not exist. The service
  then loads the rules, generates, and answers with the stripped result.
- **The command-line client** (`rewrite.py`). It takes the prompt from its
  argument or from piped standard input. It builds the JSON payload by
  conditional insertion and posts it to `host.rstrip("/") + "/rewrite"`. It
  prints the stripped `rewritten_prompt`, or exits 2 (no prompt) or 1 (any
  failure).
- **The end-to-end test script** (`test_rewrite_api.py`). It builds its own
  payload, reads the service's reply, and, unless strict checking is switched
  off, requires the six T4All section headers to appear in order.

The Python operations the code relies on are modelled in their own modules:

- `PyStr`: `str.strip`, with Python's full `isspace` set; `upper`; `in` and
  `find`; `join` and `split`; `rstrip("/")`; and truthiness.
- `Json`: JSON values, and a dictionary as an insertion-ordered list of pairs.
  Assigning to a key that exists keeps its place; a new key goes at the end.

I/O is not modelled directly. The Ollama server, the file system, rules
loading, template reading and the HTTP post to the service are all
function-typed parameters (`LlmClient.Ollama`, `Server.Deployment`, the
`post` argument of `CliClient.Run`).

Files: `wrappers.dfy`, `pystr.dfy`, `json.dfy`, `llm_client.dfy`,
`server.dfy`, `endpoint.dfy`, `api_test.dfy`, `cli_client.dfy`.

## Model

| member | source | states |
|---|---|---|
| PyStr.Strip | llm_client.py:142 | The result has no whitespace at either end. It is the slice of the input left after removing whitespace-only runs at the start and at the end. |
| PyStr.StripOfPadded | main.py:115 | Stripping a text with no edge whitespace, padded on both sides by whitespace only, gives that text back. |
| PyStr.StripIdempotent | main.py:115 | Stripping twice is the same as stripping once. |
| PyStr.StripEmptyIff | llm_client.py:163 | A text strips to empty exactly when it is all whitespace. |
| PyStr.Find | test_rewrite_api.py:88 | `find` gives the first index where the pattern occurs (no earlier occurrence exists), and -1 exactly when it does not occur. |
| PyStr.SplitJoin | main.py:37 | Joining pieces that do not contain the separator, then splitting on it, gives back the pieces. |
| PyStr.JoinSplit | main.py:37 | Splitting gives at least one piece, none containing the separator, and joining them again gives back the text. |
| PyStr.RStripChar | test_rewrite_api.py:16 | `rstrip("/")` gives a prefix that does not end in `/`, and everything it drops is `/`. |
| PyStr.Upper | llm_client.py:61 | `upper` keeps the length, leaves no lower-case ASCII letter, maps each lower-case letter to its upper-case form and keeps every other character. |
| PyStr.UpperIdempotent | llm_client.py:61 | Upper-casing twice is the same as upper-casing once. |
| Json.Lookup | rewrite.py:95-98 | `d.get(key)`: a key is missing exactly when it is not among the keys, and a present key gives the value paired with its first occurrence. |
| Json.PutLookup | rewrite.py:95-98 | After `d[key] = v`, looking up `key` gives `v`, and every other key is unchanged. |
| Json.PutKeys | rewrite.py:95-98 | Assigning to an existing key keeps the key order; assigning a new key appends it. |
| Json.PutKeepsDistinct | rewrite.py:95-98 | Assignment never duplicates a key. |
| Json.OrEmptyStripped | llm_client.py:162 | `(v or "").strip()`: a missing or falsy value gives `""`, a string gives its strip, and any other truthy value has no `strip`. |
| Json.DefaultStripped | rewrite.py:111 | `.get(k, "").strip()`: a missing key gives `""`, a string gives its strip, and any present non-string (null included) has no `strip`. |
| LlmClient.BuildRulesText | llm_client.py:58-64 | The loop keeps its parts equal to the lines of the sections seen so far. The result is the newline join of one header per section, each followed by its item lines. |
| LlmClient.RulesLineCount | llm_client.py:58-64 | There is one line per section plus one per item. |
| LlmClient.RulesTextEmptyIff | llm_client.py:58-64 | The rules text is empty exactly when the mapping is empty. |
| LlmClient.RulesTextLines | llm_client.py:58-64 | When names and items contain no newline, splitting the text into lines recovers exactly the header and item lines. |
| LlmClient.BuildContextBlob | llm_client.py:67-86 | The result is the blank-line join of the truthy fields' chunks, each labelled, in the order context, stack, files, errors, function spec. |
| LlmClient.ChunkCount | llm_client.py:67-86 | There is one chunk per truthy field. |
| LlmClient.ContextBlobEmptyIff | llm_client.py:67-86 | The blob is empty exactly when no field is truthy (`None`, `""` and `[]` all count as falsy). |
| LlmClient.ContextComesFirst | llm_client.py:76-77 | A truthy free-text context opens the blob, verbatim. |
| LlmClient.FilesChunkLines | llm_client.py:80-81 | When no file name holds a newline, the files chunk (`FilesChunk`) splits into a `Files:` line followed by one `- file` line per file, in order. |
| LlmClient.FilesOnlyBlob | llm_client.py:80-81 | With only files given, the blob is the bulleted file list. |
| LlmClient.TwoFilesBlob | llm_client.py:80-81 | Two files give `Files:\n- a.py\n- b.py`. |
| LlmClient.LooksLikeCode | llm_client.py:89-99 | The predicate itself: a code fence or one of the seventeen markers occurs in the text. The lemmas below are about it. |
| LlmClient.LooksLikeCodeAcrossNewline | llm_client.py:102-104 | The newline between request and blob never creates a marker, so the haystack looks like code exactly when one of its halves does. |
| LlmClient.PlainTextIsNotCode | llm_client.py:89-99 | A text with no space, colon, brace, semicolon or backtick never looks like code. |
| LlmClient.NoMarkerLetterIsNotCode | llm_client.py:89-99 | Every fence and marker holds one of the letters c, d, l, m, n, p, r, a brace, a semicolon or a backtick, so a text with none of these, spaces allowed, never looks like code. |
| LlmClient.FixTheBugIsProse | llm_client.py:89-99 | The request `fix the bug` does not look like code. |
| LlmClient.PickModel | llm_client.py:102-104 | The coder model is chosen when the request or the blob looks like code, and the general model otherwise. When the two models differ, the coder model is chosen exactly when the haystack looks like code. |
| LlmClient.DefOrSemicolonPicksCoder | llm_client.py:92-98 | A request containing `def ` or `;` goes to the coder model. |
| LlmClient.FullPrompt | llm_client.py:138-143 | The prompt starts with the template, then the context, rules and `User Request:` headings, and ends with the stripped request followed by one newline. |
| LlmClient.FullPromptDeterminesRequest | llm_client.py:138-143 | With the same template, blob and rules, two prompts are equal exactly when the stripped requests are equal. |
| LlmClient.AcceptResponse | llm_client.py:159-164 | A reply is accepted exactly when it is a JSON object whose `response` is a string with a non-blank strip, and the accepted text is that strip. A missing, null or blank response is the empty-response error. |
| LlmClient.AcceptedIsStripped | llm_client.py:162 | The accepted text is unchanged by another strip. |
| LlmClient.GenerateRewrite | llm_client.py:109-165 | An unreachable server is reported first. Then an unreadable template is reported with its path. Then the chosen model must become available: a rejected pull and a timeout are each reported as their own error (`PullFailed`, `ModelNotReady`), both tagged with the model name. Otherwise the result is exactly the check of the server's reply to that model and the composed prompt. A result is non-empty and has no edge whitespace. |
| LlmClient.GenerateAnswered | llm_client.py:109-165 | When the server is up, the template reads, the chosen model is available and the server's reply to that model's composed prompt is a JSON object whose `response` field is a non-blank string (other fields may be present), the rewrite is that string, stripped. |
| Server.ResolveProfile | main.py:96 | A missing or empty profile selects `t4all`. An unknown profile falls back to `t4all`. A known profile gives its own files. |
| Server.Override | main.py:97-98 | A non-empty override replaces the profile's file name. Otherwise the profile's name is used. |
| Server.RequestedNames | main.py:96-98 | Both file names are non-empty. Each is the request's override when that is truthy, else the resolved profile's file. |
| Server.SafeJoin | main.py:32-42 | A path outside the base is refused as invalid before existence is checked. A path strictly below the base that exists is returned; one that does not exist is refused as not found. |
| Server.SafeJoinBelowBase | main.py:38-39 | For any base other than the root, exactly the existing paths strictly below the base are accepted. |
| Server.BasenameAccepted | main.py:37-41 | A plain basename resolves to the entry right below the base, and is accepted exactly when that entry exists. |
| Server.NestedNameAccepted | main.py:33-41 | The docstring of `_safe_join` speaks of basenames only, but the code accepts any existing path strictly below the base: a name `dir/name` resolves two levels down and is accepted exactly when it exists. |
| Server.Normalize | main.py:37 | Applying segments adds at most one path segment per input segment, and keeps a canonical path canonical when no segment holds `/`. |
| Server.Resolve | main.py:37 | `(base / name).resolve()`, lexically: resolving against a canonical base gives a canonical path (no empty, `.` or `..` segment). |
| Server.RelativeNameResolves | main.py:37 | A name whose `/`-separated segments are all basenames (not absolute, not empty, no `.` or `..`) resolves to the base followed by those segments, in order. |
| Server.TraversalRejected | main.py:37-39 | `../../etc/passwd` under the rules directory is refused as invalid, whatever the working directory and whether or not the target exists. |
| Server.ValidatedPaths | main.py:100-101 | The rules path is checked first, and its error wins. If only the template fails, its error is returned. Both validate exactly when each join succeeds, and then the result is the pair of joined paths. |
| Server.DefaultProfilePaths | main.py:100-101 | The `default` profile's files validate to their places under the rules and templates directories when both exist. |
| Server.RewritePrompt | main.py:93-115 | A rejected path is answered with its HTTP error. A rules file that fails to load gives 500 `Failed to load rules: ...`. Otherwise a generation error is passed on as an internal error, and a generated prompt is returned as it is (it is already stripped): non-empty with no edge whitespace. |
| Server.RejectedBeforeServerCall | main.py:100-103 | A rejected file name gives a 400 answer that does not depend on the rules loader, the template reader or the model server. |
| Server.TraversalRequestRejected | main.py:100 | A request whose `rules_file` is `../../etc/passwd` is answered with 400 `Invalid file path.`. |
| Server.DefaultProfileRoundTrip | main.py:93-115 | For `{"raw_prompt": "fix the bug", "profile": "default"}`: the general model is chosen. When the default profile's files exist and load, the server is up, the general model is available and the server's reply to the composed prompt is a JSON object whose `response` field is a non-blank string (other fields may be present), the service returns that string stripped. |
| Server.GeneralModelForFixTheBug | llm_client.py:102-104 | With no context fields, `fix the bug` goes to the general model. |
| Endpoint.RewriteUrl | rewrite.py:100 | The URL ends in `/rewrite`. What precedes it is a prefix of the host that does not end in `/`, and it drops only trailing slashes. |
| Endpoint.TrailingSlashIgnored | test_rewrite_api.py:16 | A trailing slash on the host does not change the URL. |
| Endpoint.HostKeptVerbatim | test_rewrite_api.py:16 | A host without a trailing slash is used as it is. |
| ApiTest.StrictSections | test_rewrite_api.py:26 | Strict checking is on unless the variable is set to `0`, `false` or `False`; an unset variable means on. |
| ApiTest.AltNeverHelps | test_rewrite_api.py:87-90 | When `Constraints` does not occur, `Constraints & Standards` cannot occur either. |
| ApiTest.CheckSections | test_rewrite_api.py:74-101 | The check passes exactly when strict checking is off, or every header occurs and their first occurrences never go backwards. |
| ApiTest.MissingHeaderRejected | test_rewrite_api.py:88-93 | A text missing any of the six headers fails the order check. |
| ApiTest.PostRewrite | test_rewrite_api.py:53-71 | HTTP errors and non-JSON bodies stop the script. The prompt is accepted exactly when `rewritten_prompt` is a string with a non-blank strip, and the result is that strip. A missing key is an empty prompt. |
| ApiTest.NullPromptIsEmpty | test_rewrite_api.py:68-70 | A JSON null `rewritten_prompt` counts as an empty prompt. |
| ApiTest.PutOverride | test_rewrite_api.py:126-129 | Setting a key the payload lacks appends it when the override is truthy and leaves the payload alone otherwise. |
| ApiTest.TestBase | test_rewrite_api.py:115-123 | The test payload starts with `raw_prompt`, `profile`, `files` and `function_spec`, and its `profile` is the configured one. |
| ApiTest.BuildTestPayload | test_rewrite_api.py:115-129 | The keys are the four fixed keys, then `rules_file` when its override is non-empty, then `template_file` when its override is non-empty. Each override has its own value. The size is four plus the number of overrides set. |
| CliClient.RawPrompt | rewrite.py:65-77 | A non-empty argument, stripped, comes first. Otherwise piped input, stripped, is used. An interactive terminal with no argument gives no prompt. The prompt is always already stripped. |
| CliClient.AssignIf | rewrite.py:85-98 | One conditional insertion assigns the slot's value when its argument is truthy, and nothing otherwise. |
| CliClient.BuildPayload | rewrite.py:79-98 | The payload is the two fixed pairs followed by the six conditional insertions, in source order. |
| CliClient.FillLookup | rewrite.py:85-98 | After a run of conditional insertions, a key holds the value of the last truthy slot carrying it, or what it held before. |
| CliClient.PayloadLookup | rewrite.py:79-98 | The payload holds the prompt and profile always, each optional argument exactly when it is truthy, and nothing under any other key. |
| CliClient.PayloadKeysKnown | rewrite.py:79-98 | Only the eight known keys appear, each at most once. |
| CliClient.Finish | rewrite.py:102-121 | Every failure exits with 1. The prompt is printed exactly when `rewritten_prompt` is a string with a non-blank strip, and the printed text is that strip. A missing key is an empty response; a null crashes. |
| CliClient.Run | rewrite.py:74-121 | With no prompt the run exits with 2. Otherwise it posts the specified payload to the rewrite URL and ends as `Finish` says. A printed prompt is never empty, and every exit is non-zero. |

## Left out

- `_ollama_up` and `_ensure_model` (llm_client.py:18-53): the HTTP calls, the pull and the polling loop with its timeout are not modelled. Their outcomes (reachable or not; available, pull rejected, not ready in time) are parameters of `LlmClient.Ollama`.
- LlmClient.GenerateRewrite: the error values are the model's own labels, not the source's messages. A rejected pull raises `requests.HTTPError` from `raise_for_status` (llm_client.py:39-40). Its message gives the status and the `/api/pull` URL, not the model name. Only the timeout error (llm_client.py:53) names the model. `PullFailed(model)` carries the name all the same. No message reaches the caller: `rewrite_prompt` (main.py:93-115) does not catch these exceptions, so FastAPI answers each with a plain 500, and `Server.Internal` stands for that answer.
- The generation options (temperature, top_p) and timeouts are not modelled: they are floating-point values and network settings that do not affect the logic.
- HTTP, JSON decoding, `requests` and FastAPI request parsing are not modelled. Replies are given as already-decoded `Json.Reply` values.
- Request validation is not modelled. `profile` is declared `Literal["t4all", "default"]` (main.py:62), so the service refuses any other profile with 422 before line 96 runs. The unknown-profile fallback in `Server.ResolveProfile` is therefore unreachable over HTTP; it is modelled because the code has it.
- YAML parsing (`_load_rules`, main.py:44-49) and template reading are oracles. An empty document becomes the empty mapping (`or {}`), which the oracle can return. Rules are modelled as string section names, each with a list of string items. That leaves out these cases, which `_build_rules_text` handles differently (llm_client.py:61-63):
  - a section whose value is a string, which Python iterates one character at a time;
  - items that are not strings, which are formatted with `str()`;
  - section names that are not strings, which fail at `.upper()`;
  - a section whose value is null, a number or a boolean, which makes `for item in lines` raise `TypeError`. YAML gives null for a section with no items (`Goal:` alone). `rewrite_prompt` does not catch the error, so the service answers with a plain 500;
  - a section whose value is a mapping, which gives one `- key` line per key of that mapping.

  A rules document that is not a mapping is not modelled either.
- `Path.resolve` is modelled lexically: symbolic links are not followed.
- `str.upper` is modelled for ASCII letters only; Unicode case mapping is left out.
- `show_config` (main.py:69-77) is not modelled. It reports the host setting and reads `PROMPT_OPTIMIZER_COMPUTE` from the environment. `list_profiles` (main.py:81-90) is not modelled either. It reports the profiles and globs the rules and templates folders for `*.y*ml` and `*.txt` files. The `_OLLAMA_HOST_ENV` import at main.py:10 names a value `llm_client.py` does not define, so the module as written would fail to import; the model ignores that import.
- Environment variables, `argparse`, and printing to standard output and standard error are not modelled: their values are parameters (for example `Args`, and the `env` argument of `ApiTest.StrictSections`).
- `ensure_api` in the test script (test_rewrite_api.py:31-50) is a network probe and is not modelled.
- `smoke_ollama_prompt_optimizer.py` is not part of this model.
- Server.SafeJoin: the root directory accepted as its own child (`resolved == base == /`) is modelled as the source does it. The lemmas about ordinary use assume a base other than the root.
- CliClient.Finish: a reply that is a JSON value but not an object, and a present non-string `rewritten_prompt`, both end as an uncaught exception in the source. Both are modelled as exit 1 (`Crashed`), without the traceback.
