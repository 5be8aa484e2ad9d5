/** The command-line client: where the prompt comes from, the request payload
    built by conditional insertion, and how the reply becomes either the
    printed prompt or a non-zero exit code. */
module CliClient {
  import opened Wrappers
  import opened PyStr
  import Json
  import Endpoint

  /** The parsed command line. */
  datatype Args = Args(
    rawPrompt: Option<string>,
    host: string,
    profile: string,
    rulesFile: Option<string>,
    templateFile: Option<string>,
    stack: Option<string>,
    files: Option<seq<string>>,
    errors: Option<string>,
    functionSpec: Option<string>)

  /** Standard input: an interactive terminal, or piped text. */
  datatype Stdin = Tty | Piped(text: string)

  datatype Reason = NoPrompt | RequestFailed | InvalidJson | EmptyResponse | Crashed

  /** What the run ends in: the prompt printed on standard output, or an exit code. */
  datatype Outcome = Printed(text: string) | Exited(code: int, reason: Reason)

  /** The prompt to send: the stripped positional argument when it is
      non-empty, else the stripped standard input, and nothing (exit code 2)
      when standard input is a terminal. */
  function RawPrompt(arg: Option<string>, stdin: Stdin): (r: Option<string>)
    ensures r.None? <==> !TruthyStr(arg) && stdin.Tty?
    ensures TruthyStr(arg) ==> r == Some(Strip(arg.value))
    ensures !TruthyStr(arg) && stdin.Piped? ==> r == Some(Strip(stdin.text))
    ensures r.Some? ==> Strip(r.value) == r.value
  {
    if TruthyStr(arg) then
      StripIdempotent(arg.value);
      Some(Strip(arg.value))
    else if stdin.Tty? then None
    else
      StripIdempotent(stdin.text);
      Some(Strip(stdin.text))
  }

  /** One `if arg: payload[key] = value` of the client: whether the argument
      is truthy, its key, and the value sent when it is. */
  datatype Slot = Slot(present: bool, key: string, value: Json.Value)

  /** The six optional arguments, in the order the client inserts them. */
  function Slots(args: Args): seq<Slot> {
    [Slot(TruthyStr(args.stack), "stack", Json.Str(args.stack.GetOr(""))),
     Slot(TruthyList(args.files), "files", Json.StrList(args.files.GetOr([]))),
     Slot(TruthyStr(args.errors), "errors", Json.Str(args.errors.GetOr(""))),
     Slot(TruthyStr(args.functionSpec), "function_spec", Json.Str(args.functionSpec.GetOr(""))),
     Slot(TruthyStr(args.rulesFile), "rules_file", Json.Str(args.rulesFile.GetOr(""))),
     Slot(TruthyStr(args.templateFile), "template_file", Json.Str(args.templateFile.GetOr("")))]
  }

  /** `if arg: d[key] = value`. */
  function Assign(d: Json.Dict, slot: Slot): Json.Dict {
    if slot.present then Json.Put(d, slot.key, slot.value) else d
  }

  /** `d` after the assignments of all the slots, in order. */
  function Fill(d: Json.Dict, slots: seq<Slot>): Json.Dict
    decreases |slots|
  {
    if slots == [] then d else Fill(Assign(d, slots[0]), slots[1..])
  }

  /** The two keys every payload starts with. */
  function Base(args: Args, raw: string): Json.Dict {
    [("raw_prompt", Json.Str(raw)), ("profile", Json.Str(args.profile))]
  }

  /** The payload the client sends, as a specification: the two fixed keys,
      then one conditional assignment per optional argument, in a fixed order. */
  function Payload(args: Args, raw: string): Json.Dict {
    Fill(Base(args, raw), Slots(args))
  }

  /** Six assignments in a row, one per slot, are the fill of those slots. */
  lemma FillSix(d0: Json.Dict, d1: Json.Dict, d2: Json.Dict, d3: Json.Dict, d4: Json.Dict, d5: Json.Dict,
      d6: Json.Dict, slots: seq<Slot>)
    requires |slots| == 6
    requires d1 == Assign(d0, slots[0]) && d2 == Assign(d1, slots[1]) && d3 == Assign(d2, slots[2])
    requires d4 == Assign(d3, slots[3]) && d5 == Assign(d4, slots[4]) && d6 == Assign(d5, slots[5])
    ensures d6 == Fill(d0, slots)
  {
    var t1 := slots[1..];
    var t2 := t1[1..];
    var t3 := t2[1..];
    var t4 := t3[1..];
    var t5 := t4[1..];
    assert Fill(d0, slots) == Fill(d1, t1);
    assert Fill(d1, t1) == Fill(d2, t2);
    assert Fill(d2, t2) == Fill(d3, t3);
    assert Fill(d3, t3) == Fill(d4, t4);
    assert Fill(d4, t4) == Fill(d5, t5);
    assert Fill(d5, t5) == Fill(d6, t5[1..]);
    assert t5[1..] == [];
  }

  /** `if arg: payload[key] = value`. */
  method AssignIf(payload: Json.Dict, slot: Slot) returns (next: Json.Dict)
    ensures next == Assign(payload, slot)
  {
    next := payload;
    if slot.present {
      next := Json.Put(payload, slot.key, slot.value);
    }
  }

  /** The payload construction of `main`: the two fixed keys, then one
      conditional assignment per optional argument. */
  method BuildPayload(args: Args, raw: string) returns (payload: Json.Dict)
    ensures payload == Payload(args, raw)
  {
    var d0 := [("raw_prompt", Json.Str(raw)), ("profile", Json.Str(args.profile))];
    var d1 := AssignIf(d0, Slot(TruthyStr(args.stack), "stack", Json.Str(args.stack.GetOr(""))));
    var d2 := AssignIf(d1, Slot(TruthyList(args.files), "files", Json.StrList(args.files.GetOr([]))));
    var d3 := AssignIf(d2, Slot(TruthyStr(args.errors), "errors", Json.Str(args.errors.GetOr(""))));
    var d4 := AssignIf(d3, Slot(TruthyStr(args.functionSpec), "function_spec", Json.Str(args.functionSpec.GetOr(""))));
    var d5 := AssignIf(d4, Slot(TruthyStr(args.rulesFile), "rules_file", Json.Str(args.rulesFile.GetOr(""))));
    payload := AssignIf(d5, Slot(TruthyStr(args.templateFile), "template_file", Json.Str(args.templateFile.GetOr(""))));
    FillSix(d0, d1, d2, d3, d4, d5, payload, Slots(args));
  }

  /** The value the last truthy slot carrying `key` assigns, if any. */
  function FoundSlot(slots: seq<Slot>, key: string): Option<Json.Value>
    decreases |slots|
  {
    if slots == [] then None
    else
      var later := FoundSlot(slots[1..], key);
      if later.Some? then later
      else if slots[0].present && slots[0].key == key then Some(slots[0].value)
      else None
  }

  /** Filling leaves under a key the last slot value assigned to it, or what `d` had. */
  lemma {:induction false} FillLookup(d: Json.Dict, slots: seq<Slot>, key: string)
    decreases |slots|
    ensures Json.Lookup(Fill(d, slots), key) ==
      if FoundSlot(slots, key).Some? then FoundSlot(slots, key) else Json.Lookup(d, key)
  {
    if slots != [] {
      FillLookup(Assign(d, slots[0]), slots[1..], key);
      if slots[0].present {
        Json.PutLookup(d, slots[0].key, slots[0].value, key);
      }
    }
  }

  /** No two slots carry the same key. */
  predicate DistinctSlotKeys(slots: seq<Slot>) {
    forall i, j :: 0 <= i < j < |slots| ==> slots[i].key != slots[j].key
  }

  /** A key no slot carries is never assigned. */
  lemma {:induction false} FoundSlotMissing(slots: seq<Slot>, key: string)
    requires forall j :: 0 <= j < |slots| ==> slots[j].key != key
    decreases |slots|
    ensures FoundSlot(slots, key) == None
  {
    if slots != [] {
      FoundSlotMissing(slots[1..], key);
    }
  }

  /** The only slot carrying a key assigns it exactly when it is truthy. */
  lemma {:induction false} FoundSlotAt(slots: seq<Slot>, key: string, i: nat)
    requires DistinctSlotKeys(slots) && i < |slots| && slots[i].key == key
    decreases i
    ensures FoundSlot(slots, key) == if slots[i].present then Some(slots[i].value) else None
  {
    if i > 0 {
      assert slots[0].key != key && slots[1..][i - 1] == slots[i];
      FoundSlotAt(slots[1..], key, i - 1);
    } else {
      FoundSlotMissing(slots[1..], key);
    }
  }

  /** The client's six optional keys are distinct. */
  lemma SlotKeysDistinct(args: Args)
    ensures DistinctSlotKeys(Slots(args))
  {
  }

  /** What the payload holds under each key: the stripped prompt and the
      profile always, each optional argument exactly when it is truthy, and
      nothing under any other key. */
  function Expected(args: Args, raw: string, key: string): Option<Json.Value> {
    if key == "raw_prompt" then Some(Json.Str(raw))
    else if key == "profile" then Some(Json.Str(args.profile))
    else if key == "stack" then (if TruthyStr(args.stack) then Some(Json.Str(args.stack.value)) else None)
    else if key == "files" then (if TruthyList(args.files) then Some(Json.StrList(args.files.value)) else None)
    else if key == "errors" then (if TruthyStr(args.errors) then Some(Json.Str(args.errors.value)) else None)
    else if key == "function_spec" then
      (if TruthyStr(args.functionSpec) then Some(Json.Str(args.functionSpec.value)) else None)
    else if key == "rules_file" then (if TruthyStr(args.rulesFile) then Some(Json.Str(args.rulesFile.value)) else None)
    else if key == "template_file" then
      (if TruthyStr(args.templateFile) then Some(Json.Str(args.templateFile.value)) else None)
    else None
  }

  /** The optional slots assign what `Expected` says for every key but the fixed two. */
  lemma FoundSlotExpected(args: Args, raw: string, key: string)
    ensures FoundSlot(Slots(args), key) == if key == "raw_prompt" || key == "profile" then None else Expected(args, raw, key)
  {
    var s := Slots(args);
    SlotKeysDistinct(args);
    if key == "stack" {
      FoundSlotAt(s, key, 0);
    } else if key == "files" {
      FoundSlotAt(s, key, 1);
    } else if key == "errors" {
      FoundSlotAt(s, key, 2);
    } else if key == "function_spec" {
      FoundSlotAt(s, key, 3);
    } else if key == "rules_file" {
      FoundSlotAt(s, key, 4);
    } else if key == "template_file" {
      FoundSlotAt(s, key, 5);
    } else {
      FoundSlotMissing(s, key);
    }
  }

  lemma LookupPair(k1: string, v1: Json.Value, k2: string, v2: Json.Value, key: string)
    ensures Json.Lookup([(k1, v1), (k2, v2)], key) == if key == k1 then Some(v1) else if key == k2 then Some(v2) else None
  {
    assert [(k1, v1), (k2, v2)][1..] == [(k2, v2)];
  }

  /** The payload holds exactly what `Expected` says, key by key. */
  lemma PayloadLookup(args: Args, raw: string, key: string)
    ensures Json.Lookup(Payload(args, raw), key) == Expected(args, raw, key)
  {
    FillLookup(Base(args, raw), Slots(args), key);
    LookupPair("raw_prompt", Json.Str(raw), "profile", Json.Str(args.profile), key);
    FoundSlotExpected(args, raw, key);
  }

  /** The eight keys the client can send. */
  const PayloadKeys: set<string> :=
    {"raw_prompt", "profile", "stack", "files", "errors", "function_spec", "rules_file", "template_file"}

  /** Every key of `d` is one of `keys`. */
  ghost predicate KeysAmong(d: Json.Dict, keys: set<string>) {
    forall i :: 0 <= i < |d| ==> d[i].0 in keys
  }

  /** The keys the slots can assign. */
  ghost function SlotKeys(slots: seq<Slot>): set<string> {
    set i | 0 <= i < |slots| :: slots[i].key
  }

  /** One assignment keeps the keys distinct and adds at most its own key. */
  lemma AssignKeeps(d: Json.Dict, slot: Slot, keys: set<string>)
    requires Json.DistinctKeys(d) && KeysAmong(d, keys)
    ensures Json.DistinctKeys(Assign(d, slot))
    ensures KeysAmong(Assign(d, slot), keys + {slot.key})
  {
    if slot.present {
      Json.PutKeepsDistinct(d, slot.key, slot.value);
      Json.PutKeys(d, slot.key, slot.value);
      var r := Json.Put(d, slot.key, slot.value);
      forall i | 0 <= i < |r| ensures r[i].0 in keys + {slot.key} {
        assert r[i].0 == Json.Keys(r)[i];
        if i < |d| {
          assert Json.Keys(d)[i] == d[i].0;
        }
      }
    }
  }

  /** Filling keeps the keys distinct and adds only the slots' keys. */
  lemma {:induction false} FillKeeps(d: Json.Dict, slots: seq<Slot>, keys: set<string>)
    requires Json.DistinctKeys(d) && KeysAmong(d, keys)
    decreases |slots|
    ensures Json.DistinctKeys(Fill(d, slots))
    ensures KeysAmong(Fill(d, slots), keys + SlotKeys(slots))
  {
    if slots == [] {
      assert SlotKeys(slots) == {};
    } else {
      var rest := slots[1..];
      AssignKeeps(d, slots[0], keys);
      FillKeeps(Assign(d, slots[0]), rest, keys + {slots[0].key});
      assert keys + {slots[0].key} + SlotKeys(rest) == keys + SlotKeys(slots) by {
        forall i | 0 <= i < |slots| ensures slots[i].key in {slots[0].key} + SlotKeys(rest) {
          if i > 0 {
            assert slots[i] == rest[i - 1];
          }
        }
        forall i | 0 <= i < |rest| ensures rest[i].key in SlotKeys(slots) {
          assert rest[i] == slots[i + 1];
        }
      }
    }
  }

  /** Only the eight known keys ever appear, each at most once. */
  lemma PayloadKeysKnown(args: Args, raw: string)
    ensures KeysAmong(Payload(args, raw), PayloadKeys)
    ensures Json.DistinctKeys(Payload(args, raw))
  {
    var s := Slots(args);
    var base := Base(args, raw);
    var keys: set<string> := {"raw_prompt", "profile"};
    assert Json.DistinctKeys(base) && KeysAmong(base, keys);
    FillKeeps(base, s, keys);
    assert SlotKeys(s) == {"stack", "files", "errors", "function_spec", "rules_file", "template_file"} by {
      assert s[0].key == "stack" && s[1].key == "files" && s[2].key == "errors";
      assert s[3].key == "function_spec" && s[4].key == "rules_file" && s[5].key == "template_file";
    }
  }

  /** The end of a run: `.get("rewritten_prompt", "").strip()`, printed when
      non-empty; a request failure, a body that is not JSON, an empty prompt
      and a crash on a non-string value all end with exit code 1. */
  function Finish(reply: Json.Reply): (outcome: Outcome)
    ensures outcome.Exited? ==> outcome.code == 1
    ensures outcome.Printed? <==> (reply.Decoded? && reply.data.Object? && "rewritten_prompt" in reply.data.fields
      && reply.data.fields["rewritten_prompt"].Str? && Strip(reply.data.fields["rewritten_prompt"].s) != "")
    ensures outcome.Printed? ==> outcome.text == Strip(reply.data.fields["rewritten_prompt"].s) && NoEdgeSpace(outcome.text)
    ensures reply.Decoded? && reply.data.Object? && "rewritten_prompt" !in reply.data.fields
      ==> outcome == Exited(1, EmptyResponse)
    ensures reply.Decoded? && reply.data.Object? && Json.Get(reply.data.fields, "rewritten_prompt") == Some(Json.Null)
      ==> outcome == Exited(1, Crashed)
  {
    match reply
    case HttpFailure(_) => Exited(1, RequestFailed)
    case NotJson => Exited(1, InvalidJson)
    case Decoded(data) =>
      if !data.Object? then Exited(1, Crashed)
      else
        match Json.DefaultStripped(Json.Get(data.fields, "rewritten_prompt"))
        case None => Exited(1, Crashed)
        case Some(text) => if text == "" then Exited(1, EmptyResponse) else Printed(text)
  }

  /** One run of the client against a rewrite service that answers a URL and
      a payload with `post`. */
  method Run(args: Args, stdin: Stdin, post: (string, Json.Dict) -> Json.Reply) returns (outcome: Outcome)
    ensures RawPrompt(args.rawPrompt, stdin).None? ==> outcome == Exited(2, NoPrompt)
    ensures RawPrompt(args.rawPrompt, stdin).Some? ==>
      outcome == Finish(post(Endpoint.RewriteUrl(args.host), Payload(args, RawPrompt(args.rawPrompt, stdin).value)))
    ensures outcome.Exited? ==> outcome.code != 0
    ensures outcome.Printed? ==> outcome.text != "" && NoEdgeSpace(outcome.text)
  {
    var raw := RawPrompt(args.rawPrompt, stdin);
    if raw.None? {
      return Exited(2, NoPrompt);
    }
    var payload := BuildPayload(args, raw.value);
    var url := Endpoint.RewriteUrl(args.host);
    outcome := Finish(post(url, payload));
  }
}
