/**
 `classifyRequest` (hook.mjs): labels an outgoing request by its URL path
 and JSON body, and extracts the model it addresses. The rules form an
 ordered list; the first rule that decides wins.
 */
module RequestClassifier {
  import opened Text
  import opened Js
  import opened Events
  import Cascade

  datatype RequestClass = RequestClass(kind: EventType, summary: string, model: Json)

  /** What the rules look at: the URL path, the raw body, the unwrapped payload and the model. */
  datatype Context = Context(pathname: string, body: Json, payload: Json, model: Json)

  const ModelsSegment := "/models/"

  /** Length of the longest prefix of `s` without a colon (`[^:]+` is greedy). */
  function ColonFreeRun(s: string): (n: nat)
    ensures n <= |s|
    ensures forall i :: 0 <= i < n ==> s[i] != ':'
    ensures n < |s| ==> s[n] == ':'
  {
    if |s| > 0 && s[0] != ':' then 1 + ColonFreeRun(s[1..]) else 0
  }

  /** `/models/` starts at index `i` of `p` and is followed by a character other than a colon. */
  ghost predicate SegmentAt(p: string, i: int) {
    0 <= i && i + |ModelsSegment| < |p| && p[i..i + |ModelsSegment|] == ModelsSegment && p[i + |ModelsSegment|] != ':'
  }

  /** The capture of `pathname.match(/\/models\/([^:]+)/)`, searching left to right. */
  function PathModel(p: string): Option<string>
    decreases |p|
  {
    if |p| <= |ModelsSegment| then None
    else if p[..|ModelsSegment|] == ModelsSegment && p[|ModelsSegment|] != ':' then
      Some(p[|ModelsSegment|..][..ColonFreeRun(p[|ModelsSegment|..])])
    else PathModel(p[1..])
  }

  /**
   The regular-expression search finds the leftmost `/models/` that is
   followed by a non-colon character and captures everything up to the
   next colon or the end of the path; it fails only when no such
   occurrence exists.
   */
  lemma {:induction false} PathModelSpec(p: string)
    ensures PathModel(p).None? <==> forall i :: !SegmentAt(p, i)
    ensures PathModel(p).Some? ==>
              exists i :: SegmentAt(p, i) && (forall j :: 0 <= j < i ==> !SegmentAt(p, j))
                          && PathModel(p).value == p[i + |ModelsSegment|..][..ColonFreeRun(p[i + |ModelsSegment|..])]
    ensures PathModel(p).Some? ==> |PathModel(p).value| > 0 && ':' !in PathModel(p).value
    decreases |p|
  {
    var n := |ModelsSegment|;
    if |p| <= n {
    } else if p[..n] == ModelsSegment && p[n] != ':' {
      assert p[0..n] == p[..n];
      assert SegmentAt(p, 0);
    } else {
      assert !SegmentAt(p, 0) by { assert p[0..n] == p[..n]; }
      PathModelSpec(p[1..]);
      forall i | 1 <= i
        ensures SegmentAt(p, i) <==> SegmentAt(p[1..], i - 1)
      {
        if i + n < |p| {
          assert p[1..][i - 1..i - 1 + n] == p[i..i + n];
          assert p[1..][i - 1 + n] == p[i + n];
        }
      }
      if PathModel(p[1..]).Some? {
        var i :| SegmentAt(p[1..], i) && (forall j :: 0 <= j < i ==> !SegmentAt(p[1..], j))
                 && PathModel(p[1..]).value == p[1..][i + n..][..ColonFreeRun(p[1..][i + n..])];
        assert SegmentAt(p, i + 1);
        assert p[1..][i + n..] == p[i + 1 + n..];
        forall j | 0 <= j < i + 1 ensures !SegmentAt(p, j) {
          if j > 0 {
            assert !SegmentAt(p[1..], j - 1);
          }
        }
      } else {
        forall i ensures !SegmentAt(p, i) {
          if i >= 1 {
            assert !SegmentAt(p[1..], i - 1);
          }
        }
      }
    }
  }

  /**
   `jsonBody.model || payload.model || ''`, and, when that is empty and
   the path mentions `/models/`, the path segment after it.
   */
  function ModelOf(body: Json, payload: Json, pathname: string): Json {
    var m := Or(Or(Member(body, "model"), Member(payload, "model")), Some(JStr(""))).value;
    if !Truthy(Some(m)) && Contains(pathname, ModelsSegment) then
      match PathModel(pathname)
      case Some(segment) => JStr(segment)
      case None => m
    else m
  }

  /** Where the extracted model comes from, in order of precedence. */
  lemma ModelSources(body: Json, pathname: string)
    ensures var payload := Unwrap(body, "request");
            var outer := Member(body, "model");
            var inner := Member(payload, "model");
            var model := ModelOf(body, payload, pathname);
            && (Truthy(outer) ==> model == outer.value)
            && (!Truthy(outer) && Truthy(inner) ==> model == inner.value)
            && (!Truthy(outer) && !Truthy(inner) && PathModel(pathname).Some? ==> model == JStr(PathModel(pathname).value))
            && (!Truthy(outer) && !Truthy(inner) && PathModel(pathname).None? ==> model == JStr(""))
  {
    PathModelSpec(pathname);
    if PathModel(pathname).Some? {
      var i :| SegmentAt(pathname, i);
      ContainsAt(pathname, ModelsSegment, i);
    }
  }

  /** The rules of `classifyRequest`, in the order the source tries them. */
  datatype RequestRule =
    | MetaByUrl
    | RoutingByModel
    | RoutingBySystemInstruction
    | ToolResult
    | InitMetadata
    | ModelUsage
    | IdeContextChat
    | PlainChat

  const RequestRules: seq<RequestRule> :=
    [MetaByUrl, RoutingByModel, RoutingBySystemInstruction, ToolResult, InitMetadata, ModelUsage, IdeContextChat, PlainChat]

  const Routing := Verdict(ModelRoutingRequest, "Model Routing Check")

  /** `payload.systemInstruction?.parts?.map(p => p.text).join(' ')`. */
  function SystemInstructionText(payload: Json): Completion<Option<string>> {
    var parts := GetOpt(GetOpt(Some(payload), "systemInstruction"), "parts");
    if Nullish(parts) then Normal(None)
    else
      var items :- AsArray(parts);
      var texts :- MapValues(items, p => Get(Some(p), "text"));
      Normal(Some(JoinValues(texts, " ")))
  }

  /** `content.role === 'user'` for the last entry of `payload.contents`, followed by a `functionResponse` part. */
  function IsToolResult(payload: Json): Completion<bool> {
    var contents := Member(payload, "contents");
    if !Truthy(contents) then Normal(false)
    else
      var length := NumericValue(Member(contents.value, "length"));
      if !(length.Some? && length.value > 0) then Normal(false)
      else
        var last := Index(contents.value, length.value - 1);
        var role :- Get(last, "role");
        if role != Some(JStr("user")) then Normal(false)
        else
          var parts := Member(last.value, "parts");
          if Nullish(parts) then Normal(false)
          else
            var items :- AsArray(parts);
            AnyOf(items, p => HasKey(Some(p), "functionResponse"))
  }

  /** A part whose `text` mentions the editor context or a change summary. */
  function MentionsIdeContext(part: Json): Completion<bool> {
    var has :- HasKey(Some(part), "text");
    if !has then Normal(false)
    else
      var text := Member(part, "text");
      var editor :- Includes(text, "user's editor context");
      if editor then Normal(true) else Includes(text, "summary of changes")
  }

  /** A `user` turn carrying an IDE-context part. */
  function IsIdeContextTurn(content: Json): Completion<bool> {
    var role :- Get(Some(content), "role");
    if role != Some(JStr("user")) then Normal(false)
    else
      var parts := Member(content, "parts");
      if Nullish(parts) then Normal(false)
      else
        var items :- AsArray(parts);
        AnyOf(items, MentionsIdeContext)
  }

  function ApplyRule(rule: RequestRule, ctx: Context): Completion<Option<Verdict>> {
    match rule
    case MetaByUrl =>
      Normal(if Contains(ctx.pathname, "/models") || Contains(ctx.pathname, "/operations")
             then Some(Verdict(MetaRequest, "Metadata Operation")) else None)
    case RoutingByModel =>
      var hit :- Includes(Some(ctx.model), "flash-lite");
      Normal(if hit then Some(Routing) else None)
    case RoutingBySystemInstruction =>
      var text :- SystemInstructionText(ctx.payload);
      Normal(if text.Some? && (Contains(text.value, "router") || Contains(text.value, "classify"))
             then Some(Routing) else None)
    case ToolResult =>
      var hit :- IsToolResult(ctx.payload);
      Normal(if hit then Some(Verdict(ToolResultRequest, "Tool Result Submission")) else None)
    case InitMetadata =>
      var metadata := Member(ctx.payload, "metadata");
      if Truthy(metadata) && (Truthy(Member(metadata.value, "ideType")) || Truthy(Member(metadata.value, "pluginType"))) then
        var plugin := Or(Member(metadata.value, "pluginType"), Some(JStr("Unknown")));
        Normal(Some(Verdict(InitMetadataRequest, "Client Init (" + Display(plugin) + ")")))
      else Normal(None)
    case ModelUsage =>
      var project := Member(ctx.body, "project");
      Normal(if Truthy(project) && KeyCount(ctx.body) == 1
             then Some(Verdict(ModelUsageRequest, "Model Usage Check (" + Display(project) + ")")) else None)
    case IdeContextChat =>
      var contents := Member(ctx.payload, "contents");
      if Nullish(contents) then Normal(None)
      else
        var items :- AsArray(contents);
        var hit :- AnyOf(items, IsIdeContextTurn);
        Normal(if hit then Some(Verdict(ChatRequest, "Chat Request (with IDE Context)")) else None)
    case PlainChat =>
      Normal(if Truthy(Member(ctx.payload, "contents")) then Some(Verdict(ChatRequest, "User Chat Request")) else None)
  }

  /** Every rule that decides labels the request with a request type, and each type comes from its own rules. */
  lemma RuleKinds(rule: RequestRule, ctx: Context)
    ensures var r := ApplyRule(rule, ctx); r.Normal? && r.value.Some? ==> r.value.value.kind.IsRequestType()
    ensures var r := ApplyRule(rule, ctx); r.Normal? && r.value.Some? && r.value.value.kind == ToolResultRequest ==> rule == ToolResult
    ensures var r := ApplyRule(rule, ctx); r.Normal? && r.value.Some? && r.value.value.kind == ModelUsageRequest ==> rule == ModelUsage
  {
  }

  function ContextOf(pathname: string, body: Json): Context {
    var payload := Unwrap(body, "request");
    Context(pathname, body, payload, ModelOf(body, payload, pathname))
  }

  /**
   `classifyRequest(parsedUrl, jsonBody)`. `Throw` stands for a TypeError
   escaping the function (the caller drops the request silently).
   */
  function ClassifyRequest(pathname: string, body: Json): (r: Completion<RequestClass>)
    ensures body.JNull? ==> r.Throw?
    ensures !body.JNull? && !Truthy(Some(body)) ==>
              r == Normal(RequestClass(UnknownRequest, "Unknown Request", ContextOf(pathname, body).model))
    ensures r.Normal? ==> r.value.kind.IsRequestType() && r.value.model == ContextOf(pathname, body).model
  {
    if body.JNull? then Throw
    else
      var ctx := ContextOf(pathname, body);
      if !Truthy(Some(ctx.payload)) && !Truthy(Some(body)) then
        Normal(RequestClass(UnknownRequest, "Unknown Request", ctx.model))
      else
        var decided :- Cascade.FirstMatch(RequestRules, rule => ApplyRule(rule, ctx));
        var verdict := if decided.Some? then decided.value else Verdict(UnknownRequest, "Unknown Request");
        assert decided.Some? ==> verdict.kind.IsRequestType() by {
          if decided.Some? {
            Cascade.FirstMatchWitness(RequestRules, rule => ApplyRule(rule, ctx));
            var k :| 0 <= k < |RequestRules| && Cascade.FirstMatch(RequestRules, rule => ApplyRule(rule, ctx)) == ApplyRule(RequestRules[k], ctx);
            RuleKinds(RequestRules[k], ctx);
          }
        }
        Normal(RequestClass(verdict.kind, verdict.summary, ctx.model))
  }

  /**
   A path that contains `/models` or `/operations` makes the request a
   metadata operation before any rule looks at the body: this includes
   every `.../models/<name>:generateContent` call.
   */
  lemma MetaRequestPrecedence(pathname: string, body: Json)
    requires Truthy(Some(body))
    requires Contains(pathname, "/models") || Contains(pathname, "/operations")
    ensures ClassifyRequest(pathname, body) ==
              Normal(RequestClass(MetaRequest, "Metadata Operation", ContextOf(pathname, body).model))
  {
    var ctx := ContextOf(pathname, body);
    Cascade.FirstMatchAt(RequestRules, rule => ApplyRule(rule, ctx), 0);
  }

  /**
   The rule of the cascade that produced a given request type: the first
   rule, in source order, that did not decline.
   */
  lemma DecidingRule(pathname: string, body: Json) returns (rule: RequestRule)
    requires ClassifyRequest(pathname, body).Normal?
    requires ClassifyRequest(pathname, body).value.kind != UnknownRequest
    ensures Truthy(Some(body))
    ensures ApplyRule(rule, ContextOf(pathname, body)) ==
              Normal(Some(Verdict(ClassifyRequest(pathname, body).value.kind, ClassifyRequest(pathname, body).value.summary)))
    ensures exists k :: 0 <= k < |RequestRules| && RequestRules[k] == rule
                        && forall j :: 0 <= j < k ==> ApplyRule(RequestRules[j], ContextOf(pathname, body)) == Normal(None)
  {
    var ctx := ContextOf(pathname, body);
    var apply := rule => ApplyRule(rule, ctx);
    Cascade.FirstMatchNone(RequestRules, apply);
    Cascade.FirstMatchWitness(RequestRules, apply);
    var k :| 0 <= k < |RequestRules| && Cascade.DeclinedBefore(RequestRules, apply, k)
             && Cascade.FirstMatch(RequestRules, apply) == apply(RequestRules[k]);
    rule := RequestRules[k];
    assert forall j :: 0 <= j < k ==> apply(RequestRules[j]) == Normal(None);
  }

  /**
   Conversely, when every rule before `k` declines a truthy body and rule
   `k` decides, the request gets rule `k`'s label, whatever the later
   rules would say.
   */
  lemma RuleDecides(pathname: string, body: Json, k: nat)
    requires Truthy(Some(body)) && k < |RequestRules|
    requires forall j :: 0 <= j < k ==> ApplyRule(RequestRules[j], ContextOf(pathname, body)) == Normal(None)
    requires ApplyRule(RequestRules[k], ContextOf(pathname, body)).Normal?
    requires ApplyRule(RequestRules[k], ContextOf(pathname, body)).value.Some?
    ensures var v := ApplyRule(RequestRules[k], ContextOf(pathname, body)).value.value;
            ClassifyRequest(pathname, body) == Normal(RequestClass(v.kind, v.summary, ContextOf(pathname, body).model))
  {
    var ctx := ContextOf(pathname, body);
    var apply := rule => ApplyRule(rule, ctx);
    Cascade.FirstMatchAt(RequestRules, apply, k);
    RuleKinds(RequestRules[k], ctx);
  }

  /**
   `model_usage_request` is produced only for a raw body (not the unwrapped
   payload) that is an object with a truthy `project` and no other key.
   */
  lemma ModelUsageNeedsBareProject(pathname: string, body: Json)
    requires ClassifyRequest(pathname, body).Normal?
    requires ClassifyRequest(pathname, body).value.kind == ModelUsageRequest
    ensures body.JObj?
    ensures Truthy(Member(body, "project")) && KeyCount(body) == 1
    ensures ClassifyRequest(pathname, body).value.summary == "Model Usage Check (" + Display(Member(body, "project")) + ")"
  {
    var rule := DecidingRule(pathname, body);
    RuleKinds(rule, ContextOf(pathname, body));
  }

  /** The bare body `{"project": p}` is a usage check, wherever it is sent outside `/models` and `/operations`. */
  lemma BareProjectIsUsageCheck(pathname: string, project: string)
    requires project != ""
    requires !Contains(pathname, "/models") && !Contains(pathname, "/operations")
    ensures ClassifyRequest(pathname, JObj([("project", JStr(project))])) ==
              Normal(RequestClass(ModelUsageRequest, "Model Usage Check (" + project + ")", JStr("")))
  {
    var body := JObj([("project", JStr(project))]);
    if Contains(pathname, ModelsSegment) {
      assert ModelsSegment == "/models" + "/";
      ContainsPrefixOf(pathname, "/models", "/");
    }
    assert Member(body, "request") == None;
    assert Member(body, "model") == None;
    var ctx := ContextOf(pathname, body);
    assert ctx.payload == body;
    assert ctx.model == JStr("");
    assert !Contains("", "flash-lite");
    BareProjectRules(ctx, project);
  }

  lemma BareProjectRules(ctx: Context, project: string)
    requires project != ""
    requires ctx.body == JObj([("project", JStr(project))]) && ctx.payload == ctx.body && ctx.model == JStr("")
    requires !Contains(ctx.pathname, "/models") && !Contains(ctx.pathname, "/operations")
    ensures Cascade.FirstMatch(RequestRules, rule => ApplyRule(rule, ctx)) ==
              Normal(Some(Verdict(ModelUsageRequest, "Model Usage Check (" + project + ")")))
  {
    var apply := rule => ApplyRule(rule, ctx);
    assert KeyCount(ctx.body) == 1 by {
      assert Keys(ctx.body.fields) == {"project"} by {
        assert ctx.body.fields[0].0 == "project";
      }
    }
    assert !Contains("", "flash-lite");
    assert apply(RequestRules[0]) == Normal(None);
    assert apply(RequestRules[1]) == Normal(None);
    assert apply(RequestRules[2]) == Normal(None) by {
      assert SystemInstructionText(ctx.body) == Normal(None);
    }
    assert apply(RequestRules[3]) == Normal(None) by {
      assert IsToolResult(ctx.body) == Normal(false);
    }
    assert apply(RequestRules[4]) == Normal(None);
    assert apply(RequestRules[5]) == Normal(Some(Verdict(ModelUsageRequest, "Model Usage Check (" + project + ")")));
    Cascade.FirstMatchAt(RequestRules, apply, 5);
  }

  /** A model name containing `flash-lite` marks a routing check, outside `/models` and `/operations`. */
  lemma FlashLiteIsRouting(pathname: string, body: Json)
    requires Truthy(Some(body))
    requires !Contains(pathname, "/models") && !Contains(pathname, "/operations")
    requires Includes(Some(ContextOf(pathname, body).model), "flash-lite") == Normal(true)
    ensures ClassifyRequest(pathname, body) ==
              Normal(RequestClass(ModelRoutingRequest, "Model Routing Check", ContextOf(pathname, body).model))
  {
    RuleDecides(pathname, body, 1);
  }

  /**
   Without a `flash-lite` model, a system instruction whose texts mention
   `router` or `classify` also marks a routing check.
   */
  lemma RouterInstructionIsRouting(pathname: string, body: Json, text: string)
    requires Truthy(Some(body))
    requires !Contains(pathname, "/models") && !Contains(pathname, "/operations")
    requires Includes(Some(ContextOf(pathname, body).model), "flash-lite") == Normal(false)
    requires SystemInstructionText(ContextOf(pathname, body).payload) == Normal(Some(text))
    requires Contains(text, "router") || Contains(text, "classify")
    ensures ClassifyRequest(pathname, body) ==
              Normal(RequestClass(ModelRoutingRequest, "Model Routing Check", ContextOf(pathname, body).model))
  {
    var ctx := ContextOf(pathname, body);
    assert ApplyRule(RequestRules[1], ctx) == Normal(None);
    RuleDecides(pathname, body, 2);
  }

  /**
   The body `{"metadata": m}`, where `m` names an IDE or plugin type, is a
   client initialisation labelled with the plugin type, or `Unknown`.
   */
  lemma MetadataIsClientInit(pathname: string, metadata: Json)
    requires metadata.JObj?
    requires Truthy(Member(metadata, "ideType")) || Truthy(Member(metadata, "pluginType"))
    requires !Contains(pathname, "/models") && !Contains(pathname, "/operations")
    ensures var plugin := Or(Member(metadata, "pluginType"), Some(JStr("Unknown")));
            ClassifyRequest(pathname, JObj([("metadata", metadata)])) ==
              Normal(RequestClass(InitMetadataRequest, "Client Init (" + Display(plugin) + ")", JStr("")))
  {
    var body := JObj([("metadata", metadata)]);
    var ctx := ContextOf(pathname, body);
    assert ctx.payload == body && ctx.model == JStr("") by {
      assert Member(body, "request") == None && Member(body, "model") == None;
      NoModelsSegment(pathname);
    }
    assert Member(body, "metadata") == Some(metadata);
    forall j | 0 <= j < 4 ensures ApplyRule(RequestRules[j], ctx) == Normal(None) {
      var rule := RequestRules[j];
      assert rule in {MetaByUrl, RoutingByModel, RoutingBySystemInstruction, ToolResult};
      match rule
      case RoutingByModel => assert !Contains("", "flash-lite");
      case RoutingBySystemInstruction => assert SystemInstructionText(body) == Normal(None);
      case ToolResult => assert IsToolResult(body) == Normal(false);
      case _ =>
    }
    RuleDecides(pathname, body, 4);
  }

  /** A path without `/models` has no `/models/` segment to take a model from. */
  lemma NoModelsSegment(pathname: string)
    requires !Contains(pathname, "/models")
    ensures !Contains(pathname, ModelsSegment)
  {
    if Contains(pathname, ModelsSegment) {
      assert ModelsSegment == "/models" + "/";
      ContainsPrefixOf(pathname, "/models", "/");
    }
  }

  /** A user turn whose one part is the text `t`. */
  function UserTextTurn(t: string): Json {
    JObj([("role", JStr("user")), ("parts", JArr([JObj([("text", JStr(t))])]))])
  }

  /**
   A user turn whose text carries the editor context or a change summary
   makes the request a chat with IDE context, although the plain-chat rule
   would accept it too.
   */
  lemma IdeContextChatRequest(pathname: string, t: string)
    requires Contains(t, "user's editor context") || Contains(t, "summary of changes")
    requires !Contains(pathname, "/models") && !Contains(pathname, "/operations")
    ensures ClassifyRequest(pathname, JObj([("contents", JArr([UserTextTurn(t)]))])) ==
              Normal(RequestClass(ChatRequest, "Chat Request (with IDE Context)", JStr("")))
  {
    var body := JObj([("contents", JArr([UserTextTurn(t)]))]);
    var ctx := ContextOf(pathname, body);
    assert ctx.payload == body && ctx.model == JStr("") by {
      assert Member(body, "request") == None && Member(body, "model") == None;
      NoModelsSegment(pathname);
    }
    forall j | 0 <= j < 6 ensures ApplyRule(RequestRules[j], ctx) == Normal(None) {
      var rule := RequestRules[j];
      assert rule in {MetaByUrl, RoutingByModel, RoutingBySystemInstruction, ToolResult, InitMetadata, ModelUsage};
      match rule
      case RoutingByModel => assert !Contains("", "flash-lite");
      case RoutingBySystemInstruction => assert SystemInstructionText(body) == Normal(None);
      case ToolResult => TextTurnIsNoToolResult(t);
      case _ =>
    }
    assert ApplyRule(IdeContextChat, ctx) == Normal(Some(Verdict(ChatRequest, "Chat Request (with IDE Context)"))) by {
      TextTurnHasIdeContext(t);
    }
    RuleDecides(pathname, body, 6);
  }

  lemma TextTurnIsNoToolResult(t: string)
    ensures IsToolResult(JObj([("contents", JArr([UserTextTurn(t)]))])) == Normal(false)
  {
    var part := JObj([("text", JStr(t))]);
    assert Member(UserTextTurn(t), "parts") == Some(JArr([part]));
    assert HasKey(Some(part), "functionResponse") == Normal(false);
  }

  lemma TextTurnHasIdeContext(t: string)
    requires Contains(t, "user's editor context") || Contains(t, "summary of changes")
    ensures IsIdeContextTurn(UserTextTurn(t)) == Normal(true)
  {
    var part := JObj([("text", JStr(t))]);
    assert MentionsIdeContext(part) == Normal(true) by {
      assert part.fields[0].0 == "text";
      assert HasKey(Some(part), "text") == Normal(true);
      assert Member(part, "text") == Some(JStr(t));
    }
    assert Member(UserTextTurn(t), "parts") == Some(JArr([part]));
    assert Member(UserTextTurn(t), "role") == Some(JStr("user")) by {
      var fields := UserTextTurn(t).fields;
      assert fields[|fields| - 1].0 == "parts" != "role";
      assert fields[..|fields| - 1] == [("role", JStr("user"))];
      assert Lookup([("role", JStr("user"))], "role") == Some(JStr("user"));
    }
  }

  /** A user turn asking "hi", wrapped under `request` as the code assistant API expects. */
  const HiTurn := JObj([("role", JStr("user")), ("parts", JArr([JObj([("text", JStr("hi"))])]))])
  const ChatBody := JObj([("model", JStr("gemini-pro")), ("request", JObj([("contents", JArr([HiTurn]))]))])

  /**
   A chat call outside `/models` and `/operations` whose only turn is a
   plain user text falls through every earlier rule to a user chat
   request, and the model comes from the outer body.
   */
  lemma UserChatRequest(pathname: string)
    requires !Contains(pathname, "/models") && !Contains(pathname, "/operations")
    ensures ClassifyRequest(pathname, ChatBody) ==
              Normal(RequestClass(ChatRequest, "User Chat Request", JStr("gemini-pro")))
  {
    ChatBodyContext(pathname);
    ChatCascade(ContextOf(pathname, ChatBody));
  }

  lemma ChatBodyContext(pathname: string)
    requires !Contains(pathname, "/models") && !Contains(pathname, "/operations")
    ensures ChatContext(ContextOf(pathname, ChatBody))
  {
    var payload := JObj([("contents", JArr([HiTurn]))]);
    assert Member(ChatBody, "request") == Some(payload);
    assert Member(ChatBody, "model") == Some(JStr("gemini-pro")) by {
      var fields := ChatBody.fields;
      assert fields[|fields| - 1].0 == "request" != "model";
      assert fields[..|fields| - 1] == [("model", JStr("gemini-pro"))];
      assert Lookup([("model", JStr("gemini-pro"))], "model") == Some(JStr("gemini-pro"));
    }
  }

  /** The context `ChatBody` yields on a path outside `/models` and `/operations`. */
  ghost predicate ChatContext(ctx: Context) {
    && ctx.payload == JObj([("contents", JArr([HiTurn]))]) && ctx.model == JStr("gemini-pro") && ctx.body == ChatBody
    && !Contains(ctx.pathname, "/models") && !Contains(ctx.pathname, "/operations")
  }

  /** Every rule before the plain-chat rule declines the chat body, and that rule accepts it. */
  lemma ChatCascade(ctx: Context)
    requires ChatContext(ctx)
    ensures Cascade.FirstMatch(RequestRules, rule => ApplyRule(rule, ctx)) ==
              Normal(Some(Verdict(ChatRequest, "User Chat Request")))
  {
    var apply := rule => ApplyRule(rule, ctx);
    forall j | 0 <= j < 7 ensures apply(RequestRules[j]) == Normal(None) {
      var rule := RequestRules[j];
      assert rule in {MetaByUrl, RoutingByModel, RoutingBySystemInstruction, ToolResult, InitMetadata, ModelUsage, IdeContextChat};
      match rule
      case RoutingByModel => ChatModelNotRouting(ctx);
      case RoutingBySystemInstruction => ChatHasNoSystemInstruction(ctx);
      case ToolResult => ChatIsNoToolResult(ctx);
      case IdeContextChat => ChatHasNoIdeContext(ctx);
      case ModelUsage => assert Member(ChatBody, "project") == None;
      case _ =>
    }
    Cascade.FirstMatchAt(RequestRules, apply, 7);
  }

  lemma ChatModelNotRouting(ctx: Context)
    requires ChatContext(ctx)
    ensures ApplyRule(RoutingByModel, ctx) == Normal(None)
  {
    assert !Contains("gemini-pro", "flash-lite") by {
      assert 'f' !in "gemini-pro";
      NotContainsWithoutFirstChar("gemini-pro", "flash-lite");
    }
  }

  lemma ChatHasNoSystemInstruction(ctx: Context)
    requires ChatContext(ctx)
    ensures ApplyRule(RoutingBySystemInstruction, ctx) == Normal(None)
  {
    assert SystemInstructionText(ctx.payload) == Normal(None);
  }

  lemma ChatIsNoToolResult(ctx: Context)
    requires ChatContext(ctx)
    ensures ApplyRule(ToolResult, ctx) == Normal(None)
  {
    var part := JObj([("text", JStr("hi"))]);
    assert Member(HiTurn, "parts") == Some(JArr([part]));
    assert HasKey(Some(part), "functionResponse") == Normal(false);
    assert IsToolResult(ctx.payload) == Normal(false);
  }

  lemma ChatHasNoIdeContext(ctx: Context)
    requires ChatContext(ctx)
    ensures ApplyRule(IdeContextChat, ctx) == Normal(None)
  {
    var part := JObj([("text", JStr("hi"))]);
    assert MentionsIdeContext(part) == Normal(false) by {
      assert !Contains("hi", "user's editor context") by {
        assert 'u' !in "hi";
        NotContainsWithoutFirstChar("hi", "user's editor context");
      }
      assert !Contains("hi", "summary of changes") by {
        assert 's' !in "hi";
        NotContainsWithoutFirstChar("hi", "summary of changes");
      }
    }
    assert Member(HiTurn, "parts") == Some(JArr([part]));
    assert IsIdeContextTurn(HiTurn) == Normal(false);
  }

  /** What `IsToolResult` accepting a payload says about its last turn. */
  lemma ToolResultShape(payload: Json)
    requires IsToolResult(payload) == Normal(true)
    ensures var contents := Member(payload, "contents");
            && Truthy(contents)
            && var length := NumericValue(Member(contents.value, "length"));
            && length.Some? && length.value > 0
            && var last := Index(contents.value, length.value - 1);
            && last.Some? && Member(last.value, "role") == Some(JStr("user"))
            && var parts := Member(last.value, "parts");
            && parts.Some? && parts.value.JArr?
            && exists i :: 0 <= i < |parts.value.items| && HasKey(Some(parts.value.items[i]), "functionResponse") == Normal(true)
  {
    var contents := Member(payload, "contents");
    var length := NumericValue(Member(contents.value, "length"));
    var last := Index(contents.value, length.value - 1);
    var items := Member(last.value, "parts").value.items;
    var pred := p => HasKey(Some(p), "functionResponse");
    assert AnyOf(items, pred) == Normal(true);
    if forall i :: 0 <= i < |items| ==> pred(items[i]) != Normal(true) {
      AnyOfFalse(items, pred);
    }
  }

  /** A tool result: the last turn of the unwrapped payload is the user's and carries a `functionResponse` part. */
  lemma ToolResultNeedsFunctionResponse(pathname: string, body: Json)
    requires ClassifyRequest(pathname, body).Normal?
    requires ClassifyRequest(pathname, body).value.kind == ToolResultRequest
    ensures IsToolResult(Unwrap(body, "request")) == Normal(true)
  {
    var rule := DecidingRule(pathname, body);
    RuleKinds(rule, ContextOf(pathname, body));
  }

  /** `some` that never meets an accepting element answers false or throws. */
  lemma {:induction false} AnyOfFalse(items: seq<Json>, pred: Json -> Completion<bool>)
    requires forall i :: 0 <= i < |items| ==> pred(items[i]) != Normal(true)
    ensures AnyOf(items, pred) != Normal(true)
    decreases |items|
  {
    if |items| > 0 {
      assert forall i :: 0 <= i < |items[1..]| ==> items[1..][i] == items[i + 1];
      AnyOfFalse(items[1..], pred);
    }
  }
}
