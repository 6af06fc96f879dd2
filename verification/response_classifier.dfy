/**
 `classifyResponse` (hook.mjs): labels a response body, after unwrapping
 an optional `response` member, by which fields it carries. The rules form
 an ordered list; the first rule that decides wins, and a body no rule
 claims is an unknown response.
 */
module ResponseClassifier {
  import opened Text
  import opened Js
  import opened Events
  import Cascade

  /** What the rules look at: the unwrapped payload, its `modelVersion || ''`, and `JSON.parse`. */
  datatype Context = Context(payload: Json, modelVersion: Json, parse: string -> Option<Json>)

  /** The rules of `classifyResponse`, in the order the source tries them. */
  datatype ResponseRule =
    | AuthToken
    | RoutingDecision
    | RoutingModelVersion
    | UserProfile
    | Identity
    | ExperimentConfig
    | UsageBuckets
    | Chat
    | ApiError
    | UsageOnly

  const ResponseRules: seq<ResponseRule> :=
    [AuthToken, RoutingDecision, RoutingModelVersion, UserProfile, Identity, ExperimentConfig, UsageBuckets, Chat, ApiError, UsageOnly]

  const Unknown := Verdict(UnknownResponse, "Unknown Response")

  /** `text.trim().startsWith('{')`. */
  predicate LooksLikeObject(text: string) {
    var t := Trim(text);
    |t| > 0 && t[0] == '{'
  }

  /**
   Rule 2: the first candidate's first text part is a JSON object with a
   truthy `model_choice`. Reading `candidates[0].content` throws when the
   first candidate is missing; a text that is not a string throws at
   `trim`; a parse failure, or a decision of `null`, is caught and the rule
   declines.
   */
  function RoutingDecisionRule(ctx: Context): Completion<Option<Verdict>> {
    var candidates := Member(ctx.payload, "candidates");
    if !HasPositiveLength(candidates) then Normal(None)
    else
      var content :- Get(Index(candidates.value, 0), "content");
      var text := GetOpt(IndexOpt(GetOpt(content, "parts"), 0), "text");
      if !Truthy(text) then Normal(None)
      else if !text.value.JStr? then Throw
      else
        var s := text.value.s;
        if !LooksLikeObject(s) || !Contains(s, "\"model_choice\"") then Normal(None)
        else
          match ctx.parse(s)
          case None => Normal(None)
          case Some(decision) =>
            if decision.JNull? then Normal(None)
            else
              var choice := Member(decision, "model_choice");
              Normal(if Truthy(choice) then Some(Verdict(ModelRoutingResponse, "Routing Decision: " + Display(choice))) else None)
  }

  /** `parts?.some(p => key in p)`: undefined parts answer false, other non-arrays throw. */
  function SomePartHas(parts: Value, key: string): Completion<bool> {
    if Nullish(parts) then Normal(false)
    else
      var items :- AsArray(parts);
      AnyOf(items, p => HasKey(Some(p), key))
  }

  /** `parts.filter(p => 'functionCall' in p).map(p => p.functionCall.name).join(', ')`. */
  function CallNames(parts: seq<Json>): Completion<string> {
    var calls :- Filter(parts, p => HasKey(Some(p), "functionCall"));
    var names :- MapValues(calls, p => Get(Member(p, "functionCall"), "name"));
    Normal(JoinValues(names, ", "))
  }

  /**
   Rule 8: a chat response, judged by the first candidate's parts: a tool
   call when any part has a `functionCall` key, else text when any part
   has a `text` key, else empty. Key presence is the test.
   */
  function ChatRule(payload: Json): Completion<Option<Verdict>> {
    var candidates := Member(payload, "candidates");
    if !HasPositiveLength(candidates) then Normal(None)
    else
      var content :- Get(Index(candidates.value, 0), "content");
      PartsVerdict(GetOpt(content, "parts"))
  }

  /** The chat rule's judgement of the first candidate's `content.parts`. */
  function PartsVerdict(parts: Value): Completion<Option<Verdict>> {
    var hasText :- SomePartHas(parts, "text");
    var hasCall :- SomePartHas(parts, "functionCall");
    if hasCall then
      var names :- CallNames(parts.value.items);
      Normal(Some(Verdict(ChatResponseToolCall, "Response (Tool Call): " + names)))
    else if hasText then Normal(Some(Verdict(ChatResponseText, "Response (Text)")))
    else Normal(Some(Verdict(ChatResponseEmpty, "Response (Empty)")))
  }

  function ApplyRule(rule: ResponseRule, ctx: Context): Completion<Option<Verdict>> {
    var p := ctx.payload;
    match rule
    case AuthToken =>
      Normal(if Truthy(Member(p, "access_token")) && Truthy(Member(p, "token_type"))
             then Some(Verdict(AuthTokenResponse, "Auth Token (OAuth2)")) else None)
    case RoutingDecision => RoutingDecisionRule(ctx)
    case RoutingModelVersion =>
      var hit :- Includes(Some(ctx.modelVersion), "flash-lite");
      Normal(if hit then Some(Verdict(ModelRoutingResponse, "Routing Response (Flash Lite)")) else None)
    case UserProfile =>
      var tier := Member(p, "currentTier");
      if Truthy(tier) && Truthy(Member(p, "allowedTiers")) then
        Normal(Some(Verdict(UserProfileResponse,
          "User Profile (" + Display(Or(Member(tier.value, "name"), Some(JStr("Unknown")))) + ")")))
      else Normal(None)
    case Identity =>
      var email := Member(p, "email");
      Normal(if Truthy(Member(p, "azp")) && Truthy(Member(p, "aud")) && Truthy(email) && Truthy(Member(p, "sub"))
             then Some(Verdict(IdentityResponse, "Identity Info (" + Display(email) + ")")) else None)
    case ExperimentConfig =>
      var flags := Member(p, "flags");
      if Truthy(Member(p, "experimentIds")) && Truthy(flags) then
        Normal(Some(Verdict(ConfigResponse, "Experiment Config (Flags: " + Display(Member(flags.value, "length")) + ")")))
      else Normal(None)
    case UsageBuckets =>
      var buckets := Member(p, "buckets");
      Normal(if Truthy(buckets) && buckets.value.JArr? then Some(Verdict(ModelUsageResponse, "Model Usage Statistics")) else None)
    case Chat => ChatRule(p)
    case ApiError =>
      Normal(if Truthy(Member(p, "error")) then Some(Verdict(ErrorResponse, "API Error")) else None)
    case UsageOnly =>
      Normal(if Truthy(Member(p, "usageMetadata")) then Some(Verdict(MetaResponse, "Metadata Response")) else None)
  }

  /** Every rule that decides labels the body with a response type. */
  lemma RuleKinds(rule: ResponseRule, ctx: Context)
    ensures var r := ApplyRule(rule, ctx); r.Normal? && r.value.Some? ==> r.value.value.kind.IsResponseType()
  {
  }

  function ContextOf(parse: string -> Option<Json>, body: Json): Context {
    var payload := Unwrap(body, "response");
    Context(payload, Or(Member(payload, "modelVersion"), Some(JStr(""))).value, parse)
  }

  /**
   `classifyResponse(jsonResponse)`: total over JSON bodies in that it
   always yields a response type, unless evaluating a rule throws (a
   `null` body throws at once).
   */
  function ClassifyResponse(parse: string -> Option<Json>, body: Json): (r: Completion<Verdict>)
    ensures body.JNull? ==> r.Throw?
    ensures r.Normal? ==> r.value.kind.IsResponseType()
    ensures !body.JNull? && !Truthy(Some(body)) ==> r == Normal(Unknown)
  {
    if body.JNull? then Throw
    else
      var ctx := ContextOf(parse, body);
      if !Truthy(Some(ctx.payload)) then Normal(Unknown)
      else
        var decided :- Cascade.FirstMatch(ResponseRules, rule => ApplyRule(rule, ctx));
        assert decided.Some? ==> decided.value.kind.IsResponseType() by {
          if decided.Some? {
            Cascade.FirstMatchWitness(ResponseRules, rule => ApplyRule(rule, ctx));
            var k :| 0 <= k < |ResponseRules| && Cascade.FirstMatch(ResponseRules, rule => ApplyRule(rule, ctx)) == ApplyRule(ResponseRules[k], ctx);
            RuleKinds(ResponseRules[k], ctx);
          }
        }
        Normal(if decided.Some? then decided.value else Unknown)
  }

  /**
   A payload (after unwrapping `response`) with a truthy `access_token` and
   `token_type` is an OAuth2 token, whatever other fields it carries.
   */
  lemma AuthTokenWins(parse: string -> Option<Json>, body: Json)
    requires !body.JNull?
    requires var payload := Unwrap(body, "response");
             Truthy(Member(payload, "access_token")) && Truthy(Member(payload, "token_type"))
    ensures ClassifyResponse(parse, body) == Normal(Verdict(AuthTokenResponse, "Auth Token (OAuth2)"))
  {
    var ctx := ContextOf(parse, body);
    Cascade.FirstMatchAt(ResponseRules, rule => ApplyRule(rule, ctx), 0);
  }

  /** A payload no rule claims is an unknown response, summarised as such. */
  lemma NoRuleMeansUnknown(parse: string -> Option<Json>, body: Json)
    requires !body.JNull?
    requires forall rule :: rule in ResponseRules ==> ApplyRule(rule, ContextOf(parse, body)) == Normal(None)
    ensures ClassifyResponse(parse, body) == Normal(Verdict(UnknownResponse, "Unknown Response"))
  {
    var ctx := ContextOf(parse, body);
    Cascade.FirstMatchNone(ResponseRules, rule => ApplyRule(rule, ctx));
  }

  /**
   A payload without any of the fields the rules test (all of them absent
   or falsy) is an unknown response; the empty object is one.
   */
  lemma FieldlessPayloadIsUnknown(parse: string -> Option<Json>, body: Json)
    requires !body.JNull?
    requires var p := Unwrap(body, "response");
             forall key :: (key in {"access_token", "candidates", "modelVersion", "currentTier", "azp",
                                    "experimentIds", "buckets", "error", "usageMetadata"}) ==> !Truthy(Member(p, key))
    ensures ClassifyResponse(parse, body) == Normal(Verdict(UnknownResponse, "Unknown Response"))
  {
    var ctx := ContextOf(parse, body);
    var p := ctx.payload;
    assert !Truthy(Member(p, "modelVersion"));
    assert ctx.modelVersion == JStr("");
    forall rule | rule in ResponseRules ensures ApplyRule(rule, ctx) == Normal(None) {
      FieldlessRule(rule, ctx);
    }
    NoRuleMeansUnknown(parse, body);
  }

  /** One rule declines a payload without the fields it tests. */
  lemma FieldlessRule(rule: ResponseRule, ctx: Context)
    requires ctx.modelVersion == JStr("")
    requires forall key :: (key in {"access_token", "candidates", "currentTier", "azp",
                                    "experimentIds", "buckets", "error", "usageMetadata"}) ==> !Truthy(Member(ctx.payload, key))
    ensures ApplyRule(rule, ctx) == Normal(None)
  {
    var p := ctx.payload;
    match rule
    case AuthToken => assert !Truthy(Member(p, "access_token"));
    case RoutingDecision => assert !Truthy(Member(p, "candidates"));
    case RoutingModelVersion => assert !Contains("", "flash-lite");
    case UserProfile => assert !Truthy(Member(p, "currentTier"));
    case Identity => assert !Truthy(Member(p, "azp"));
    case ExperimentConfig => assert !Truthy(Member(p, "experimentIds"));
    case UsageBuckets => assert !Truthy(Member(p, "buckets"));
    case Chat => assert !Truthy(Member(p, "candidates"));
    case ApiError => assert !Truthy(Member(p, "error"));
    case UsageOnly => assert !Truthy(Member(p, "usageMetadata"));
  }

  /**
   The rule of the cascade that produced a given response type: the first
   rule, in source order, that did not decline.
   */
  lemma DecidingRule(parse: string -> Option<Json>, body: Json) returns (k: nat)
    requires ClassifyResponse(parse, body).Normal?
    requires ClassifyResponse(parse, body).value != Unknown
    ensures k < |ResponseRules|
    ensures forall j :: 0 <= j < k ==> ApplyRule(ResponseRules[j], ContextOf(parse, body)) == Normal(None)
    ensures ApplyRule(ResponseRules[k], ContextOf(parse, body)) == Normal(Some(ClassifyResponse(parse, body).value))
  {
    var ctx := ContextOf(parse, body);
    var apply := rule => ApplyRule(rule, ctx);
    Cascade.FirstMatchNone(ResponseRules, apply);
    Cascade.FirstMatchWitness(ResponseRules, apply);
    k :| 0 <= k < |ResponseRules| && Cascade.DeclinedBefore(ResponseRules, apply, k)
         && Cascade.FirstMatch(ResponseRules, apply) == apply(ResponseRules[k]);
    assert forall j :: 0 <= j < k ==> apply(ResponseRules[j]) == Normal(None);
  }

  /**
   Conversely, when every rule before `k` declines a truthy payload and
   rule `k` decides, the response gets rule `k`'s verdict, whatever the
   later rules would say.
   */
  lemma RuleDecides(parse: string -> Option<Json>, body: Json, k: nat)
    requires !body.JNull? && Truthy(Some(Unwrap(body, "response"))) && k < |ResponseRules|
    requires forall j :: 0 <= j < k ==> ApplyRule(ResponseRules[j], ContextOf(parse, body)) == Normal(None)
    requires ApplyRule(ResponseRules[k], ContextOf(parse, body)).Normal?
    requires ApplyRule(ResponseRules[k], ContextOf(parse, body)).value.Some?
    ensures ClassifyResponse(parse, body) == Normal(ApplyRule(ResponseRules[k], ContextOf(parse, body)).value.value)
  {
    var ctx := ContextOf(parse, body);
    Cascade.FirstMatchAt(ResponseRules, rule => ApplyRule(rule, ctx), k);
  }

  /** For each rule, in order, a field of the payload without which it declines. */
  const TestedField: seq<string> :=
    ["access_token", "candidates", "modelVersion", "currentTier", "azp", "experimentIds", "buckets", "candidates", "error", "usageMetadata"]

  /** A rule declines a payload whose field for it is absent or falsy. */
  lemma AbsentFieldDeclines(parse: string -> Option<Json>, body: Json, j: nat)
    requires j < |ResponseRules|
    requires !Truthy(Member(Unwrap(body, "response"), TestedField[j]))
    ensures ApplyRule(ResponseRules[j], ContextOf(parse, body)) == Normal(None)
  {
    var ctx := ContextOf(parse, body);
    if j == 2 {
      assert ctx.modelVersion == JStr("");
      assert !Contains("", "flash-lite");
    }
  }

  /**
   A rule decides for a payload that lacks the fields of every earlier
   rule: the response gets that rule's verdict.
   */
  lemma ClaimedBy(parse: string -> Option<Json>, body: Json, k: nat)
    requires !body.JNull? && Truthy(Some(Unwrap(body, "response"))) && k < |ResponseRules|
    requires forall j :: 0 <= j < k ==> !Truthy(Member(Unwrap(body, "response"), TestedField[j]))
    requires ApplyRule(ResponseRules[k], ContextOf(parse, body)).Normal?
    requires ApplyRule(ResponseRules[k], ContextOf(parse, body)).value.Some?
    ensures ClassifyResponse(parse, body) == Normal(ApplyRule(ResponseRules[k], ContextOf(parse, body)).value.value)
  {
    forall j | 0 <= j < k ensures ApplyRule(ResponseRules[j], ContextOf(parse, body)) == Normal(None) {
      AbsentFieldDeclines(parse, body, j);
    }
    RuleDecides(parse, body, k);
  }

  /** The candidate list `[{content: {parts}}]`, followed by any others. */
  function CandidatesWith(parts: seq<Json>, others: seq<Json>): Json {
    JArr([JObj([("content", JObj([("parts", JArr(parts))]))])] + others)
  }

  /**
   Rule 2: a first text part holding a JSON object whose `model_choice` is
   truthy is a routing decision naming that choice.
   */
  lemma RoutingDecisionResponse(parse: string -> Option<Json>, body: Json, text: string, decision: Json, others: seq<Json>)
    requires !body.JNull?
    requires var p := Unwrap(body, "response");
             && !Truthy(Member(p, "access_token"))
             && Member(p, "candidates") == Some(CandidatesWith([JObj([("text", JStr(text))])], others))
    requires LooksLikeObject(text) && Contains(text, "\"model_choice\"")
    requires parse(text) == Some(decision) && Truthy(Member(decision, "model_choice"))
    ensures ClassifyResponse(parse, body) ==
              Normal(Verdict(ModelRoutingResponse, "Routing Decision: " + Display(Member(decision, "model_choice"))))
  {
    var p := Unwrap(body, "response");
    assert Truthy(Some(p)) by {
      assert Member(p, "candidates").Some?;
      assert "candidates" != "length";
    }
    assert forall j :: 0 <= j < 1 ==> TestedField[j] == "access_token";
    RoutingDecisionOf(ContextOf(parse, body), text, decision, others);
    assert ResponseRules[1] == RoutingDecision;
    ClaimedBy(parse, body, 1);
  }

  lemma RoutingDecisionOf(ctx: Context, text: string, decision: Json, others: seq<Json>)
    requires Member(ctx.payload, "candidates") == Some(CandidatesWith([JObj([("text", JStr(text))])], others))
    requires LooksLikeObject(text) && Contains(text, "\"model_choice\"")
    requires ctx.parse(text) == Some(decision) && Truthy(Member(decision, "model_choice"))
    ensures RoutingDecisionRule(ctx) ==
              Normal(Some(Verdict(ModelRoutingResponse, "Routing Decision: " + Display(Member(decision, "model_choice")))))
  {
    var part := JObj([("text", JStr(text))]);
    var content := JObj([("parts", JArr([part]))]);
    var candidate := JObj([("content", content)]);
    assert HasPositiveLength(Member(ctx.payload, "candidates"));
    assert Index(CandidatesWith([part], others), 0) == Some(candidate);
    assert Member(candidate, "content") == Some(content);
    assert Member(content, "parts") == Some(JArr([part]));
    assert Member(part, "text") == Some(JStr(text));
  }

  /** The first part has no text that could hold a routing decision. */
  predicate NoDecisionText(parts: seq<Json>) {
    || |parts| == 0
    || !Truthy(Member(parts[0], "text"))
    || (Member(parts[0], "text").value.JStr? && !Contains(Member(parts[0], "text").value.s, "\"model_choice\""))
  }

  /**
   On candidates whose first part carries no decision text, the
   routing-decision rule declines and the chat rule judges the parts.
   */
  lemma CandidatesRules(ctx: Context, parts: seq<Json>, others: seq<Json>)
    requires Member(ctx.payload, "candidates") == Some(CandidatesWith(parts, others))
    requires NoDecisionText(parts)
    ensures ApplyRule(ResponseRules[1], ctx) == Normal(None)
    ensures ApplyRule(ResponseRules[7], ctx) == PartsVerdict(Some(JArr(parts)))
  {
    var content := JObj([("parts", JArr(parts))]);
    var candidate := JObj([("content", content)]);
    assert HasPositiveLength(Member(ctx.payload, "candidates"));
    assert Index(CandidatesWith(parts, others), 0) == Some(candidate);
    assert Member(candidate, "content") == Some(content);
    assert Member(content, "parts") == Some(JArr(parts));
    assert ResponseRules[1] == RoutingDecision && ResponseRules[7] == Chat;
  }

  /**
   Rule 8 on the classification: a payload that only carries candidates,
   whose first candidate's object parts hold no routing decision, is a
   tool call when some part has a `functionCall` key, with the call names
   in part order; else text when some part has a `text` key; else empty.
   */
  lemma ChatResponse(parse: string -> Option<Json>, body: Json, parts: seq<Json>, others: seq<Json>)
    requires !body.JNull?
    requires var p := Unwrap(body, "response");
             && !Truthy(Member(p, "access_token")) && !Truthy(Member(p, "modelVersion"))
             && !Truthy(Member(p, "currentTier")) && !Truthy(Member(p, "azp")) && !Truthy(Member(p, "experimentIds"))
             && !Truthy(Member(p, "buckets"))
             && Member(p, "candidates") == Some(CandidatesWith(parts, others))
    requires WellFormedParts(parts) && NoDecisionText(parts)
    ensures var hasCall := exists i :: 0 <= i < |parts| && "functionCall" in Keys(parts[i].fields);
            var hasText := exists i :: 0 <= i < |parts| && "text" in Keys(parts[i].fields);
            var names := CallNameValues(parts);
            ClassifyResponse(parse, body) ==
              if hasCall then Normal(Verdict(ChatResponseToolCall, "Response (Tool Call): " + JoinValues(names, ", ")))
              else if hasText then Normal(Verdict(ChatResponseText, "Response (Text)"))
              else Normal(Verdict(ChatResponseEmpty, "Response (Empty)"))
  {
    var p := Unwrap(body, "response");
    var ctx := ContextOf(parse, body);
    assert Truthy(Some(p)) by {
      assert Member(p, "candidates").Some?;
      assert "candidates" != "length";
    }
    CandidatesRules(ctx, parts, others);
    PartsVerdictSpec(parts);
    forall j | 0 <= j < 7 ensures ApplyRule(ResponseRules[j], ctx) == Normal(None) {
      if j != 1 {
        assert TestedField[j] in {"access_token", "modelVersion", "currentTier", "azp", "experimentIds", "buckets"};
        AbsentFieldDeclines(parse, body, j);
      }
    }
    RuleDecides(parse, body, 7);
  }

  /** A part carrying the call `{name: n}`. */
  function CallPart(name: string): Json {
    JObj([("functionCall", JObj([("name", JStr(name))]))])
  }

  /** A body holding only `candidates` is its own payload and lacks every other tested field. */
  lemma CandidatesOnly(candidates: Json)
    ensures var body := JObj([("candidates", candidates)]);
            && Unwrap(body, "response") == body
            && !Truthy(Member(body, "access_token")) && !Truthy(Member(body, "modelVersion"))
            && !Truthy(Member(body, "currentTier")) && !Truthy(Member(body, "azp"))
            && !Truthy(Member(body, "experimentIds")) && !Truthy(Member(body, "buckets"))
            && Member(body, "candidates") == Some(candidates)
  {
  }

  /** The parts `a`, `b` are well formed, carry no decision text, and the first is a call. */
  lemma TwoCallParts()
    ensures var parts := [CallPart("a"), CallPart("b")];
            && WellFormedParts(parts) && NoDecisionText(parts)
            && "functionCall" in Keys(parts[0].fields)
  {
  }

  /** The calls of the parts `a`, `b` and their joined names. */
  lemma TwoCallNames()
    ensures var parts := [CallPart("a"), CallPart("b")];
            var names := CallNameValues(parts);
            JoinValues(names, ", ") == "a, b"
  {
    var parts := [CallPart("a"), CallPart("b")];
    var callA, callB := JObj([("name", JStr("a"))]), JObj([("name", JStr("b"))]);
    assert CallsOf(parts) == [callA, callB] by {
      assert parts[1..] == [CallPart("b")];
      assert parts[1..][1..] == [];
    }
    var names := CallNameValues(parts);
    assert names == [Some(JStr("a")), Some(JStr("b"))];
    var shown := seq(|names|, i requires 0 <= i < |names| => if Nullish(names[i]) then "" else Display(names[i]));
    assert shown == ["a", "b"];
    assert Join(["a", "b"], ", ") == "a" + ", " + Join(["b"], ", ");
  }

  /** Two calls, `a` then `b`, are labelled as a tool call naming both, in order. */
  lemma TwoCallsResponse(parse: string -> Option<Json>)
    ensures ClassifyResponse(parse, JObj([("candidates", CandidatesWith([CallPart("a"), CallPart("b")], []))])) ==
              Normal(Verdict(ChatResponseToolCall, "Response (Tool Call): a, b"))
  {
    var parts := [CallPart("a"), CallPart("b")];
    var candidates := CandidatesWith(parts, []);
    CandidatesOnly(candidates);
    TwoCallParts();
    TwoCallNames();
    ChatResponse(parse, JObj([("candidates", candidates)]), parts, []);
    assert exists i :: 0 <= i < |parts| && "functionCall" in Keys(parts[i].fields);
    assert ClassifyResponse(parse, JObj([("candidates", candidates)])) ==
      Normal(Verdict(ChatResponseToolCall, "Response (Tool Call): " + JoinValues(CallNameValues(parts), ", ")));
    assert "Response (Tool Call): " + "a, b" == "Response (Tool Call): a, b";
  }

  /** Rule 3: a `modelVersion` naming `flash-lite` marks a routing response. */
  lemma FlashLiteVersionResponse(parse: string -> Option<Json>, body: Json, version: string)
    requires !body.JNull?
    requires var p := Unwrap(body, "response");
             && !Truthy(Member(p, "access_token")) && !Truthy(Member(p, "candidates"))
             && Member(p, "modelVersion") == Some(JStr(version))
    requires Contains(version, "flash-lite")
    ensures ClassifyResponse(parse, body) == Normal(Verdict(ModelRoutingResponse, "Routing Response (Flash Lite)"))
  {
    ClaimedBy(parse, body, 2);
  }

  /** Rule 4: a current tier and allowed tiers make a user profile, named by the tier. */
  lemma TierProfileResponse(parse: string -> Option<Json>, body: Json)
    requires !body.JNull?
    requires var p := Unwrap(body, "response");
             && !Truthy(Member(p, "access_token")) && !Truthy(Member(p, "candidates")) && !Truthy(Member(p, "modelVersion"))
             && Truthy(Member(p, "currentTier")) && Truthy(Member(p, "allowedTiers"))
    ensures var tier := Member(Unwrap(body, "response"), "currentTier").value;
            ClassifyResponse(parse, body) ==
              Normal(Verdict(UserProfileResponse, "User Profile (" + Display(Or(Member(tier, "name"), Some(JStr("Unknown")))) + ")"))
  {
    forall j | 0 <= j < 3 ensures !Truthy(Member(Unwrap(body, "response"), TestedField[j])) {
      assert TestedField[j] in {"access_token", "candidates", "modelVersion"};
    }
    ClaimedBy(parse, body, 3);
  }

  /** Rule 5: `azp`, `aud`, `email` and `sub` make identity information, named by the email. */
  lemma TokenIdentityResponse(parse: string -> Option<Json>, body: Json)
    requires !body.JNull?
    requires var p := Unwrap(body, "response");
             && !Truthy(Member(p, "access_token")) && !Truthy(Member(p, "candidates")) && !Truthy(Member(p, "modelVersion"))
             && !Truthy(Member(p, "currentTier"))
             && Truthy(Member(p, "azp")) && Truthy(Member(p, "aud")) && Truthy(Member(p, "email")) && Truthy(Member(p, "sub"))
    ensures ClassifyResponse(parse, body) ==
              Normal(Verdict(IdentityResponse, "Identity Info (" + Display(Member(Unwrap(body, "response"), "email")) + ")"))
  {
    forall j | 0 <= j < 4 ensures !Truthy(Member(Unwrap(body, "response"), TestedField[j])) {
      assert TestedField[j] in {"access_token", "candidates", "modelVersion", "currentTier"};
    }
    ClaimedBy(parse, body, 4);
  }

  /** Rule 6: experiment ids with a flag list make an experiment configuration, counting the flags. */
  lemma ExperimentConfigResponse(parse: string -> Option<Json>, body: Json, flags: seq<Json>)
    requires !body.JNull?
    requires var p := Unwrap(body, "response");
             && !Truthy(Member(p, "access_token")) && !Truthy(Member(p, "candidates")) && !Truthy(Member(p, "modelVersion"))
             && !Truthy(Member(p, "currentTier")) && !Truthy(Member(p, "azp"))
             && Truthy(Member(p, "experimentIds")) && Member(p, "flags") == Some(JArr(flags))
    ensures ClassifyResponse(parse, body) ==
              Normal(Verdict(ConfigResponse, "Experiment Config (Flags: " + IntToString(|flags|) + ")"))
  {
    forall j | 0 <= j < 5 ensures !Truthy(Member(Unwrap(body, "response"), TestedField[j])) {
      assert TestedField[j] in {"access_token", "candidates", "modelVersion", "currentTier", "azp"};
    }
    ClaimedBy(parse, body, 5);
  }

  /** Rule 7: a `buckets` array makes usage statistics. */
  lemma UsageBucketsResponse(parse: string -> Option<Json>, body: Json, buckets: seq<Json>)
    requires !body.JNull?
    requires var p := Unwrap(body, "response");
             && !Truthy(Member(p, "access_token")) && !Truthy(Member(p, "candidates")) && !Truthy(Member(p, "modelVersion"))
             && !Truthy(Member(p, "currentTier")) && !Truthy(Member(p, "azp")) && !Truthy(Member(p, "experimentIds"))
             && Member(p, "buckets") == Some(JArr(buckets))
    ensures ClassifyResponse(parse, body) == Normal(Verdict(ModelUsageResponse, "Model Usage Statistics"))
  {
    forall j | 0 <= j < 6 ensures !Truthy(Member(Unwrap(body, "response"), TestedField[j])) {
      assert TestedField[j] in {"access_token", "candidates", "modelVersion", "currentTier", "azp", "experimentIds"};
    }
    ClaimedBy(parse, body, 6);
  }

  /** Rule 9: a truthy `error` makes an API error. */
  lemma ApiErrorResponse(parse: string -> Option<Json>, body: Json)
    requires !body.JNull?
    requires var p := Unwrap(body, "response");
             && !Truthy(Member(p, "access_token")) && !Truthy(Member(p, "candidates")) && !Truthy(Member(p, "modelVersion"))
             && !Truthy(Member(p, "currentTier")) && !Truthy(Member(p, "azp")) && !Truthy(Member(p, "experimentIds"))
             && !Truthy(Member(p, "buckets")) && Truthy(Member(p, "error"))
    ensures ClassifyResponse(parse, body) == Normal(Verdict(ErrorResponse, "API Error"))
  {
    forall j | 0 <= j < 8 ensures !Truthy(Member(Unwrap(body, "response"), TestedField[j])) {
      assert TestedField[j] in {"access_token", "candidates", "modelVersion", "currentTier", "azp", "experimentIds", "buckets"};
    }
    ClaimedBy(parse, body, 8);
  }

  /** Rule 10: usage metadata alone makes a metadata response. */
  lemma UsageOnlyResponse(parse: string -> Option<Json>, body: Json)
    requires !body.JNull?
    requires var p := Unwrap(body, "response");
             && !Truthy(Member(p, "access_token")) && !Truthy(Member(p, "candidates")) && !Truthy(Member(p, "modelVersion"))
             && !Truthy(Member(p, "currentTier")) && !Truthy(Member(p, "azp")) && !Truthy(Member(p, "experimentIds"))
             && !Truthy(Member(p, "buckets")) && !Truthy(Member(p, "error")) && Truthy(Member(p, "usageMetadata"))
    ensures ClassifyResponse(parse, body) == Normal(Verdict(MetaResponse, "Metadata Response"))
  {
    forall j | 0 <= j < 9 ensures !Truthy(Member(Unwrap(body, "response"), TestedField[j])) {
      assert TestedField[j] in {"access_token", "candidates", "modelVersion", "currentTier", "azp", "experimentIds", "buckets", "error"};
    }
    ClaimedBy(parse, body, 9);
  }

  /** Every part is an object whose `functionCall`, when present, is neither null nor undefined. */
  ghost predicate WellFormedParts(parts: seq<Json>) {
    forall i :: 0 <= i < |parts| ==> parts[i].JObj? && Member(parts[i], "functionCall") != Some(JNull)
  }

  /** The `name` member of each call among the parts, in part order. */
  function CallNameValues(parts: seq<Json>): (r: seq<Value>)
    ensures |r| == |CallsOf(parts)|
    ensures forall i :: 0 <= i < |r| ==> r[i] == Member(CallsOf(parts)[i], "name")
  {
    seq(|CallsOf(parts)|, i requires 0 <= i < |CallsOf(parts)| => Member(CallsOf(parts)[i], "name"))
  }

  /** The `functionCall` values among the parts, in part order. */
  function CallsOf(parts: seq<Json>): seq<Json> {
    if |parts| == 0 then []
    else (if parts[0].JObj? && "functionCall" in Keys(parts[0].fields) then [Member(parts[0], "functionCall").value] else [])
         + CallsOf(parts[1..])
  }

  lemma {:induction false} CallNamesSpec(parts: seq<Json>)
    requires WellFormedParts(parts)
    ensures CallNames(parts) == Normal(JoinValues(CallNameValues(parts), ", "))
  {
    var calls := Filter(parts, p => HasKey(Some(p), "functionCall"));
    FilterCalls(parts);
    var names := MapValues(calls.value, p => Get(Member(p, "functionCall"), "name"));
    assert names.Normal?;
    assert names.value == CallNameValues(parts);
  }

  /** The kept parts carry, one for one, the given `functionCall` values. */
  ghost predicate CarryCalls(kept: seq<Json>, calls: seq<Json>) {
    && |kept| == |calls|
    && forall i :: 0 <= i < |kept| ==>
         kept[i].JObj? && !Nullish(Member(kept[i], "functionCall")) && Member(kept[i], "functionCall").value == calls[i]
  }

  lemma CarryCallsCons(x: Json, kept: seq<Json>, calls: seq<Json>)
    requires CarryCalls(kept, calls)
    requires x.JObj? && !Nullish(Member(x, "functionCall"))
    ensures CarryCalls([x] + kept, [Member(x, "functionCall").value] + calls)
  {
    forall i | 0 < i < |kept| + 1 ensures ([x] + kept)[i] == kept[i - 1] {}
  }

  /** Filtering the parts on `'functionCall' in p` keeps exactly the parts that carry `CallsOf`. */
  lemma {:induction false} FilterCalls(parts: seq<Json>)
    requires WellFormedParts(parts)
    ensures var calls := Filter(parts, p => HasKey(Some(p), "functionCall"));
            calls.Normal? && CarryCalls(calls.value, CallsOf(parts))
    decreases |parts|
  {
    if |parts| > 0 {
      assert WellFormedParts(parts[1..]) by {
        forall i | 0 <= i < |parts[1..]| ensures parts[1..][i] == parts[i + 1] {}
      }
      FilterCalls(parts[1..]);
      var pred := p => HasKey(Some(p), "functionCall");
      var rest := Filter(parts[1..], pred).value;
      var has := "functionCall" in Keys(parts[0].fields);
      assert pred(parts[0]) == Normal(has);
      FilterCons(parts, pred);
      if has {
        assert CallsOf(parts) == [Member(parts[0], "functionCall").value] + CallsOf(parts[1..]);
        CarryCallsCons(parts[0], rest, CallsOf(parts[1..]));
      } else {
        assert CallsOf(parts) == [] + CallsOf(parts[1..]);
        assert [] + rest == rest;
      }
    }
  }

  /**
   For parts that are objects, the chat rule answers: a tool call when
   some part has a `functionCall` key, with the call names in part order
   joined by ", "; otherwise text when some part has a `text` key, even an
   empty one; otherwise empty.
   */
  lemma ChatVerdict(payload: Json, parts: seq<Json>)
    requires var candidates := Member(payload, "candidates");
             HasPositiveLength(candidates)
             && var first := Index(candidates.value, 0);
             && first.Some? && first.value.JObj?
             && var content := Member(first.value, "content");
             && content.Some? && content.value.JObj? && Member(content.value, "parts") == Some(JArr(parts))
    requires WellFormedParts(parts)
    ensures var hasCall := exists i :: 0 <= i < |parts| && "functionCall" in Keys(parts[i].fields);
            var hasText := exists i :: 0 <= i < |parts| && "text" in Keys(parts[i].fields);
            var names := CallNameValues(parts);
            ChatRule(payload) ==
              if hasCall then Normal(Some(Verdict(ChatResponseToolCall, "Response (Tool Call): " + JoinValues(names, ", "))))
              else if hasText then Normal(Some(Verdict(ChatResponseText, "Response (Text)")))
              else Normal(Some(Verdict(ChatResponseEmpty, "Response (Empty)")))
  {
    assert ChatRule(payload) == PartsVerdict(Some(JArr(parts)));
    PartsVerdictSpec(parts);
  }

  lemma PartsVerdictSpec(parts: seq<Json>)
    requires WellFormedParts(parts)
    ensures var hasCall := exists i :: 0 <= i < |parts| && "functionCall" in Keys(parts[i].fields);
            var hasText := exists i :: 0 <= i < |parts| && "text" in Keys(parts[i].fields);
            var names := CallNameValues(parts);
            PartsVerdict(Some(JArr(parts))) ==
              if hasCall then Normal(Some(Verdict(ChatResponseToolCall, "Response (Tool Call): " + JoinValues(names, ", "))))
              else if hasText then Normal(Some(Verdict(ChatResponseText, "Response (Text)")))
              else Normal(Some(Verdict(ChatResponseEmpty, "Response (Empty)")))
  {
    CallNamesSpec(parts);
    SomePartHasKey(parts, "text");
    SomePartHasKey(parts, "functionCall");
  }

  /** On object parts, `some(p => key in p)` is plain key presence in some part. */
  lemma SomePartHasKey(parts: seq<Json>, key: string)
    requires forall i :: 0 <= i < |parts| ==> parts[i].JObj?
    ensures SomePartHas(Some(JArr(parts)), key) == Normal(exists i :: 0 <= i < |parts| && key in Keys(parts[i].fields))
  {
    var pred := p => HasKey(Some(p), key);
    assert forall i :: 0 <= i < |parts| ==> pred(parts[i]) == Normal(key in Keys(parts[i].fields));
  }
}
