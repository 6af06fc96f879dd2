/**
 `mergeChunks` (hook.mjs): folds the ordered fragments of a streamed
 response into one response. Text is concatenated, thought texts and
 function calls are collected, and the last truthy finish reason and usage
 block win. The result lists the thought segment first, then the text,
 then one part per tool call, whatever order the fragments arrived in.
 */
module StreamMerge {
  import opened Text
  import opened Js

  /** The accumulators of the merge loop. */
  datatype Acc = Acc(fullText: string, thoughts: seq<Value>, toolCalls: seq<Json>, finishReason: Json, usage: Json)

  /** `fullText = ''`, `thoughts = []`, `toolCalls = []`, `finishReason: null`, `usageMetadata: {}`. */
  const Init := Acc("", [], [], JNull, JObj([]))

  /** One pass of the inner loop: `text`, then `thought`, then `functionCall`. A null part throws. */
  function AbsorbPart(acc: Acc, part: Json): Completion<Acc> {
    if part.JNull? then Throw
    else
      var text := Member(part, "text");
      var withText := if Truthy(text) then acc.(fullText := acc.fullText + Display(text)) else acc;
      var withThought := if Truthy(Member(part, "thought")) then withText.(thoughts := withText.thoughts + [text]) else withText;
      var call := Member(part, "functionCall");
      Normal(if Truthy(call) then withThought.(toolCalls := withThought.toolCalls + [call.value]) else withThought)
  }

  function AbsorbParts(acc: Acc, parts: seq<Json>): Completion<Acc>
    decreases |parts|
  {
    if |parts| == 0 then Normal(acc)
    else
      var next :- AbsorbPart(acc, parts[0]);
      AbsorbParts(next, parts[1..])
  }

  /** `chunk.response?.candidates?.[0] || chunk.candidates?.[0]`; reading `response` of a null chunk throws. */
  function CandidateOf(chunk: Json): Completion<Value> {
    if chunk.JNull? then Throw
    else Normal(Or(IndexOpt(GetOpt(Member(chunk, "response"), "candidates"), 0), IndexOpt(Member(chunk, "candidates"), 0)))
  }

  /** `chunk.response?.usageMetadata || chunk.usageMetadata`. */
  function UsageOf(chunk: Json): Value {
    Or(GetOpt(Member(chunk, "response"), "usageMetadata"), Member(chunk, "usageMetadata"))
  }

  /** What `for (const part of candidate.content.parts)` visits; nothing when `content?.parts` is falsy. */
  function PartsOf(candidate: Json): Completion<seq<Json>> {
    var parts := GetOpt(Member(candidate, "content"), "parts");
    if Truthy(parts) then Iterate(parts.value) else Normal([])
  }

  /** One pass of the outer loop. A chunk without a truthy first candidate is skipped entirely. */
  function AbsorbChunk(acc: Acc, chunk: Json): Completion<Acc> {
    var candidate :- CandidateOf(chunk);
    if !Truthy(candidate) then Normal(acc)
    else
      var finish := Member(candidate.value, "finishReason");
      var withFinish := if Truthy(finish) then acc.(finishReason := finish.value) else acc;
      var parts :- PartsOf(candidate.value);
      var withParts :- AbsorbParts(withFinish, parts);
      var usage := UsageOf(chunk);
      Normal(if Truthy(usage) then withParts.(usage := usage.value) else withParts)
  }

  function AbsorbChunks(acc: Acc, chunks: seq<Json>): Completion<Acc>
    decreases |chunks|
  {
    if |chunks| == 0 then Normal(acc)
    else
      var next :- AbsorbChunk(acc, chunks[0]);
      AbsorbChunks(next, chunks[1..])
  }

  /** The merged response: `candidates[0]` carries the parts and finish reason. */
  datatype MergedResponse = MergedResponse(parts: seq<Json>, finishReason: Json, usageMetadata: Json, chunkCount: nat) {
    /** The object the hook builds and classifies. */
    function ToJson(): Json {
      JObj([
        ("candidates", JArr([JObj([
          ("content", JObj([("parts", JArr(parts)), ("role", JStr("model"))])),
          ("finishReason", finishReason)])])),
        ("usageMetadata", usageMetadata),
        ("chunkCount", JNum(chunkCount))])
    }
  }

  datatype MergeResult = EmptyResponse | Merged(summary: string, response: MergedResponse) {
    /** The `data` the hook classifies and publishes. */
    function Data(): Json {
      match this
      case EmptyResponse => JObj([])
      case Merged(_, response) => response.ToJson()
    }

    function Summary(): string {
      match this
      case EmptyResponse => "Empty Response"
      case Merged(summary, _) => summary
    }
  }

  /** `{text: thoughts.join('\n'), thought: true}` when any thought was seen. */
  function ThoughtSegment(thoughts: seq<Value>): seq<Json> {
    if |thoughts| > 0 then [JObj([("text", JStr(JoinValues(thoughts, "\n"))), ("thought", JBool(true))])] else []
  }

  /** `{text: fullText}` when the text is non-empty. */
  function TextSegment(fullText: string): seq<Json> {
    if fullText != "" then [JObj([("text", JStr(fullText))])] else []
  }

  /** `{functionCall: tc}` for every tool call, in order. */
  function CallSegment(calls: seq<Json>): (r: seq<Json>)
    ensures |r| == |calls|
    ensures forall i :: 0 <= i < |calls| ==> r[i] == JObj([("functionCall", calls[i])])
  {
    seq(|calls|, i requires 0 <= i < |calls| => JObj([("functionCall", calls[i])]))
  }

  /** The summary `mergeChunks` returns alongside the data. */
  function MergeSummary(calls: seq<Json>, fullText: string): string {
    if |calls| > 0 then "Tool Call: " + JoinValues(seq(|calls|, i requires 0 <= i < |calls| => Member(calls[i], "name")), ", ")
    else if |fullText| > 0 then "Text Response"
    else "Streamed Response"
  }

  // ---------------------------------------------------------------------
  // A reference reading of the fold: the stream of parts of every chunk
  // that has a candidate, and what each kind of part contributes.
  // ---------------------------------------------------------------------

  /** The parts a chunk contributes: none when it has no truthy candidate. */
  function ChunkParts(chunk: Json): Completion<seq<Json>> {
    var candidate :- CandidateOf(chunk);
    if !Truthy(candidate) then Normal([]) else PartsOf(candidate.value)
  }

  /** All parts of the stream, chunk by chunk, in arrival order. */
  function StreamParts(chunks: seq<Json>): Completion<seq<Json>> {
    if |chunks| == 0 then Normal([])
    else
      var first :- ChunkParts(chunks[0]);
      var rest :- StreamParts(chunks[1..]);
      Normal(first + rest)
  }

  predicate NoNullPart(parts: seq<Json>) {
    forall i :: 0 <= i < |parts| ==> !parts[i].JNull?
  }

  /** What a part adds to the text: its `text` when truthy, thought parts included. */
  function TextPiece(part: Json): string {
    var text := Member(part, "text");
    if Truthy(text) then Display(text) else ""
  }

  /** What a part adds to the thoughts: its `text`, possibly undefined, when `thought` is truthy. */
  function ThoughtPiece(part: Json): seq<Value> {
    if Truthy(Member(part, "thought")) then [Member(part, "text")] else []
  }

  /** What a part adds to the tool calls: its `functionCall` when truthy. */
  function CallPiece(part: Json): seq<Json> {
    var call := Member(part, "functionCall");
    if Truthy(call) then [call.value] else []
  }

  function TextOf(parts: seq<Json>): string {
    if |parts| == 0 then "" else TextPiece(parts[0]) + TextOf(parts[1..])
  }

  function ThoughtsOf(parts: seq<Json>): seq<Value> {
    if |parts| == 0 then [] else ThoughtPiece(parts[0]) + ThoughtsOf(parts[1..])
  }

  function CallsOf(parts: seq<Json>): seq<Json> {
    if |parts| == 0 then [] else CallPiece(parts[0]) + CallsOf(parts[1..])
  }

  /** A non-null part adds its own text, thought and call, and nothing else. */
  lemma AbsorbPartSpec(acc: Acc, part: Json)
    requires !part.JNull?
    ensures AbsorbPart(acc, part) ==
              Normal(acc.(fullText := acc.fullText + TextPiece(part),
                          thoughts := acc.thoughts + ThoughtPiece(part),
                          toolCalls := acc.toolCalls + CallPiece(part)))
  {
    assert acc.fullText + "" == acc.fullText;
    assert acc.thoughts + [] == acc.thoughts;
    assert acc.toolCalls + [] == acc.toolCalls;
  }

  /** The truthy finish reason of a chunk's candidate, if the chunk has one. */
  function FinishOf(chunk: Json): Option<Json> {
    var candidate := CandidateOf(chunk);
    if candidate.Normal? && Truthy(candidate.value) && Truthy(Member(candidate.value.value, "finishReason"))
    then Some(Member(candidate.value.value, "finishReason").value) else None
  }

  /** The truthy usage block of a chunk, counted only when the chunk has a candidate. */
  function UsageFrom(chunk: Json): Option<Json> {
    var candidate := CandidateOf(chunk);
    if candidate.Normal? && Truthy(candidate.value) && Truthy(UsageOf(chunk)) then Some(UsageOf(chunk).value) else None
  }

  /** The value of the last chunk that offers one, else the default. */
  function LastOffered(chunks: seq<Json>, offer: Json -> Option<Json>, default: Json): Json {
    if |chunks| == 0 then default
    else if offer(chunks[|chunks| - 1]).Some? then offer(chunks[|chunks| - 1]).value
    else LastOffered(chunks[..|chunks| - 1], offer, default)
  }

  // ---------------------------------------------------------------------
  // The fold agrees with the reference reading.
  // ---------------------------------------------------------------------

  lemma {:induction false} TextOfAppend(a: seq<Json>, b: seq<Json>)
    ensures TextOf(a + b) == TextOf(a) + TextOf(b)
    ensures ThoughtsOf(a + b) == ThoughtsOf(a) + ThoughtsOf(b)
    ensures CallsOf(a + b) == CallsOf(a) + CallsOf(b)
    decreases |a|
  {
    if |a| > 0 {
      assert (a + b)[1..] == a[1..] + b;
      TextOfAppend(a[1..], b);
    } else {
      assert a + b == b;
    }
  }

  /** Offering a value at the front only matters when no later chunk offers one. */
  lemma {:induction false} LastOfferedCons(c: Json, rest: seq<Json>, offer: Json -> Option<Json>, default: Json)
    ensures LastOffered([c] + rest, offer, default) ==
            LastOffered(rest, offer, if offer(c).Some? then offer(c).value else default)
    decreases |rest|
  {
    var s := [c] + rest;
    if |rest| > 0 {
      assert s[|s| - 1] == rest[|rest| - 1];
      assert s[..|s| - 1] == [c] + rest[..|rest| - 1];
      LastOfferedCons(c, rest[..|rest| - 1], offer, default);
    } else {
      assert s[..|s| - 1] == [];
    }
  }

  lemma NoNullPartAppend(a: seq<Json>, b: seq<Json>)
    ensures NoNullPart(a + b) <==> NoNullPart(a) && NoNullPart(b)
  {
    if NoNullPart(a) && NoNullPart(b) {
      forall i | 0 <= i < |a + b| ensures !(a + b)[i].JNull? {
        if i >= |a| {
          assert (a + b)[i] == b[i - |a|];
        }
      }
    }
    if NoNullPart(a + b) {
      forall i | 0 <= i < |a| ensures !a[i].JNull? {
        assert (a + b)[i] == a[i];
      }
      forall i | 0 <= i < |b| ensures !b[i].JNull? {
        assert (a + b)[|a| + i] == b[i];
      }
    }
  }

  /** The inner loop appends the parts' text, thoughts and calls, and throws exactly on a null part. */
  lemma {:induction false} AbsorbPartsSpec(acc: Acc, parts: seq<Json>)
    ensures AbsorbParts(acc, parts).Normal? <==> NoNullPart(parts)
    ensures AbsorbParts(acc, parts).Normal? ==>
              AbsorbParts(acc, parts).value ==
                acc.(fullText := acc.fullText + TextOf(parts),
                     thoughts := acc.thoughts + ThoughtsOf(parts),
                     toolCalls := acc.toolCalls + CallsOf(parts))
    decreases |parts|
  {
    if |parts| == 0 {
      assert acc.fullText + TextOf(parts) == acc.fullText;
      assert acc.thoughts + ThoughtsOf(parts) == acc.thoughts;
      assert acc.toolCalls + CallsOf(parts) == acc.toolCalls;
    } else {
      var head, tail := parts[0], parts[1..];
      assert NoNullPart(parts) <==> !head.JNull? && NoNullPart(tail) by {
        assert forall i :: 0 < i < |parts| ==> parts[i] == tail[i - 1];
      }
      if head.JNull? {
        assert AbsorbParts(acc, parts) == Throw;
      } else {
        var next := acc.(fullText := acc.fullText + TextPiece(head),
                         thoughts := acc.thoughts + ThoughtPiece(head),
                         toolCalls := acc.toolCalls + CallPiece(head));
        assert AbsorbParts(acc, parts) == AbsorbParts(next, tail) by {
          AbsorbPartSpec(acc, head);
        }
        AbsorbPartsSpec(next, tail);
        assert next.fullText + TextOf(tail) == acc.fullText + TextOf(parts) by {
          assert TextOf(parts) == TextPiece(head) + TextOf(tail);
        }
        assert next.thoughts + ThoughtsOf(tail) == acc.thoughts + ThoughtsOf(parts) by {
          assert ThoughtsOf(parts) == ThoughtPiece(head) + ThoughtsOf(tail);
        }
        assert next.toolCalls + CallsOf(tail) == acc.toolCalls + CallsOf(parts) by {
          assert CallsOf(parts) == CallPiece(head) + CallsOf(tail);
        }
      }
    }
  }

  /** One chunk adds its parts' contributions and offers its finish reason and usage. */
  lemma AbsorbChunkSpec(acc: Acc, chunk: Json)
    ensures var parts := ChunkParts(chunk);
            AbsorbChunk(acc, chunk).Normal? <==> parts.Normal? && NoNullPart(parts.value)
    ensures AbsorbChunk(acc, chunk).Normal? ==>
              var parts := ChunkParts(chunk).value;
              AbsorbChunk(acc, chunk).value ==
                Acc(acc.fullText + TextOf(parts),
                    acc.thoughts + ThoughtsOf(parts),
                    acc.toolCalls + CallsOf(parts),
                    if FinishOf(chunk).Some? then FinishOf(chunk).value else acc.finishReason,
                    if UsageFrom(chunk).Some? then UsageFrom(chunk).value else acc.usage)
  {
    var candidate := CandidateOf(chunk);
    if candidate.Normal? && Truthy(candidate.value) {
      var finish := Member(candidate.value.value, "finishReason");
      var withFinish := if Truthy(finish) then acc.(finishReason := finish.value) else acc;
      var parts := PartsOf(candidate.value.value);
      if parts.Normal? {
        AbsorbPartsSpec(withFinish, parts.value);
      }
    }
  }

  /**
   The fold over the chunks equals the reference reading: it succeeds
   exactly when every chunk's parts can be read and none is null, the text,
   thoughts and calls are those of the whole part stream in order, and the
   finish reason and usage are the last ones offered.
   */
  lemma {:induction false} AbsorbChunksSpec(acc: Acc, chunks: seq<Json>)
    ensures var parts := StreamParts(chunks);
            AbsorbChunks(acc, chunks).Normal? <==> parts.Normal? && NoNullPart(parts.value)
    ensures AbsorbChunks(acc, chunks).Normal? ==>
              var parts := StreamParts(chunks).value;
              AbsorbChunks(acc, chunks).value ==
                Acc(acc.fullText + TextOf(parts),
                    acc.thoughts + ThoughtsOf(parts),
                    acc.toolCalls + CallsOf(parts),
                    LastOffered(chunks, FinishOf, acc.finishReason),
                    LastOffered(chunks, UsageFrom, acc.usage))
  {
    AbsorbChunksSucceeds(acc, chunks);
    if AbsorbChunks(acc, chunks).Normal? {
      AbsorbChunksValue(acc, chunks);
    }
  }

  lemma {:induction false} AbsorbChunksSucceeds(acc: Acc, chunks: seq<Json>)
    ensures var parts := StreamParts(chunks);
            AbsorbChunks(acc, chunks).Normal? <==> parts.Normal? && NoNullPart(parts.value)
    decreases |chunks|
  {
    if |chunks| > 0 {
      var head, tail := chunks[0], chunks[1..];
      var first := ChunkParts(head);
      var rest := StreamParts(tail);
      if first.Normal? && NoNullPart(first.value) {
        assert AbsorbChunk(acc, head).Normal? by {
          AbsorbChunkSpec(acc, head);
        }
        var next := AbsorbChunk(acc, head).value;
        assert AbsorbChunks(acc, chunks) == AbsorbChunks(next, tail);
        AbsorbChunksSucceeds(next, tail);
        if rest.Normal? {
          assert StreamParts(chunks) == Normal(first.value + rest.value);
          NoNullPartAppend(first.value, rest.value);
        }
      } else {
        assert AbsorbChunks(acc, chunks) == Throw by {
          AbsorbChunkSpec(acc, head);
        }
        if first.Normal? && rest.Normal? {
          assert StreamParts(chunks) == Normal(first.value + rest.value);
          NoNullPartAppend(first.value, rest.value);
        }
      }
    }
  }

  lemma AbsorbChunksValue(acc: Acc, chunks: seq<Json>)
    requires AbsorbChunks(acc, chunks).Normal?
    requires StreamParts(chunks).Normal?
    ensures var parts := StreamParts(chunks).value;
            AbsorbChunks(acc, chunks).value ==
              Acc(acc.fullText + TextOf(parts),
                  acc.thoughts + ThoughtsOf(parts),
                  acc.toolCalls + CallsOf(parts),
                  LastOffered(chunks, FinishOf, acc.finishReason),
                  LastOffered(chunks, UsageFrom, acc.usage))
  {
    AbsorbChunksCollects(acc, chunks);
    AbsorbChunksKeepsLast(acc, chunks);
  }

  /** The fold's text, thoughts and calls are those of the whole part stream. */
  lemma {:induction false} AbsorbChunksCollects(acc: Acc, chunks: seq<Json>)
    requires AbsorbChunks(acc, chunks).Normal?
    requires StreamParts(chunks).Normal?
    ensures var parts := StreamParts(chunks).value;
            var merged := AbsorbChunks(acc, chunks).value;
            && merged.fullText == acc.fullText + TextOf(parts)
            && merged.thoughts == acc.thoughts + ThoughtsOf(parts)
            && merged.toolCalls == acc.toolCalls + CallsOf(parts)
    decreases |chunks|
  {
    if |chunks| == 0 {
      assert acc.fullText + "" == acc.fullText;
      assert acc.thoughts + [] == acc.thoughts;
      assert acc.toolCalls + [] == acc.toolCalls;
    } else {
      var head, tail := chunks[0], chunks[1..];
      var first := ChunkParts(head).value;
      var rest := StreamParts(tail).value;
      var next := AbsorbChunk(acc, head).value;
      var merged := AbsorbChunks(acc, chunks).value;
      assert StreamParts(chunks).value == first + rest;
      assert merged == AbsorbChunks(next, tail).value;
      assert merged.fullText == next.fullText + TextOf(rest)
          && merged.thoughts == next.thoughts + ThoughtsOf(rest)
          && merged.toolCalls == next.toolCalls + CallsOf(rest) by {
        AbsorbChunksCollects(next, tail);
      }
      assert next.fullText == acc.fullText + TextOf(first)
          && next.thoughts == acc.thoughts + ThoughtsOf(first)
          && next.toolCalls == acc.toolCalls + CallsOf(first) by {
        AbsorbChunkSpec(acc, head);
      }
      Regroup(acc, first, rest);
    }
  }

  lemma Regroup(acc: Acc, first: seq<Json>, rest: seq<Json>)
    ensures (acc.fullText + TextOf(first)) + TextOf(rest) == acc.fullText + TextOf(first + rest)
    ensures (acc.thoughts + ThoughtsOf(first)) + ThoughtsOf(rest) == acc.thoughts + ThoughtsOf(first + rest)
    ensures (acc.toolCalls + CallsOf(first)) + CallsOf(rest) == acc.toolCalls + CallsOf(first + rest)
  {
    TextOfAppend(first, rest);
    AppendAssoc(acc.fullText, TextOf(first), TextOf(rest));
    AppendAssoc(acc.thoughts, ThoughtsOf(first), ThoughtsOf(rest));
    AppendAssoc(acc.toolCalls, CallsOf(first), CallsOf(rest));
  }

  lemma AppendAssoc<T>(a: seq<T>, b: seq<T>, c: seq<T>)
    ensures (a + b) + c == a + (b + c)
  {
  }

  /** The fold's finish reason and usage are the last ones a chunk offered. */
  lemma {:induction false} AbsorbChunksKeepsLast(acc: Acc, chunks: seq<Json>)
    requires AbsorbChunks(acc, chunks).Normal?
    ensures var merged := AbsorbChunks(acc, chunks).value;
            && merged.finishReason == LastOffered(chunks, FinishOf, acc.finishReason)
            && merged.usage == LastOffered(chunks, UsageFrom, acc.usage)
    decreases |chunks|
  {
    if |chunks| > 0 {
      var head, tail := chunks[0], chunks[1..];
      var next := AbsorbChunk(acc, head).value;
      assert AbsorbChunks(acc, chunks) == AbsorbChunks(next, tail);
      AbsorbChunksKeepsLast(next, tail);
      AbsorbChunkSpec(acc, head);
      assert chunks == [head] + tail;
      LastOfferedCons(head, tail, FinishOf, acc.finishReason);
      LastOfferedCons(head, tail, UsageFrom, acc.usage);
    }
  }

  /** From the initial accumulators the fold yields exactly the reference values. */
  lemma MergeFromInit(chunks: seq<Json>)
    ensures var parts := StreamParts(chunks);
            AbsorbChunks(Init, chunks).Normal? <==> parts.Normal? && NoNullPart(parts.value)
    ensures AbsorbChunks(Init, chunks).Normal? ==>
              var parts := StreamParts(chunks).value;
              AbsorbChunks(Init, chunks).value ==
                Acc(TextOf(parts), ThoughtsOf(parts), CallsOf(parts),
                    LastOffered(chunks, FinishOf, JNull), LastOffered(chunks, UsageFrom, JObj([])))
  {
    AbsorbChunksSpec(Init, chunks);
    if AbsorbChunks(Init, chunks).Normal? {
      var parts := StreamParts(chunks).value;
      assert "" + TextOf(parts) == TextOf(parts);
      assert [] + ThoughtsOf(parts) == ThoughtsOf(parts);
      assert [] + CallsOf(parts) == CallsOf(parts);
    }
  }

  /**
   `mergeChunks(chunks)`. A missing or empty array gives the empty
   response. Otherwise the merge succeeds exactly when the part stream can
   be read without meeting a null part, and then: the parts are the thought
   segment, the text segment and the tool calls, in that order, whatever
   order they arrived in; the text concatenates every truthy `text`
   (thought texts included); the finish reason and usage are the last
   truthy ones offered by a chunk with a candidate; and `chunkCount` counts
   every chunk, skipped ones included.
   */
  function MergeChunks(chunks: Json): (r: Completion<MergeResult>)
    ensures !(chunks.JArr? && |chunks.items| > 0) ==> r == Normal(EmptyResponse)
    ensures chunks.JArr? && |chunks.items| > 0 ==>
              (r.Normal? <==> StreamParts(chunks.items).Normal? && NoNullPart(StreamParts(chunks.items).value))
    ensures r.Normal? && chunks.JArr? && |chunks.items| > 0 ==>
              var parts := StreamParts(chunks.items).value;
              && r.value.Merged?
              && r.value.summary == MergeSummary(CallsOf(parts), TextOf(parts))
              && r.value.response.chunkCount == |chunks.items|
              && r.value.response.parts == ThoughtSegment(ThoughtsOf(parts)) + TextSegment(TextOf(parts)) + CallSegment(CallsOf(parts))
              && r.value.response.finishReason == LastOffered(chunks.items, FinishOf, JNull)
              && r.value.response.usageMetadata == LastOffered(chunks.items, UsageFrom, JObj([]))
  {
    if !(chunks.JArr? && |chunks.items| > 0) then Normal(EmptyResponse)
    else
      MergeFromInit(chunks.items);
      var acc :- AbsorbChunks(Init, chunks.items);
      var parts := ThoughtSegment(acc.thoughts) + TextSegment(acc.fullText) + CallSegment(acc.toolCalls);
      Normal(Merged(MergeSummary(acc.toolCalls, acc.fullText), MergedResponse(parts, acc.finishReason, acc.usage, |chunks.items|)))
  }

  // ---------------------------------------------------------------------
  // Properties of the merge.
  // ---------------------------------------------------------------------

  /** `LastOffered` picks the offer of the last chunk that makes one. */
  lemma {:induction false} LastOfferedAt(chunks: seq<Json>, offer: Json -> Option<Json>, default: Json, k: nat)
    requires k < |chunks| && offer(chunks[k]).Some?
    requires forall j :: k < j < |chunks| ==> offer(chunks[j]).None?
    ensures LastOffered(chunks, offer, default) == offer(chunks[k]).value
    decreases |chunks|
  {
    if k < |chunks| - 1 {
      var prefix := chunks[..|chunks| - 1];
      assert prefix[k] == chunks[k];
      forall j | k < j < |prefix| ensures offer(prefix[j]).None? {
        assert prefix[j] == chunks[j];
      }
      LastOfferedAt(prefix, offer, default, k);
    }
  }

  /** With no chunk offering a value, the default stands. */
  lemma {:induction false} LastOfferedNone(chunks: seq<Json>, offer: Json -> Option<Json>, default: Json)
    requires forall j :: 0 <= j < |chunks| ==> offer(chunks[j]).None?
    ensures LastOffered(chunks, offer, default) == default
    decreases |chunks|
  {
    if |chunks| > 0 {
      var prefix := chunks[..|chunks| - 1];
      forall j | 0 <= j < |prefix| ensures offer(prefix[j]).None? {
        assert prefix[j] == chunks[j];
      }
      LastOfferedNone(prefix, offer, default);
    }
  }

  /**
   A thought's text is also part of the full text: the merge duplicates
   reasoning into the visible answer.
   */
  lemma {:induction false} ThoughtTextInText(parts: seq<Json>, i: nat)
    requires i < |parts|
    requires Truthy(Member(parts[i], "thought")) && Truthy(Member(parts[i], "text"))
    ensures Contains(TextOf(parts), Display(Member(parts[i], "text")))
    ensures Member(parts[i], "text") in ThoughtsOf(parts)
    decreases i
  {
    var t := Display(Member(parts[i], "text"));
    if i == 0 {
      ContainsSelf(t);
      ContainsInConcat(TextPiece(parts[0]), TextOf(parts[1..]), t);
    } else {
      assert parts[1..][i - 1] == parts[i];
      ThoughtTextInText(parts[1..], i - 1);
      ContainsInConcat(TextPiece(parts[0]), TextOf(parts[1..]), t);
    }
  }

  /** Every truthy call of the stream ends up in the tool calls, in arrival order. */
  lemma {:induction false} CallsInOrder(parts: seq<Json>, i: nat, j: nat)
    requires i < j < |parts|
    requires Truthy(Member(parts[i], "functionCall")) && Truthy(Member(parts[j], "functionCall"))
    ensures exists a, b :: 0 <= a < b < |CallsOf(parts)| && CallsOf(parts)[a] == Member(parts[i], "functionCall").value
                                                        && CallsOf(parts)[b] == Member(parts[j], "functionCall").value
    decreases i
  {
    var rest := parts[1..];
    assert rest[j - 1] == parts[j];
    if i == 0 {
      CallOfferedIn(rest, j - 1);
      var b :| 0 <= b < |CallsOf(rest)| && CallsOf(rest)[b] == Member(parts[j], "functionCall").value;
      assert CallsOf(parts) == CallPiece(parts[0]) + CallsOf(rest);
      assert CallsOf(parts)[0] == Member(parts[i], "functionCall").value;
      assert CallsOf(parts)[b + 1] == CallsOf(rest)[b];
    } else {
      assert rest[i - 1] == parts[i];
      CallsInOrder(rest, i - 1, j - 1);
      var a, b :| 0 <= a < b < |CallsOf(rest)| && CallsOf(rest)[a] == Member(parts[i], "functionCall").value
                                                && CallsOf(rest)[b] == Member(parts[j], "functionCall").value;
      var k := |CallPiece(parts[0])|;
      assert CallsOf(parts) == CallPiece(parts[0]) + CallsOf(rest);
      assert CallsOf(parts)[a + k] == CallsOf(rest)[a];
      assert CallsOf(parts)[b + k] == CallsOf(rest)[b];
    }
  }

  lemma {:induction false} CallOfferedIn(parts: seq<Json>, i: nat)
    requires i < |parts| && Truthy(Member(parts[i], "functionCall"))
    ensures exists b :: 0 <= b < |CallsOf(parts)| && CallsOf(parts)[b] == Member(parts[i], "functionCall").value
    decreases i
  {
    assert CallsOf(parts) == CallPiece(parts[0]) + CallsOf(parts[1..]);
    if i == 0 {
      assert CallsOf(parts)[0] == Member(parts[i], "functionCall").value;
    } else {
      assert parts[1..][i - 1] == parts[i];
      CallOfferedIn(parts[1..], i - 1);
      var b :| 0 <= b < |CallsOf(parts[1..])| && CallsOf(parts[1..])[b] == Member(parts[i], "functionCall").value;
      assert CallsOf(parts)[b + |CallPiece(parts[0])|] == CallsOf(parts[1..])[b];
    }
  }

  /** A chunk that contributes no parts leaves the part stream unchanged. */
  lemma {:induction false} StreamPartsSnoc(chunks: seq<Json>, chunk: Json)
    requires ChunkParts(chunk) == Normal([])
    ensures StreamParts(chunks + [chunk]) == StreamParts(chunks)
    decreases |chunks|
  {
    if |chunks| == 0 {
      assert chunks + [chunk] == [chunk];
      assert [chunk][1..] == [];
      var none: seq<Json> := [];
      assert StreamParts([chunk]) == Normal(none + none);
      assert none + none == none;
    } else {
      assert (chunks + [chunk])[1..] == chunks[1..] + [chunk];
      StreamPartsSnoc(chunks[1..], chunk);
      var first := ChunkParts(chunks[0]);
      var rest := StreamParts(chunks[1..]);
      if first.Normal? && rest.Normal? {
        assert StreamParts(chunks + [chunk]) == Normal(first.value + rest.value);
      }
    }
  }

  /**
   A trailing chunk without a candidate (a bare usage report, say) changes
   nothing but the chunk count: its usage block is not picked up.
   */
  lemma TrailingChunkWithoutCandidate(chunks: seq<Json>, chunk: Json)
    requires |chunks| > 0
    requires !chunk.JNull? && !Truthy(CandidateOf(chunk).value)
    ensures var with := MergeChunks(JArr(chunks + [chunk]));
            var without := MergeChunks(JArr(chunks));
            && (with.Normal? <==> without.Normal?)
            && (with.Normal? ==>
                  && with.value.summary == without.value.summary
                  && with.value.response == without.value.response.(chunkCount := |chunks| + 1))
  {
    StreamPartsSnoc(chunks, chunk);
    var all := chunks + [chunk];
    assert all[..|all| - 1] == chunks;
    assert LastOffered(all, FinishOf, JNull) == LastOffered(chunks, FinishOf, JNull);
    assert LastOffered(all, UsageFrom, JObj([])) == LastOffered(chunks, UsageFrom, JObj([]));
  }

  /** The last chunk's usage block wins when that chunk has a candidate. */
  lemma UsageCarriesForward(chunks: seq<Json>)
    requires |chunks| > 0
    requires UsageFrom(chunks[|chunks| - 1]).Some?
    requires MergeChunks(JArr(chunks)).Normal?
    ensures MergeChunks(JArr(chunks)).value.response.usageMetadata == UsageOf(chunks[|chunks| - 1]).value
  {
  }

  /** When no chunk offers a usage block the merged usage is the empty object. */
  lemma UsageDefaultsToEmpty(chunks: seq<Json>)
    requires |chunks| > 0
    requires forall j :: 0 <= j < |chunks| ==> UsageFrom(chunks[j]).None?
    requires MergeChunks(JArr(chunks)).Normal?
    ensures MergeChunks(JArr(chunks)).value.response.usageMetadata == JObj([])
  {
    LastOfferedNone(chunks, UsageFrom, JObj([]));
  }

  /** A chunk in the plain `{candidates: [{content: {parts: [part]}}]}` shape. */
  function PartChunk(part: Json): Json {
    JObj([("candidates", JArr([JObj([("content", JObj([("parts", JArr([part]))]))])]))])
  }

  lemma PartChunkParts(part: Json)
    ensures ChunkParts(PartChunk(part)) == Normal([part])
    ensures FinishOf(PartChunk(part)) == None && UsageFrom(PartChunk(part)) == None
  {
  }

  /** One `PartChunk` per part. */
  function PartChunks(parts: seq<Json>): (r: seq<Json>)
    ensures |r| == |parts|
    ensures forall i :: 0 <= i < |parts| ==> r[i] == PartChunk(parts[i])
  {
    seq(|parts|, i requires 0 <= i < |parts| => PartChunk(parts[i]))
  }

  lemma {:induction false} PartChunksStream(parts: seq<Json>)
    ensures StreamParts(PartChunks(parts)) == Normal(parts)
    decreases |parts|
  {
    if |parts| > 0 {
      var chunks := PartChunks(parts);
      assert chunks[1..] == PartChunks(parts[1..]);
      PartChunksStream(parts[1..]);
      PartChunkParts(parts[0]);
      assert [parts[0]] + parts[1..] == parts;
    }
  }

  /**
   Merging a stream that sends one part per chunk, with no finish reason or
   usage, regroups the parts: thoughts, then the text, then the calls.
   */
  lemma PartChunksMerge(parts: seq<Json>)
    requires |parts| > 0 && NoNullPart(parts)
    ensures MergeChunks(JArr(PartChunks(parts))) ==
              Normal(Merged(MergeSummary(CallsOf(parts), TextOf(parts)),
                            MergedResponse(ThoughtSegment(ThoughtsOf(parts)) + TextSegment(TextOf(parts)) + CallSegment(CallsOf(parts)),
                                           JNull, JObj([]), |parts|)))
  {
    var chunks := PartChunks(parts);
    PartChunksStream(parts);
    assert LastOffered(chunks, FinishOf, JNull) == JNull && LastOffered(chunks, UsageFrom, JObj([])) == JObj([]) by {
      forall j | 0 <= j < |chunks| ensures FinishOf(chunks[j]).None? && UsageFrom(chunks[j]).None? {
        PartChunkParts(parts[j]);
      }
      LastOfferedNone(chunks, FinishOf, JNull);
      LastOfferedNone(chunks, UsageFrom, JObj([]));
    }
    var r := MergeChunks(JArr(chunks));
    assert r.Normal? && r.value.Merged?;
    var m := r.value.response;
    assert m == MergedResponse(m.parts, m.finishReason, m.usageMetadata, m.chunkCount);
  }

  /** Parts with neither a thought flag nor a call contribute only text. */
  lemma {:induction false} PlainParts(parts: seq<Json>)
    requires forall i :: 0 <= i < |parts| ==> !Truthy(Member(parts[i], "thought")) && !Truthy(Member(parts[i], "functionCall"))
    ensures ThoughtsOf(parts) == [] && CallsOf(parts) == []
    decreases |parts|
  {
    if |parts| > 0 {
      PlainParts(parts[1..]);
      assert ThoughtPiece(parts[0]) == [] && CallPiece(parts[0]) == [];
      assert ThoughtsOf(parts) == [] + [];
      assert CallsOf(parts) == [] + [];
    }
  }

  /** Two parts with non-empty texts contribute their concatenation and nothing else. */
  lemma TwoTextParts(x: string, y: string)
    requires x != "" && y != ""
    ensures var parts := [JObj([("text", JStr(x))]), JObj([("text", JStr(y))])];
            TextOf(parts) == x + y && ThoughtsOf(parts) == [] && CallsOf(parts) == []
  {
    var b, c := JObj([("text", JStr(x))]), JObj([("text", JStr(y))]);
    var parts := [b, c];
    assert parts[1..] == [c] && parts[1..][1..] == [];
    assert TextOf([c]) == y + "";
    assert TextOf(parts) == x + y;
    PlainParts(parts);
  }

  /** A part in front of plain text parts adds only its own pieces. */
  lemma LeadingPart(first: Json, rest: seq<Json>)
    requires ThoughtsOf(rest) == [] && CallsOf(rest) == []
    ensures TextOf([first] + rest) == TextPiece(first) + TextOf(rest)
    ensures ThoughtsOf([first] + rest) == ThoughtPiece(first)
    ensures CallsOf([first] + rest) == CallPiece(first)
  {
    assert ([first] + rest)[1..] == rest;
    assert ThoughtPiece(first) + [] == ThoughtPiece(first);
    assert CallPiece(first) + [] == CallPiece(first);
  }

  /**
   Thought `a` followed by text `b` and `c` merges into the thought segment
   `a` followed by the text `abc`: the thought's text is also counted as
   text.
   */
  lemma ThoughtThenText()
    ensures var thought := JObj([("text", JStr("a")), ("thought", JBool(true))]);
            var parts := [thought, JObj([("text", JStr("b"))]), JObj([("text", JStr("c"))])];
            MergeChunks(JArr(PartChunks(parts))) ==
              Normal(Merged("Text Response", MergedResponse([thought, JObj([("text", JStr("abc"))])], JNull, JObj([]), 3)))
  {
    var thought := JObj([("text", JStr("a")), ("thought", JBool(true))]);
    var b, c := JObj([("text", JStr("b"))]), JObj([("text", JStr("c"))]);
    var parts := [thought, b, c];
    assert parts == [thought] + [b, c];
    TwoTextParts("b", "c");
    LeadingPart(thought, [b, c]);
    assert TextOf(parts) == "abc";
    assert ThoughtsOf(parts) == [Some(JStr("a"))];
    assert CallsOf(parts) == [];
    assert ThoughtSegment([Some(JStr("a"))]) == [thought] by {
      assert JoinValues([Some(JStr("a"))], "\n") == "a";
    }
    assert MergeSummary([], "abc") == "Text Response";
    assert [thought] + TextSegment("abc") + CallSegment([]) == [thought, JObj([("text", JStr("abc"))])];
    PartChunksMerge(parts);
  }

  /**
   A fragment that carries only `thought` and no `text` contributes an
   undefined thought, which the join renders as the empty string.
   */
  lemma BareThoughtFlagIsEmptyThought()
    ensures var parts := [JObj([("thought", JStr("a"))]), JObj([("text", JStr("b"))]), JObj([("text", JStr("c"))])];
            MergeChunks(JArr(PartChunks(parts))) ==
              Normal(Merged("Text Response", MergedResponse(
                [JObj([("text", JStr("")), ("thought", JBool(true))]), JObj([("text", JStr("bc"))])], JNull, JObj([]), 3)))
  {
    var a, b, c := JObj([("thought", JStr("a"))]), JObj([("text", JStr("b"))]), JObj([("text", JStr("c"))]);
    var parts := [a, b, c];
    assert parts == [a] + [b, c];
    TwoTextParts("b", "c");
    LeadingPart(a, [b, c]);
    assert TextOf(parts) == "bc";
    assert ThoughtsOf(parts) == [None];
    assert CallsOf(parts) == [];
    var empty := JObj([("text", JStr("")), ("thought", JBool(true))]);
    assert ThoughtSegment([None]) == [empty] by {
      assert JoinValues([None], "\n") == "";
    }
    assert MergeSummary([], "bc") == "Text Response";
    assert [empty] + TextSegment("bc") + CallSegment([]) == [empty, JObj([("text", JStr("bc"))])];
    PartChunksMerge(parts);
  }
}
