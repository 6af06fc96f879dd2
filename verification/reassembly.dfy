/**
 `processJson` (hook.mjs): turns a decoded response body into at most one
 published event by trying, in order, (1) the body as one JSON document,
 (2) the body as concatenated objects repaired into an array, (3) the body
 as newline-delimited (SSE or NDJSON) lines, and finally (4) the body as
 raw text when it is short. `JSON.parse` is a parameter: `None` stands for
 the `SyntaxError` it throws. So is `classifyResponse`, which the
 interception layer supplies.
 */
module Reassembly {
  import opened Text
  import opened Js
  import opened Events
  import StreamMerge

  /** What `broadcast(type, summary, data, meta)` is called with, less the call's metadata. */
  datatype Broadcast = Broadcast(kind: EventType, summary: string, data: Json)

  /** Bodies at least this long are dropped rather than published raw. */
  const RawTextLimit := 5000

  // ---------------------------------------------------------------------
  // Repairing concatenated objects: `str.replace(/}\s*{/g, '},{')`.
  // ---------------------------------------------------------------------

  /**
   The index just past the whitespace run that follows a `}` at index `i`,
   when that run is followed by `{` (the regular expression matches there).
   */
  predicate SeamAt(s: string, i: nat)
    requires i < |s|
  {
    s[i] == '}' && i + 1 + SpaceRun(s[i + 1..]) < |s| && s[i + 1 + SpaceRun(s[i + 1..])] == '{'
  }

  /**
   The global replacement, scanning left to right: a match consumes the
   `}`, the whitespace and the `{`, and scanning resumes after it.
   */
  function Repair(s: string): string
    decreases |s|
  {
    if |s| == 0 then ""
    else if SeamAt(s, 0) then "},{" + Repair(s[2 + SpaceRun(s[1..])..])
    else [s[0]] + Repair(s[1..])
  }

  /**
   The character at index `i` is not a `}` whose whitespace run ends, inside
   `s`, at `{` or at the end of `s`: no match starts there, whatever text
   is appended.
   */
  predicate ClosedAt(s: string, i: nat)
    requires i < |s|
  {
    s[i] == '}' ==> i + 1 + SpaceRun(s[i + 1..]) < |s| && s[i + 1 + SpaceRun(s[i + 1..])] != '{'
  }

  /** No `}` in `s` starts a match, and none could once more text is appended. */
  predicate NoSeam(s: string) {
    forall i :: 0 <= i < |s| ==> ClosedAt(s, i)
  }

  /** A whitespace run that stops inside `a` is unaffected by what follows `a`. */
  lemma {:induction false} SpaceRunAppend(a: string, b: string)
    requires SpaceRun(a) < |a|
    ensures SpaceRun(a + b) == SpaceRun(a)
    decreases |a|
  {
    if IsJsSpace(a[0]) {
      assert (a + b)[1..] == a[1..] + b;
      SpaceRunAppend(a[1..], b);
    }
  }

  /** A run of whitespace followed by `{` is measured exactly. */
  lemma {:induction false} SpaceRunOfGap(w: string, b: string)
    requires forall i :: 0 <= i < |w| ==> IsJsSpace(w[i])
    ensures SpaceRun(w + "{" + b) == |w|
    decreases |w|
  {
    if |w| > 0 {
      assert (w + "{" + b)[1..] == w[1..] + "{" + b;
      SpaceRunOfGap(w[1..], b);
    } else {
      assert (w + "{" + b)[0] == '{';
    }
  }

  lemma NoSeamTail(p: string)
    requires |p| > 0 && NoSeam(p)
    ensures NoSeam(p[1..])
  {
    forall i | 0 <= i < |p[1..]| ensures ClosedAt(p[1..], i) {
      assert ClosedAt(p, i + 1);
      assert p[1..][i + 1..] == p[i + 2..];
      assert p[1..][i] == p[i + 1];
    }
  }

  lemma NoSeamHead(p: string, x: string)
    requires |p| > 0 && NoSeam(p)
    ensures !SeamAt(p + x, 0)
  {
    var s := p + x;
    if p[0] == '}' {
      var n := SpaceRun(p[1..]);
      assert ClosedAt(p, 0);
      assert 1 + n < |p| && p[1 + n] != '{';
      assert s[1..] == p[1..] + x;
      SpaceRunAppend(p[1..], x);
      assert s[1 + n] == p[1 + n];
    }
  }

  /** A seam-free prefix passes through the repair unchanged. */
  lemma {:induction false} RepairAppend(p: string, x: string)
    requires NoSeam(p)
    ensures Repair(p + x) == p + Repair(x)
    decreases |p|
  {
    if |p| > 0 {
      var s := p + x;
      assert s[1..] == p[1..] + x;
      assert !SeamAt(s, 0) by {
        NoSeamHead(p, x);
      }
      assert Repair(p[1..] + x) == p[1..] + Repair(x) by {
        NoSeamTail(p);
        RepairAppend(p[1..], x);
      }
      assert Repair(s) == [p[0]] + Repair(p[1..] + x);
      assert [p[0]] + (p[1..] + Repair(x)) == p + Repair(x);
    } else {
      assert p + x == x;
    }
  }

  /** Text without a closing brace is never changed. */
  lemma NoBraceNoSeam(s: string)
    requires '}' !in s
    ensures NoSeam(s)
  {
    forall i | 0 <= i < |s| ensures ClosedAt(s, i) {
      assert s[i] in s;
    }
  }

  /**
   Two objects separated only by whitespace are joined by a comma; the
   whitespace is dropped. Applied once per seam this turns `{..}{..}{..}`
   into `{..},{..},{..}`.
   */
  lemma RepairSeam(a: string, w: string, b: string)
    requires NoSeam(a)
    requires forall i :: 0 <= i < |w| ==> IsJsSpace(w[i])
    ensures Repair(a + "}" + w + "{" + b) == a + "},{" + Repair(b)
  {
    var rest := "}" + w + "{" + b;
    assert a + "}" + w + "{" + b == a + rest;
    RepairAppend(a, rest);
    RepairGap(w, b);
    var tail := Repair(b);
    assert a + ("},{" + tail) == a + "},{" + tail;
  }

  /** The match itself: `}`, whitespace, `{` become `},{`. */
  lemma RepairGap(w: string, b: string)
    requires forall i :: 0 <= i < |w| ==> IsJsSpace(w[i])
    ensures Repair("}" + w + "{" + b) == "},{" + Repair(b)
  {
    var rest := "}" + w + "{" + b;
    assert rest[1..] == w + "{" + b;
    SpaceRunOfGap(w, b);
    assert rest[1 + |w|] == '{';
    assert SeamAt(rest, 0);
    assert rest[2 + |w|..] == b;
  }

  /** Text without a closing brace is left as it is. */
  lemma RepairNoBrace(s: string)
    requires '}' !in s
    ensures Repair(s) == s
  {
    NoBraceNoSeam(s);
    RepairAppend(s, "");
    assert s + "" == s;
  }

  /** Two brace-free object bodies on consecutive lines are joined by a comma. */
  lemma RepairTwoLines(first: string, second: string)
    requires '}' !in first && '}' !in second
    ensures Repair("{" + first + "}\n{" + second + "}") == "{" + first + "},{" + second + "}"
  {
    var head := "{" + first;
    var tail := second + "}";
    var input := head + "}" + "\n" + "{" + tail;
    assert Repair(input) == head + "},{" + Repair(tail) by {
      assert '}' !in head;
      NoBraceNoSeam(head);
      assert forall i :: 0 <= i < |"\n"| ==> IsJsSpace("\n"[i]);
      RepairSeam(head, "\n", tail);
    }
    assert Repair(tail) == tail by {
      RepairFinalBrace(second);
    }
    assert input == "{" + first + "}\n{" + second + "}";
    assert head + "},{" + tail == "{" + first + "},{" + second + "}";
  }

  /** Two one-member objects, one per line, become an array body. */
  lemma RepairTwoObjects()
    ensures Repair("{\"a\":1}\n{\"a\":2}") == "{\"a\":1},{\"a\":2}"
  {
    RepairTwoLines("\"a\":1", "\"a\":2");
    assert "{" + "\"a\":1" + "}\n{" + "\"a\":2" + "}" == "{\"a\":1}\n{\"a\":2}";
    assert "{" + "\"a\":1" + "},{" + "\"a\":2" + "}" == "{\"a\":1},{\"a\":2}";
  }

  /** A closing brace that ends the text starts no match. */
  lemma RepairFinalBrace(s: string)
    requires '}' !in s
    ensures Repair(s + "}") == s + "}"
  {
    NoBraceNoSeam(s);
    RepairAppend(s, "}");
    assert !SeamAt("}", 0);
    assert Repair("}") == "}" + Repair("");
  }

  /**
   The repair does not know about string literals: a `}{` inside a string
   value is rewritten too.
   */
  lemma RepairRewritesInsideStrings()
    ensures Repair("\"}{\"") == "\"},{\""
  {
    var s := "\"}{\"";
    assert s[1..] == "}{\"";
    assert SeamAt(s[1..], 0);
    assert s[1..][2..] == "\"";
    assert Repair("\"") == "\"" + Repair("");
  }

  // ---------------------------------------------------------------------
  // Splitting into lines: `str.split(/\r?\n/)`.
  // ---------------------------------------------------------------------

  /** `s.split(c)` for a one-character separator. */
  function SplitOn(s: string, c: char): (r: seq<string>)
    ensures |r| > 0
    ensures forall k :: 0 <= k < |r| ==> c !in r[k]
    decreases |s|
  {
    if |s| == 0 then [""]
    else
      var rest := SplitOn(s[1..], c);
      if s[0] == c then [""] + rest else [[s[0]] + rest[0]] + rest[1..]
  }

  /** Joining the pieces with the separator gives the text back. */
  lemma {:induction false} SplitOnJoin(s: string, c: char)
    ensures Join(SplitOn(s, c), [c]) == s
    decreases |s|
  {
    if |s| > 0 {
      var rest := SplitOn(s[1..], c);
      SplitOnJoin(s[1..], c);
      if s[0] == c {
        assert ([""] + rest)[1..] == rest;
      } else {
        var r := [[s[0]] + rest[0]] + rest[1..];
        assert r[1..] == rest[1..];
        if |rest| > 1 {
          assert Join(rest, [c]) == rest[0] + [c] + Join(rest[1..], [c]);
        }
      }
    }
  }

  /** Text without the separator is one piece. */
  lemma {:induction false} SplitOnWithoutSeparator(s: string, c: char)
    requires c !in s
    ensures SplitOn(s, c) == [s]
    decreases |s|
  {
    if |s| > 0 {
      assert c !in s[1..];
      SplitOnWithoutSeparator(s[1..], c);
      assert [s[0]] + s[1..] == s;
    }
  }

  /** A piece that ended at a `\n` loses the `\r` the expression consumed with it. */
  function DropCarriageReturn(line: string): string {
    if |line| > 0 && line[|line| - 1] == '\r' then line[..|line| - 1] else line
  }

  /** The lines of `str.split(/\r?\n/)`: every piece but the last ended at a separator. */
  function Lines(s: string): (r: seq<string>)
    ensures |r| == |SplitOn(s, '\n')|
    ensures r[|r| - 1] == SplitOn(s, '\n')[|r| - 1]
    ensures forall k :: 0 <= k < |r| - 1 ==> r[k] == DropCarriageReturn(SplitOn(s, '\n')[k])
  {
    var pieces := SplitOn(s, '\n');
    seq(|pieces|, k requires 0 <= k < |pieces| => if k < |pieces| - 1 then DropCarriageReturn(pieces[k]) else pieces[k])
  }

  /** `line.replace(/^data: /, '')`: the SSE marker is removed once, and only at the start. */
  function StripDataPrefix(line: string): (r: string)
    ensures IsPrefix("data: ", line) ==> "data: " + r == line
    ensures !IsPrefix("data: ", line) ==> r == line
  {
    if IsPrefix("data: ", line) then line[6..] else line
  }

  /** The JSON value of one line, if it is not blank and parses. */
  function LineValue(parse: string -> Option<Json>, line: string): Option<Json> {
    if Trim(line) == "" then None else parse(Trim(StripDataPrefix(line)))
  }

  /** What one line contributes to `validChunks`: its value, if it has one. */
  function LineChunk(parse: string -> Option<Json>, line: string): seq<Json> {
    var v := LineValue(parse, line);
    if v.Some? then [v.value] else []
  }

  /** The pieces `each` gives the elements of `xs`, concatenated in order. */
  function Gather<T, U>(each: T -> seq<U>, xs: seq<T>): seq<U>
    decreases |xs|
  {
    if |xs| == 0 then [] else each(xs[0]) + Gather(each, xs[1..])
  }

  lemma {:induction false} GatherAppend<T, U>(each: T -> seq<U>, a: seq<T>, b: seq<T>)
    ensures Gather(each, a + b) == Gather(each, a) + Gather(each, b)
    decreases |a|
  {
    if |a| == 0 {
      assert a + b == b;
    } else {
      assert (a + b)[0] == a[0] && (a + b)[1..] == a[1..] + b;
      GatherAppend(each, a[1..], b);
      assert each(a[0]) + (Gather(each, a[1..]) + Gather(each, b)) == (each(a[0]) + Gather(each, a[1..])) + Gather(each, b);
    }
  }

  /** `validChunks`: the lines that parse, in order. */
  function ValidChunks(parse: string -> Option<Json>, lines: seq<string>): (r: seq<Json>)
    ensures |r| <= |lines|
    decreases |lines|
  {
    if |lines| == 0 then []
    else LineChunk(parse, lines[0]) + ValidChunks(parse, lines[1..])
  }

  /** `ValidChunks` gathers each line's chunk. */
  lemma {:induction false} ValidChunksGather(parse: string -> Option<Json>, lines: seq<string>)
    ensures ValidChunks(parse, lines) == Gather(line => LineChunk(parse, line), lines)
    decreases |lines|
  {
    if |lines| > 0 {
      ValidChunksGather(parse, lines[1..]);
    }
  }

  /** Every valid chunk is the parse of some line, and every parsing line yields one. */
  lemma {:induction false} ValidChunksSpec(parse: string -> Option<Json>, lines: seq<string>)
    ensures forall j :: j in ValidChunks(parse, lines) <==>
              exists k :: 0 <= k < |lines| && LineValue(parse, lines[k]) == Some(j)
    decreases |lines|
  {
    if |lines| > 0 {
      var v := LineValue(parse, lines[0]);
      var head := LineChunk(parse, lines[0]);
      var rest := ValidChunks(parse, lines[1..]);
      assert ValidChunks(parse, lines) == head + rest;
      ValidChunksSpec(parse, lines[1..]);
      forall j | j in head + rest ensures exists k :: 0 <= k < |lines| && LineValue(parse, lines[k]) == Some(j) {
        if j in head {
          assert LineValue(parse, lines[0]) == Some(j);
        } else {
          assert j in rest;
          var k :| 0 <= k < |lines[1..]| && LineValue(parse, lines[1..][k]) == Some(j);
          assert lines[k + 1] == lines[1..][k];
        }
      }
      forall j, k | 0 <= k < |lines| && LineValue(parse, lines[k]) == Some(j) ensures j in head + rest {
        if k == 0 {
          assert j in head;
        } else {
          assert lines[1..][k - 1] == lines[k];
          assert j in rest;
        }
      }
    }
  }

  /**
   Lines are read one at a time and in order: the chunks of two runs of
   lines are the chunks of the first run followed by those of the second.
   */
  lemma ValidChunksAppend(parse: string -> Option<Json>, a: seq<string>, b: seq<string>)
    ensures ValidChunks(parse, a + b) == ValidChunks(parse, a) + ValidChunks(parse, b)
  {
    ValidChunksGather(parse, a + b);
    ValidChunksGather(parse, a);
    ValidChunksGather(parse, b);
    GatherAppend(line => LineChunk(parse, line), a, b);
  }

  /** A single line yields its value when it has one, and nothing otherwise. */
  lemma ValidChunksLine(parse: string -> Option<Json>, line: string)
    ensures ValidChunks(parse, [line]) == if LineValue(parse, line).Some? then [LineValue(parse, line).value] else []
  {
    assert [line][1..] == [];
  }

  /** A blank line never yields a chunk, whatever the parser would make of it. */
  lemma BlankLineSkipped(parse: string -> Option<Json>, line: string)
    requires forall i :: 0 <= i < |line| ==> IsJsSpace(line[i])
    ensures LineValue(parse, line) == None
  {
    TrimEmptyIffBlank(line);
  }

  // ---------------------------------------------------------------------
  // The fallback chain.
  // ---------------------------------------------------------------------

  /** Publishing a payload under the verdict of `classifyResponse`, passed in as `classify`. */
  function Classified(classify: Json -> Completion<Verdict>, data: Json): Completion<Broadcast> {
    var verdict :- classify(data);
    Normal(Broadcast(verdict.kind, verdict.summary, data))
  }

  /** Attempt 1: the body is one JSON document. Any exception falls through. */
  function AsDocument(parse: string -> Option<Json>, classify: Json -> Completion<Verdict>, str: string): Option<Broadcast> {
    var json := parse(str);
    if json.None? then None
    else
      var published := Classified(classify, json.value);
      if published.Normal? then Some(published.value) else None
  }

  /** Attempt 2: the body is concatenated objects. Any exception falls through. */
  function AsConcatenated(parse: string -> Option<Json>, classify: Json -> Completion<Verdict>, str: string): Option<Broadcast> {
    var json := parse("[" + Repair(str) + "]");
    if json.None? then None
    else
      var merged := StreamMerge.MergeChunks(json.value);
      if merged.Throw? then None
      else
        var published := Classified(classify, merged.value.Data());
        if published.Normal? then Some(published.value) else None
  }

  /** Attempt 3: the body is lines. Exceptions here are not caught by `processJson`. */
  function AsLines(classify: Json -> Completion<Verdict>, chunks: seq<Json>): Completion<Broadcast>
    requires |chunks| > 0
  {
    var merged :- StreamMerge.MergeChunks(JArr(chunks));
    Classified(classify, merged.Data())
  }

  /** Attempt 4: the raw text, published only when short. */
  function AsRawText(str: string): Option<Broadcast> {
    if |str| < RawTextLimit then Some(Broadcast(RawTextResponse, "Raw Text Response", JObj([("raw", JStr(str))]))) else None
  }

  /**
   `processJson(buffer)` on the decoded text. The first attempt that
   succeeds is published; the line attempt, once it has a valid line, is
   final and may throw out of `processJson`.
   */
  function ProcessJson(parse: string -> Option<Json>, classify: Json -> Completion<Verdict>, str: string): (r: Completion<Option<Broadcast>>)
    ensures r.Throw? ==> |ValidChunks(parse, Lines(str))| > 0
    ensures r.Normal? && r.value.Some? ==>
              var b := r.value.value;
              || classify(b.data) == Normal(Verdict(b.kind, b.summary))
              || (b == Broadcast(RawTextResponse, "Raw Text Response", JObj([("raw", JStr(str))])) && |str| < RawTextLimit)
    ensures r == Normal(None) <==>
              AsDocument(parse, classify, str).None? && AsConcatenated(parse, classify, str).None?
              && |ValidChunks(parse, Lines(str))| == 0 && |str| >= RawTextLimit
  {
    var document := AsDocument(parse, classify, str);
    if document.Some? then Normal(document)
    else
      var concatenated := AsConcatenated(parse, classify, str);
      if concatenated.Some? then Normal(concatenated)
      else
        var chunks := ValidChunks(parse, Lines(str));
        if |chunks| > 0 then
          var published :- AsLines(classify, chunks);
          Normal(Some(published))
        else Normal(AsRawText(str))
  }

  /** A body that is a single classifiable JSON document is published as is, bypassing reassembly. */
  lemma SingleDocumentBypassesMerge(parse: string -> Option<Json>, classify: Json -> Completion<Verdict>, str: string, json: Json)
    requires parse(str) == Some(json)
    requires classify(json).Normal?
    ensures var verdict := classify(json).value;
            ProcessJson(parse, classify, str) == Normal(Some(Broadcast(verdict.kind, verdict.summary, json)))
  {
  }

  /**
   Whatever is published from a reassembled body carries the merged
   response, never one of the fragments; only the raw-text fallback
   carries the body itself.
   */
  lemma PublishedDataIsWhole(parse: string -> Option<Json>, classify: Json -> Completion<Verdict>, str: string)
    requires ProcessJson(parse, classify, str).Normal? && ProcessJson(parse, classify, str).value.Some?
    ensures var b := ProcessJson(parse, classify, str).value.value;
            || (parse(str).Some? && b.data == parse(str).value)
            || (parse("[" + Repair(str) + "]").Some?
                && StreamMerge.MergeChunks(parse("[" + Repair(str) + "]").value).Normal?
                && b.data == StreamMerge.MergeChunks(parse("[" + Repair(str) + "]").value).value.Data())
            || (|ValidChunks(parse, Lines(str))| > 0
                && StreamMerge.MergeChunks(JArr(ValidChunks(parse, Lines(str)))).Normal?
                && b.data == StreamMerge.MergeChunks(JArr(ValidChunks(parse, Lines(str)))).value.Data())
            || b == Broadcast(RawTextResponse, "Raw Text Response", JObj([("raw", JStr(str))]))
  {
    var r := ProcessJson(parse, classify, str);
    var b := r.value.value;
    var document := AsDocument(parse, classify, str);
    var concatenated := AsConcatenated(parse, classify, str);
    var chunks := ValidChunks(parse, Lines(str));
    if document.Some? {
      assert r == Normal(document);
      assert parse(str).Some? && b.data == parse(str).value;
    } else if concatenated.Some? {
      assert r == Normal(concatenated);
      var json := parse("[" + Repair(str) + "]");
      var merged := StreamMerge.MergeChunks(json.value);
      assert json.Some? && merged.Normal? && b.data == merged.value.Data();
    } else if |chunks| > 0 {
      var merged := StreamMerge.MergeChunks(JArr(chunks));
      assert r.Normal? ==> AsLines(classify, chunks).Normal? && r == Normal(Some(AsLines(classify, chunks).value));
      assert merged.Normal? && b.data == merged.value.Data();
    } else {
      assert r == Normal(AsRawText(str));
    }
  }

  /**
   The body `null`: attempt 1 reads a member of null, attempt 2 merges
   `[null]` and reads a member of null, and the line attempt does the same
   but outside any `try`.
   */
  lemma NullBodyThrows(parse: string -> Option<Json>, classify: Json -> Completion<Verdict>)
    requires classify(JNull).Throw?
    requires parse("null") == Some(JNull)
    requires parse("[null]") == Some(JArr([JNull]))
    ensures ProcessJson(parse, classify, "null") == Throw
  {
    var str := "null";
    assert AsDocument(parse, classify, str).None?;
    assert AsConcatenated(parse, classify, str).None? by {
      RepairNoBrace(str);
      assert "[" + str + "]" == "[null]";
      assert StreamMerge.StreamParts([JNull]).Throw?;
      assert StreamMerge.MergeChunks(JArr([JNull])).Throw?;
    }
    NullLine(parse);
    assert StreamMerge.MergeChunks(JArr([JNull])).Throw? by {
      assert StreamMerge.StreamParts([JNull]).Throw?;
    }
  }

  lemma NullLine(parse: string -> Option<Json>)
    requires parse("null") == Some(JNull)
    ensures ValidChunks(parse, Lines("null")) == [JNull]
  {
    var str := "null";
    NullSplit();
    NullTrim();
    assert StripDataPrefix(str) == str;
    assert LineValue(parse, str) == Some(JNull);
    assert ValidChunks(parse, [str]) == [JNull] + ValidChunks(parse, []);
  }

  lemma NullSplit()
    ensures Lines("null") == ["null"]
  {
    SplitOnWithoutSeparator("null", '\n');
  }

  lemma NullTrim()
    ensures Trim("null") == "null"
  {
    var str := "null";
    assert !IsJsSpace('n') && !IsJsSpace('l');
    assert SpaceRun(str) == 0;
    assert TrimStart(str) == str;
    assert TrimEnd(str) == str;
  }
}
