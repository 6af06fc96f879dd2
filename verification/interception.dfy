/**
 The patched `https.request` (hook.mjs): which calls are watched, what is
 captured from the request and response streams, and what is published.
 The wrapped request is always created and returned unchanged, and each
 chunk written to it is forwarded unchanged unless the capture throws
 first; the model states what the wrapper forwards, observes and publishes.

 The runtime services the wrapper calls but this model does not define
 (`JSON.parse`, UTF-8 decoding and encoding, `new URL`, `zlib.gunzip`,
 `zlib.brotliDecompress`) are fields of `Runtime`.
 */
module Interception {
  import opened Text
  import opened Js
  import opened Events
  import RequestClassifier
  import ResponseClassifier
  import opened Reassembly

  newtype byte = x: int | 0 <= x < 256

  datatype Runtime = Runtime(
    parse: string -> Option<Json>,            // JSON.parse; None is a SyntaxError
    decodeUtf8: seq<byte> -> string,          // buffer.toString('utf8')
    encodeUtf8: string -> seq<byte>,          // Buffer.from(string)
    pathname: string -> Option<string>,       // new URL(url).pathname; None when the constructor throws
    gunzip: seq<byte> -> Option<seq<byte>>,   // zlib.gunzip; None when the callback gets an error
    brotli: seq<byte> -> Option<seq<byte>>)   // zlib.brotliDecompress; likewise

  // ---------------------------------------------------------------------
  // Which calls are watched.
  // ---------------------------------------------------------------------

  /** The fields of the options object the wrapper reads; `""` stands for a missing or falsy field. */
  datatype RequestOptions = RequestOptions(protocol: string, hostname: string, host: string, path: string, httpMethod: string)

  /** `{}`. */
  const NoOptions := RequestOptions("", "", "", "", "")

  /** The arguments of `https.request`: a URL string and maybe options, or options alone (maybe missing). */
  datatype RequestArgs =
    | UrlAndOptions(url: string, options: Option<RequestOptions>)
    | OptionsOnly(options: Option<RequestOptions>)

  /** `args[1] || {}` or `args[0] || {}`. */
  function OptionsOf(args: RequestArgs): RequestOptions {
    if args.options.Some? then args.options.value else NoOptions
  }

  /** `a || b` on option fields. */
  function OrElse(a: string, b: string): string {
    if a != "" then a else b
  }

  /**
   The URL the wrapper records: the string argument as given, or
   `${protocol}//${host}${path}` rebuilt from the options with the defaults
   `https:`, `hostname || host || localhost` and `/`.
   */
  function RequestUrl(args: RequestArgs): string {
    match args
    case UrlAndOptions(url, _) => url
    case OptionsOnly(_) =>
      var o := OptionsOf(args);
      OrElse(o.protocol, "https:") + "//" + OrElse(o.hostname, OrElse(o.host, "localhost")) + OrElse(o.path, "/")
  }

  /**
   A URL rebuilt from options reads, from the left: the protocol (default
   `https:`), `//`, the host (`hostname`, else `host`, else `localhost`),
   and ends with the path (default `/`).
   */
  lemma RequestUrlParts(o: Option<RequestOptions>)
    ensures var opts := OptionsOf(OptionsOnly(o));
            var protocol := if opts.protocol != "" then opts.protocol else "https:";
            var host := if opts.hostname != "" then opts.hostname else if opts.host != "" then opts.host else "localhost";
            var path := if opts.path != "" then opts.path else "/";
            var url := RequestUrl(OptionsOnly(o));
            && |url| == |protocol| + 2 + |host| + |path|
            && url[..|protocol|] == protocol
            && url[|protocol|..|protocol| + 2] == "//"
            && url[|protocol| + 2..|protocol| + 2 + |host|] == host
            && url[|url| - |path|..] == path
  {
    var opts := OptionsOf(OptionsOnly(o));
    var protocol := if opts.protocol != "" then opts.protocol else "https:";
    var host := if opts.hostname != "" then opts.hostname else if opts.host != "" then opts.host else "localhost";
    var path := if opts.path != "" then opts.path else "/";
    assert RequestUrl(OptionsOnly(o)) == protocol + "//" + host + path;
    FourPieces(protocol, "//", host, path);
  }

  lemma FourPieces(a: string, b: string, c: string, d: string)
    ensures var s := a + b + c + d;
            && |s| == |a| + |b| + |c| + |d|
            && s[..|a|] == a && s[|a|..|a| + |b|] == b
            && s[|a| + |b|..|a| + |b| + |c|] == c && s[|s| - |d|..] == d
  {
    var s := a + b + c + d;
    assert s[..|a|] == a;
    assert s[|a|..|a| + |b|] == b;
    assert s[|a| + |b|..|a| + |b| + |c|] == c;
    assert s[|s| - |d|..] == d;
  }

  const WatchedDomain := "googleapis.com"

  /** Only calls whose URL mentions the Google API domain anywhere are intercepted. */
  predicate Intercepted(url: string) {
    Contains(url, WatchedDomain)
  }

  /** `(options.method || 'POST').toUpperCase()`, for ASCII method names. */
  function HttpMethod(args: RequestArgs): (m: string)
    ensures OptionsOf(args).httpMethod == "" ==> m == "POST"
    ensures |m| == |OrElse(OptionsOf(args).httpMethod, "POST")|
    ensures forall i :: 0 <= i < |m| ==> !('a' <= m[i] <= 'z')
  {
    AsciiUpper(OrElse(OptionsOf(args).httpMethod, "POST"))
  }

  /** A call with no options at all goes to `https://localhost/` and is left alone. */
  lemma NoOptionsNotIntercepted()
    ensures RequestUrl(OptionsOnly(None)) == "https://localhost/"
    ensures !Intercepted(RequestUrl(OptionsOnly(None)))
  {
    var url := "https://localhost/";
    var o := OptionsOf(OptionsOnly(None));
    assert o == NoOptions;
    assert OrElse(o.protocol, "https:") == "https:";
    assert OrElse(o.hostname, OrElse(o.host, "localhost")) == "localhost";
    assert OrElse(o.path, "/") == "/";
    assert "https:" + "//" + "localhost" + "/" == url;
    assert 'g' !in url;
    NotContainsWithoutFirstChar(url, WatchedDomain);
  }

  /** With a hostname on the Google API domain the call is watched, whatever the path. */
  lemma GoogleHostIntercepted(sub: string, o: RequestOptions)
    requires o.hostname == sub + WatchedDomain
    ensures Intercepted(RequestUrl(OptionsOnly(Some(o))))
  {
    var prefix := OrElse(o.protocol, "https:") + "//" + sub;
    var suffix := OrElse(o.path, "/");
    var url := RequestUrl(OptionsOnly(Some(o)));
    assert url == prefix + WatchedDomain + suffix;
    assert url[|prefix|..|prefix| + |WatchedDomain|] == WatchedDomain;
    ContainsAt(url, WatchedDomain, |prefix|);
  }

  /** `hostname` takes precedence over `host`. */
  lemma HostnameBeforeHost(o: RequestOptions)
    requires o.hostname != "" && o.protocol != "" && o.path != ""
    ensures RequestUrl(OptionsOnly(Some(o))) == o.protocol + "//" + o.hostname + o.path
  {
  }

  // ---------------------------------------------------------------------
  // Capturing the request body.
  // ---------------------------------------------------------------------

  /**
   The `chunk` argument of `req.write` / `req.end`. `Callback` is a function
   passed where a chunk is expected, as in Node's documented `req.end(callback)`.
   */
  datatype Chunk = NoChunk | Text(s: string) | Bytes(b: seq<byte>) | Callback

  /** `if (chunk)`: a buffer and a function are always truthy, a string when it is not empty. */
  predicate ChunkTruthy(c: Chunk) {
    match c
    case NoChunk => false
    case Text(s) => s != ""
    case Bytes(_) => true
    case Callback => true
  }

  /** A chunk that carries body bytes. */
  predicate IsData(c: Chunk) {
    ChunkTruthy(c) && !c.Callback?
  }

  /** `Buffer.isBuffer(chunk) ? chunk : Buffer.from(chunk)`; `Buffer.from` rejects a function with a TypeError. */
  function ChunkBytes(rt: Runtime, c: Chunk): (r: Completion<seq<byte>>)
    ensures r.Throw? <==> c.Callback?
  {
    match c
    case Bytes(b) => Normal(b)
    case Text(s) => Normal(rt.encodeUtf8(s))
    case NoChunk => Normal([])
    case Callback => Throw
  }

  /** The bytes of the data chunks, in call order. */
  function DataBytes(rt: Runtime, calls: seq<Chunk>): seq<seq<byte>>
    decreases |calls|
  {
    if |calls| == 0 then []
    else (if IsData(calls[0]) then [ChunkBytes(rt, calls[0]).value] else []) + DataBytes(rt, calls[1..])
  }

  lemma {:induction false} DataBytesAppend(rt: Runtime, a: seq<Chunk>, b: seq<Chunk>)
    ensures DataBytes(rt, a + b) == DataBytes(rt, a) + DataBytes(rt, b)
    decreases |a|
  {
    if |a| == 0 {
      assert a + b == b;
    } else {
      assert (a + b)[1..] == a[1..] + b;
      DataBytesAppend(rt, a[1..], b);
      var head := if IsData(a[0]) then [ChunkBytes(rt, a[0]).value] else [];
      assert head + (DataBytes(rt, a[1..]) + DataBytes(rt, b)) == (head + DataBytes(rt, a[1..])) + DataBytes(rt, b);
    }
  }

  /** The index of the first function chunk, or the number of calls when there is none. */
  function FirstCallback(calls: seq<Chunk>): (k: nat)
    ensures k <= |calls|
    ensures forall i :: 0 <= i < k ==> !calls[i].Callback?
    ensures k < |calls| ==> calls[k].Callback?
    decreases |calls|
  {
    if |calls| == 0 || calls[0].Callback? then 0 else 1 + FirstCallback(calls[1..])
  }

  /** The buffer, the chunks the original methods received, and whether a call threw. */
  datatype Capture = Capture(buffer: seq<seq<byte>>, forwarded: seq<Chunk>, threw: bool)

  /**
   One patched `write` or `end` call as written: a truthy chunk is pushed
   before the original method runs, so a function chunk throws out of the
   call and the original method never receives it.
   */
  function Record(rt: Runtime, buffer: seq<seq<byte>>, c: Chunk): Completion<seq<seq<byte>>> {
    if !ChunkTruthy(c) then Normal(buffer)
    else
      var bytes :- ChunkBytes(rt, c);
      Normal(buffer + [bytes])
  }

  /** A sequence of patched calls as written; the caller is taken to stop at the first call that throws. */
  function RecordAll(rt: Runtime, buffer: seq<seq<byte>>, calls: seq<Chunk>): Capture
    decreases |calls|
  {
    if |calls| == 0 then Capture(buffer, [], false)
    else
      match Record(rt, buffer, calls[0])
      case Throw => Capture(buffer, [], true)
      case Normal(next) =>
        var rest := RecordAll(rt, next, calls[1..]);
        Capture(rest.buffer, [calls[0]] + rest.forwarded, rest.threw)
  }

  /**
   Capture as written: every call before the first function chunk reaches
   the original method unchanged and its data is buffered in order; the
   function chunk throws, so neither it nor anything after it is forwarded.
   */
  lemma {:induction false} RecordAllSpec(rt: Runtime, buffer: seq<seq<byte>>, calls: seq<Chunk>)
    ensures var k := FirstCallback(calls);
            var c := RecordAll(rt, buffer, calls);
            && c.forwarded == calls[..k]
            && c.buffer == buffer + DataBytes(rt, calls[..k])
            && (c.threw <==> k < |calls|)
    decreases |calls|
  {
    var k := FirstCallback(calls);
    if |calls| == 0 || calls[0].Callback? {
      assert calls[..k] == [];
      assert buffer + [] == buffer;
    } else {
      var head := if IsData(calls[0]) then [ChunkBytes(rt, calls[0]).value] else [];
      var next := buffer + head;
      assert Record(rt, buffer, calls[0]) == Normal(next);
      RecordAllSpec(rt, next, calls[1..]);
      assert calls[..k] == [calls[0]] + calls[1..][..k - 1];
      assert calls[..k][1..] == calls[1..][..k - 1];
      assert DataBytes(rt, calls[..k]) == head + DataBytes(rt, calls[1..][..k - 1]);
      assert next + DataBytes(rt, calls[1..][..k - 1]) == buffer + (head + DataBytes(rt, calls[1..][..k - 1]));
    }
  }

  /**
   The patched call with the guard the callback form needs: a function
   chunk is not buffered, and every chunk reaches the original method.
   */
  function RecordAllGuarded(rt: Runtime, buffer: seq<seq<byte>>, calls: seq<Chunk>): Capture
    decreases |calls|
  {
    if |calls| == 0 then Capture(buffer, [], false)
    else
      var next := if IsData(calls[0]) then buffer + [ChunkBytes(rt, calls[0]).value] else buffer;
      var rest := RecordAllGuarded(rt, next, calls[1..]);
      Capture(rest.buffer, [calls[0]] + rest.forwarded, rest.threw)
  }

  /** Guarded capture is transparent and complete: nothing throws, every chunk is forwarded, all data is buffered. */
  lemma {:induction false} RecordAllGuardedSpec(rt: Runtime, buffer: seq<seq<byte>>, calls: seq<Chunk>)
    ensures RecordAllGuarded(rt, buffer, calls) == Capture(buffer + DataBytes(rt, calls), calls, false)
    decreases |calls|
  {
    if |calls| == 0 {
      assert buffer + [] == buffer;
    } else {
      var head := if IsData(calls[0]) then [ChunkBytes(rt, calls[0]).value] else [];
      assert buffer + head == if IsData(calls[0]) then buffer + [ChunkBytes(rt, calls[0]).value] else buffer;
      RecordAllGuardedSpec(rt, buffer + head, calls[1..]);
      assert [calls[0]] + calls[1..] == calls;
      assert (buffer + head) + DataBytes(rt, calls[1..]) == buffer + (head + DataBytes(rt, calls[1..]));
    }
  }

  /** `Buffer.concat(chunks)`. */
  function Concat(pieces: seq<seq<byte>>): (r: seq<byte>)
    decreases |pieces|
  {
    if |pieces| == 0 then [] else pieces[0] + Concat(pieces[1..])
  }

  // ---------------------------------------------------------------------
  // Publishing the request.
  // ---------------------------------------------------------------------

  /**
   `if (model && !json.model) json.model = model`. Objects gain the member;
   an array takes it as a property that serialisation does not show; on a
   string, number or boolean the assignment throws (module code is strict).
   */
  function InjectModel(json: Json, model: Json): (r: Completion<Json>)
    ensures !Truthy(Some(model)) || Truthy(Member(json, "model")) ==> r == Normal(json)
    ensures Truthy(Some(model)) && json.JObj? && !Truthy(Member(json, "model")) ==>
              r.Normal? && r.value.JObj? && Lookup(r.value.fields, "model") == Some(model)
              && forall k :: k != "model" ==> Lookup(r.value.fields, k) == Lookup(json.fields, k)
    ensures r.Throw? <==> Truthy(Some(model)) && !Truthy(Member(json, "model")) && !json.JObj? && !json.JArr?
  {
    if !Truthy(Some(model)) || Truthy(Member(json, "model")) then Normal(json)
    else
      match json
      case JObj(fields) => Normal(JObj(SetMember(fields, "model", model)))
      case JArr(_) => Normal(json)
      case _ => Throw
  }

  /** Injecting the same model twice is injecting it once. */
  lemma InjectModelIdempotent(json: Json, model: Json)
    requires InjectModel(json, model).Normal?
    ensures InjectModel(InjectModel(json, model).value, model) == InjectModel(json, model)
  {
  }

  /** What the wrapper publishes for one call, with its metadata. */
  datatype Event = Event(broadcast: Broadcast, url: string, httpMethod: string, statusCode: Option<int>)

  /**
   The patched `end`: when anything was captured, the body is decoded,
   parsed, classified against the URL's path and published with the model
   filled in. It is published exactly when none of those steps throws; an
   exception drops the event and nothing else: the original `end` still runs.
   */
  function RequestEvent(rt: Runtime, args: RequestArgs, buffer: seq<seq<byte>>): (r: Option<Event>)
    ensures r.Some? <==>
              && |buffer| > 0
              && rt.parse(rt.decodeUtf8(Concat(buffer))).Some?
              && rt.pathname(RequestUrl(args)).Some?
              && var json := rt.parse(rt.decodeUtf8(Concat(buffer))).value;
                 var cls := RequestClassifier.ClassifyRequest(rt.pathname(RequestUrl(args)).value, json);
                 cls.Normal? && InjectModel(json, cls.value.model).Normal?
    ensures r.Some? ==>
              && r.value.url == RequestUrl(args) && r.value.httpMethod == HttpMethod(args) && r.value.statusCode.None?
              && var json := rt.parse(rt.decodeUtf8(Concat(buffer))).value;
                 var cls := RequestClassifier.ClassifyRequest(rt.pathname(RequestUrl(args)).value, json);
                 && r.value.broadcast.kind == cls.value.kind && r.value.broadcast.summary == cls.value.summary
                 && r.value.broadcast.kind.IsRequestType()
                 && r.value.broadcast.data == InjectModel(json, cls.value.model).value
  {
    if |buffer| == 0 then None
    else
      var json := rt.parse(rt.decodeUtf8(Concat(buffer)));
      var path := rt.pathname(RequestUrl(args));
      if json.None? || path.None? then None
      else
        var cls := RequestClassifier.ClassifyRequest(path.value, json.value);
        if cls.Throw? then None
        else
          var data := InjectModel(json.value, cls.value.model);
          if data.Throw? then None
          else Some(Event(Broadcast(cls.value.kind, cls.value.summary, data.value), RequestUrl(args), HttpMethod(args), None))
  }

  /**
   A published request body that is an object always names its model
   when one was found: either the body already had a truthy `model`, or
   the classifier's model was filled in.
   */
  lemma PublishedRequestNamesModel(rt: Runtime, args: RequestArgs, buffer: seq<seq<byte>>)
    requires RequestEvent(rt, args, buffer).Some?
    ensures var e := RequestEvent(rt, args, buffer).value;
            var json := rt.parse(rt.decodeUtf8(Concat(buffer))).value;
            var model := RequestClassifier.ClassifyRequest(rt.pathname(RequestUrl(args)).value, json).value.model;
            json.JObj? && Truthy(Some(model)) ==>
              e.broadcast.data.JObj? && Truthy(Member(e.broadcast.data, "model"))
  {
  }

  /**
   A watched request whose body is the object `{"project": p}` is
   published as a usage check, with the body unchanged and the call's
   URL and method.
   */
  lemma UsageCheckPublished(rt: Runtime, args: RequestArgs, buffer: seq<seq<byte>>, pathname: string, project: string)
    requires |buffer| > 0 && project != ""
    requires rt.parse(rt.decodeUtf8(Concat(buffer))) == Some(JObj([("project", JStr(project))]))
    requires rt.pathname(RequestUrl(args)) == Some(pathname)
    requires !Contains(pathname, "/models") && !Contains(pathname, "/operations")
    ensures RequestEvent(rt, args, buffer) ==
              Some(Event(Broadcast(ModelUsageRequest, "Model Usage Check (" + project + ")", JObj([("project", JStr(project))])),
                         RequestUrl(args), HttpMethod(args), None))
  {
    RequestClassifier.BareProjectIsUsageCheck(pathname, project);
  }

  /** What a patched request did: the chunks its original methods received, whether a call threw, and the event. */
  datatype RequestOutcome = RequestOutcome(forwarded: seq<Chunk>, threw: bool, event: Option<Event>)

  /**
   A whole request as written, from the chunks of every `write` and of the
   final `end`, in call order. An unwatched call is not patched. On a
   watched one, the first function chunk throws out of its call, which
   forwards nothing more and publishes nothing; otherwise every chunk is
   forwarded and the event is what the data, concatenated, yields.
   */
  function InterceptRequestAsWritten(rt: Runtime, args: RequestArgs, calls: seq<Chunk>): (r: RequestOutcome)
    ensures !Intercepted(RequestUrl(args)) ==> r == RequestOutcome(calls, false, None)
    ensures Intercepted(RequestUrl(args)) ==>
              var k := FirstCallback(calls);
              && r.forwarded == calls[..k]
              && (r.threw <==> k < |calls|)
              && r.event == (if k < |calls| then None else RequestEvent(rt, args, DataBytes(rt, calls)))
  {
    if !Intercepted(RequestUrl(args)) then RequestOutcome(calls, false, None)
    else
      var c := RecordAll(rt, [], calls);
      RecordAllSpec(rt, [], calls);
      assert FirstCallback(calls) == |calls| ==> c.buffer == DataBytes(rt, calls) by {
        assert calls[..|calls|] == calls;
        assert [] + DataBytes(rt, calls) == DataBytes(rt, calls);
      }
      RequestOutcome(c.forwarded, c.threw, if c.threw then None else RequestEvent(rt, args, c.buffer))
  }

  /**
   The request with function chunks skipped by the capture: every chunk
   is forwarded, nothing throws, the event is what the data yields, and
   without a function chunk it agrees with the code as written.
   */
  function InterceptRequest(rt: Runtime, args: RequestArgs, calls: seq<Chunk>): (r: RequestOutcome)
    ensures r.forwarded == calls && !r.threw
    ensures !Intercepted(RequestUrl(args)) ==> r.event.None?
    ensures Intercepted(RequestUrl(args)) ==> r.event == RequestEvent(rt, args, DataBytes(rt, calls))
    ensures (forall i :: 0 <= i < |calls| ==> !IsData(calls[i])) ==> r.event.None?
    ensures FirstCallback(calls) == |calls| ==> r == InterceptRequestAsWritten(rt, args, calls)
  {
    if !Intercepted(RequestUrl(args)) then RequestOutcome(calls, false, None)
    else
      var c := RecordAllGuarded(rt, [], calls);
      RecordAllGuardedSpec(rt, [], calls);
      assert [] + DataBytes(rt, calls) == DataBytes(rt, calls);
      assert (forall i :: 0 <= i < |calls| ==> !IsData(calls[i])) ==> DataBytes(rt, calls) == [] by {
        if forall i :: 0 <= i < |calls| ==> !IsData(calls[i]) {
          NoDataChunks(rt, calls);
        }
      }
      assert FirstCallback(calls) == |calls| ==> calls[..|calls|] == calls;
      RequestOutcome(c.forwarded, c.threw, RequestEvent(rt, args, c.buffer))
  }

  lemma {:induction false} NoDataChunks(rt: Runtime, calls: seq<Chunk>)
    requires forall i :: 0 <= i < |calls| ==> !IsData(calls[i])
    ensures DataBytes(rt, calls) == []
    decreases |calls|
  {
    if |calls| > 0 {
      assert forall i :: 0 <= i < |calls[1..]| ==> calls[1..][i] == calls[i + 1];
      NoDataChunks(rt, calls[1..]);
    }
  }

  /**
   `req.end(callback)` on a watched call throws a TypeError out of `end`
   as written: the original `end` never runs and nothing is published.
   With function chunks skipped, the callback reaches the original `end`
   and the data written before it is published.
   */
  lemma EndWithCallbackThrows(rt: Runtime, args: RequestArgs, writes: seq<Chunk>)
    requires Intercepted(RequestUrl(args))
    requires forall i :: 0 <= i < |writes| ==> !writes[i].Callback?
    ensures InterceptRequestAsWritten(rt, args, writes + [Callback]) == RequestOutcome(writes, true, None)
    ensures InterceptRequest(rt, args, writes + [Callback]) ==
              RequestOutcome(writes + [Callback], false, RequestEvent(rt, args, DataBytes(rt, writes)))
  {
    var calls := writes + [Callback];
    var k := FirstCallback(calls);
    assert calls[|writes|].Callback?;
    assert forall i :: 0 <= i < |writes| ==> calls[i] == writes[i];
    assert k == |writes|;
    assert calls[..k] == writes;
    DataBytesAppend(rt, writes, [Callback]);
    assert DataBytes(rt, [Callback]) == [];
    assert DataBytes(rt, writes) + [] == DataBytes(rt, writes);
  }

  // ---------------------------------------------------------------------
  // Publishing the response.
  // ---------------------------------------------------------------------

  /** What happens at the response's `end`: an event or none, or an exception that escapes into the host process. */
  datatype Outcome = Published(event: Option<Event>) | Escaped

  /** `classifyResponse`, as the reassembly receives it. */
  function ResponseClassifierOf(rt: Runtime): Json -> Completion<Verdict> {
    j => ResponseClassifier.ClassifyResponse(rt.parse, j)
  }

  /** A broadcast with the call's `meta`: URL, method and status code. */
  function WithMeta(b: Option<Broadcast>, args: RequestArgs, statusCode: int): Option<Event> {
    if b.None? then None else Some(Event(b.value, RequestUrl(args), HttpMethod(args), Some(statusCode)))
  }

  /** `processJson(buffer)` on decoded bytes. */
  function ProcessBytes(rt: Runtime, bytes: seq<byte>): Completion<Option<Broadcast>> {
    ProcessJson(rt.parse, ResponseClassifierOf(rt), rt.decodeUtf8(bytes))
  }

  /** The bytes `processJson` receives: `gzip` and `br` bodies decompressed, any other encoding as is. */
  function Decoded(rt: Runtime, encoding: Option<string>, body: seq<byte>): Option<seq<byte>> {
    if encoding == Some("gzip") then rt.gunzip(body)
    else if encoding == Some("br") then rt.brotli(body)
    else Some(body)
  }

  /** The encodings whose `processJson` runs in a decompression callback. */
  predicate Compressed(encoding: Option<string>) {
    encoding == Some("gzip") || encoding == Some("br")
  }

  /**
   The response `end` handler as written: `gzip` and `br` bodies are
   decompressed and processed inside the decompression callback, which no
   `try` covers; any other encoding (none, `deflate`, ...) is processed as
   is inside the handler's `try`. Unwatched calls are not hooked at all.
   A watched call publishes what `processJson` yields for the decoded
   body, with the call's metadata; an exception in `processJson` escapes
   exactly on the compressed encodings.
   */
  function ResponseOutcomeAsWritten(rt: Runtime, args: RequestArgs, statusCode: int, encoding: Option<string>, data: seq<seq<byte>>): (r: Outcome)
    ensures !Intercepted(RequestUrl(args)) ==> r == Published(None)
    ensures Intercepted(RequestUrl(args)) && Decoded(rt, encoding, Concat(data)).None? ==> r == Published(None)
    ensures Intercepted(RequestUrl(args)) && Decoded(rt, encoding, Concat(data)).Some? ==>
              var processed := ProcessBytes(rt, Decoded(rt, encoding, Concat(data)).value);
              && (processed.Normal? ==> r == Published(WithMeta(processed.value, args, statusCode)))
              && (processed.Throw? ==> r == if Compressed(encoding) then Escaped else Published(None))
  {
    var body := Concat(data);
    if !Intercepted(RequestUrl(args)) then Published(None)
    else if encoding == Some("gzip") || encoding == Some("br") then
      var decoded := if encoding == Some("gzip") then rt.gunzip(body) else rt.brotli(body);
      if decoded.None? then Published(None)
      else
        var processed := ProcessBytes(rt, decoded.value);
        if processed.Throw? then Escaped else Published(WithMeta(processed.value, args, statusCode))
    else
      var processed := ProcessBytes(rt, body);
      Published(if processed.Throw? then None else WithMeta(processed.value, args, statusCode))
  }

  /**
   The handler with the decompression callbacks guarded as the plain path
   already is: an exception inside `processJson` drops the event, and in
   every other case the outcome is the one as written.
   */
  function ResponseOutcome(rt: Runtime, args: RequestArgs, statusCode: int, encoding: Option<string>, data: seq<seq<byte>>): (r: Outcome)
    ensures r.Published?
    ensures ResponseOutcomeAsWritten(rt, args, statusCode, encoding, data).Published? ==>
              r == ResponseOutcomeAsWritten(rt, args, statusCode, encoding, data)
    ensures ResponseOutcomeAsWritten(rt, args, statusCode, encoding, data).Escaped? ==> r == Published(None)
  {
    var body := Concat(data);
    if !Intercepted(RequestUrl(args)) then Published(None)
    else
      var decoded := Decoded(rt, encoding, body);
      if decoded.None? then Published(None)
      else
        var processed := ProcessBytes(rt, decoded.value);
        Published(if processed.Throw? then None else WithMeta(processed.value, args, statusCode))
  }

  /**
   A watched, uncompressed response whose body is one JSON document is
   published as that document, labelled by `classifyResponse`, with the
   call's URL, method and status.
   */
  lemma WholeDocumentPublished(rt: Runtime, args: RequestArgs, statusCode: int, encoding: Option<string>,
                               data: seq<seq<byte>>, json: Json)
    requires Intercepted(RequestUrl(args)) && !Compressed(encoding)
    requires rt.parse(rt.decodeUtf8(Concat(data))) == Some(json)
    requires ResponseClassifier.ClassifyResponse(rt.parse, json).Normal?
    ensures var v := ResponseClassifier.ClassifyResponse(rt.parse, json).value;
            ResponseOutcomeAsWritten(rt, args, statusCode, encoding, data) ==
              Published(Some(Event(Broadcast(v.kind, v.summary, json), RequestUrl(args), HttpMethod(args), Some(statusCode))))
  {
    SingleDocumentBypassesMerge(rt.parse, ResponseClassifierOf(rt), rt.decodeUtf8(Concat(data)), json);
  }

  /**
   A gzip-encoded body that decompresses to `null` throws inside the
   callback: every attempt of `processJson` reads a member of `null`, and
   the last one is not inside a `try`.
   */
  lemma NullGzipBodyEscapes(rt: Runtime, args: RequestArgs, statusCode: int, data: seq<seq<byte>>)
    requires Intercepted(RequestUrl(args))
    requires rt.gunzip(Concat(data)).Some?
    requires rt.decodeUtf8(rt.gunzip(Concat(data)).value) == "null"
    requires rt.parse("null") == Some(JNull)
    requires rt.parse("[null]") == Some(JArr([JNull]))
    ensures ResponseOutcomeAsWritten(rt, args, statusCode, Some("gzip"), data) == Escaped
    ensures ResponseOutcome(rt, args, statusCode, Some("gzip"), data) == Published(None)
  {
    assert ResponseClassifierOf(rt)(JNull).Throw?;
    NullBodyThrows(rt.parse, ResponseClassifierOf(rt));
  }

  /** The same body sent uncompressed is absorbed by the handler's `try`. */
  lemma NullPlainBodyDropped(rt: Runtime, args: RequestArgs, statusCode: int, data: seq<seq<byte>>)
    requires Intercepted(RequestUrl(args))
    requires rt.decodeUtf8(Concat(data)) == "null"
    requires rt.parse("null") == Some(JNull)
    requires rt.parse("[null]") == Some(JArr([JNull]))
    ensures ResponseOutcomeAsWritten(rt, args, statusCode, None, data) == Published(None)
  {
    assert ResponseClassifierOf(rt)(JNull).Throw?;
    NullBodyThrows(rt.parse, ResponseClassifierOf(rt));
  }

  /** A compressed body that fails to decompress publishes nothing. */
  lemma CorruptBodyDropped(rt: Runtime, args: RequestArgs, statusCode: int, encoding: Option<string>, data: seq<seq<byte>>)
    requires || (encoding == Some("gzip") && rt.gunzip(Concat(data)).None?)
             || (encoding == Some("br") && rt.brotli(Concat(data)).None?)
    ensures ResponseOutcomeAsWritten(rt, args, statusCode, encoding, data) == Published(None)
    ensures ResponseOutcome(rt, args, statusCode, encoding, data) == Published(None)
  {
  }

  /** A published response event carries the call's URL, method and status, and a response type or the raw-text type. */
  lemma ResponseEventMeta(rt: Runtime, args: RequestArgs, statusCode: int, encoding: Option<string>, data: seq<seq<byte>>)
    requires ResponseOutcome(rt, args, statusCode, encoding, data).event.Some?
    ensures var e := ResponseOutcome(rt, args, statusCode, encoding, data).event.value;
            && e.url == RequestUrl(args) && e.httpMethod == HttpMethod(args) && e.statusCode == Some(statusCode)
            && (e.broadcast.kind.IsResponseType() || e.broadcast.kind == RawTextResponse)
  {
    var decoded := Decoded(rt, encoding, Concat(data));
    var processed := ProcessBytes(rt, decoded.value);
    var b := processed.value.value;
    var classify := ResponseClassifierOf(rt);
    assert classify(b.data) == Normal(Verdict(b.kind, b.summary)) || b.kind == RawTextResponse;
  }

  // ---------------------------------------------------------------------
  // The response stream.
  // ---------------------------------------------------------------------

  /** What the response object emits, as far as the wrapper tells events apart. */
  datatype Signal = Data(chunk: seq<byte>) | End | OtherSignal

  /** The `data` chunks among `signals`, in order. */
  function DataChunks(signals: seq<Signal>): seq<seq<byte>>
    decreases |signals|
  {
    if |signals| == 0 then []
    else
      var last := signals[|signals| - 1];
      DataChunks(signals[..|signals| - 1]) + (if last.Data? then [last.chunk] else [])
  }

  lemma {:induction false} DataChunksCons(x: Signal, signals: seq<Signal>)
    ensures DataChunks([x] + signals) == (if x.Data? then [x.chunk] else []) + DataChunks(signals)
    decreases |signals|
  {
    var head := if x.Data? then [x.chunk] else [];
    if |signals| == 0 {
      assert ([x] + signals)[..0] == [];
      assert [] + head == head + [];
    } else {
      var init := signals[..|signals| - 1];
      var last := signals[|signals| - 1];
      assert ([x] + signals)[..|[x] + signals| - 1] == [x] + init;
      DataChunksCons(x, init);
      var tail := if last.Data? then [last.chunk] else [];
      assert (head + DataChunks(init)) + tail == head + (DataChunks(init) + tail);
    }
  }

  /**
   The patched `res.emit` over a run of signals, with the chunks collected
   so far: `data` chunks are collected, every `end` runs `handle` on
   everything collected up to it, and every signal is passed on to the
   original `emit`.
   */
  function WatchSignals(handle: seq<seq<byte>> -> Outcome, collected: seq<seq<byte>>, signals: seq<Signal>)
    : (seq<Signal>, seq<Option<Outcome>>)
    decreases |signals|
  {
    if |signals| == 0 then ([], [])
    else
      var s := signals[0];
      var now := collected + (if s.Data? then [s.chunk] else []);
      var rest := WatchSignals(handle, now, signals[1..]);
      ([s] + rest.0, [if s.End? then Some(handle(now)) else None] + rest.1)
  }

  /** Each `end` in `signals` reports `handle` of the chunks collected before it, and nothing else reports. */
  ghost predicate Reports(handle: seq<seq<byte>> -> Outcome, collected: seq<seq<byte>>, signals: seq<Signal>,
                          outcomes: seq<Option<Outcome>>) {
    && |outcomes| == |signals|
    && forall i :: 0 <= i < |signals| ==>
         outcomes[i] == if signals[i].End? then Some(handle(collected + DataChunks(signals[..i]))) else None
  }

  lemma ReportsCons(handle: seq<seq<byte>> -> Outcome, collected: seq<seq<byte>>, signals: seq<Signal>,
                    rest: seq<Option<Outcome>>)
    requires |signals| > 0
    requires Reports(handle, collected + (if signals[0].Data? then [signals[0].chunk] else []), signals[1..], rest)
    ensures var now := collected + (if signals[0].Data? then [signals[0].chunk] else []);
            Reports(handle, collected, signals, [if signals[0].End? then Some(handle(now)) else None] + rest)
  {
    var s := signals[0];
    var head := if s.Data? then [s.chunk] else [];
    var now := collected + head;
    var outcomes := [if s.End? then Some(handle(now)) else None] + rest;
    forall i | 0 <= i < |signals|
      ensures outcomes[i] == if signals[i].End? then Some(handle(collected + DataChunks(signals[..i]))) else None
    {
      if i == 0 {
        assert signals[..0] == [];
        assert collected + [] == collected;
      } else {
        assert signals[..i] == [s] + signals[1..][..i - 1];
        DataChunksCons(s, signals[1..][..i - 1]);
        assert now + DataChunks(signals[1..][..i - 1]) == collected + DataChunks(signals[..i]);
        assert outcomes[i] == rest[i - 1];
        assert signals[i] == signals[1..][i - 1];
      }
    }
  }

  /**
   Watching is transparent, and each `end` sees exactly the `data` chunks
   emitted before it (after those collected already), in order.
   */
  lemma {:induction false} WatchSignalsSpec(handle: seq<seq<byte>> -> Outcome, collected: seq<seq<byte>>, signals: seq<Signal>)
    ensures var r := WatchSignals(handle, collected, signals);
            r.0 == signals && Reports(handle, collected, signals, r.1)
    decreases |signals|
  {
    if |signals| > 0 {
      var s := signals[0];
      var now := collected + (if s.Data? then [s.chunk] else []);
      var rest := WatchSignals(handle, now, signals[1..]);
      WatchSignalsSpec(handle, now, signals[1..]);
      ReportsCons(handle, collected, signals, rest.1);
      assert WatchSignals(handle, collected, signals) ==
               ([s] + rest.0, [if s.End? then Some(handle(now)) else None] + rest.1);
      assert [s] + signals[1..] == signals;
    }
  }

  /** A watched response: the handler as written runs at every `end`. */
  function WatchResponse(rt: Runtime, args: RequestArgs, statusCode: int, encoding: Option<string>, signals: seq<Signal>)
    : (seq<Signal>, seq<Option<Outcome>>)
  {
    WatchSignals(data => ResponseOutcomeAsWritten(rt, args, statusCode, encoding, data), [], signals)
  }

  /**
   Every signal reaches the original `emit` unchanged, and the `end` at
   index `i` publishes what the `data` chunks before it yield.
   */
  lemma WatchResponseSpec(rt: Runtime, args: RequestArgs, statusCode: int, encoding: Option<string>, signals: seq<Signal>)
    ensures var r := WatchResponse(rt, args, statusCode, encoding, signals);
            && r.0 == signals
            && |r.1| == |signals|
            && (forall i :: 0 <= i < |signals| && signals[i].End? ==>
                  r.1[i] == Some(ResponseOutcomeAsWritten(rt, args, statusCode, encoding, DataChunks(signals[..i]))))
            && (forall i :: 0 <= i < |signals| && !signals[i].End? ==> r.1[i].None?)
  {
    var handle := data => ResponseOutcomeAsWritten(rt, args, statusCode, encoding, data);
    WatchSignalsSpec(handle, [], signals);
    forall i | 0 <= i < |signals| ensures [] + DataChunks(signals[..i]) == DataChunks(signals[..i]) {}
  }
}
