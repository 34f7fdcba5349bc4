/**
 * `OllamaClient`: the four calls to the inference server and the rules that
 * turn each HTTP outcome into a result. Every call is synchronous here (the
 * source wraps each in `CompletableFuture.supplyAsync`), every exception is
 * absorbed into a fixed result, and the transport is a parameter.
 */
module Client {
  import opened Options
  import opened Numbers
  import opened Json
  import opened Http
  import opened Responses
  import opened Models
  import Metrics

  const TAGS_PATH := "/api/tags"
  const GENERATE_PATH := "/api/generate"
  const PS_PATH := "/api/ps"
  const JSON_MEDIA_TYPE := "application/json"
  const GENERATION_FAILED := "Failed to get response from Ollama"

  function TagsRequest(baseUrl: string): Request {
    Request(GET, baseUrl + TAGS_PATH, None)
  }

  function PsRequest(baseUrl: string): Request {
    Request(GET, baseUrl + PS_PATH, None)
  }

  // ---------------------------------------------------------------------
  // isConnected
  // ---------------------------------------------------------------------

  /**
   * `isConnected`: true exactly when the listing call completes with a 2xx
   * status; a thrown exception (refused, timed out, bad URL) is false.
   */
  function IsConnected(baseUrl: string, send: Transport): (connected: bool)
    ensures connected <==> send(TagsRequest(baseUrl)).Answered? && 200 <= send(TagsRequest(baseUrl)).code <= 299
    ensures send(TagsRequest(baseUrl)).Thrown? ==> !connected
  {
    IsSuccessful(send(TagsRequest(baseUrl)))
  }

  // ---------------------------------------------------------------------
  // fetchModels
  // ---------------------------------------------------------------------

  /**
   * One element of the `models` array: `getAsJsonObject()`, then
   * `get("name").getAsString()`, then `get("size").getAsLong()`.
   */
  function ParseModel(entry: Json): (r: Result<Model>)
    ensures r.Ok? <==> entry.JObj? && MemberAsString(entry.members, "name").Ok?
                       && MemberAsLong(entry.members, "size").Ok?
    ensures r.Ok? ==> r.value == Model(MemberAsString(entry.members, "name").value,
                                       MemberAsLong(entry.members, "size").value)
  {
    match AsObject(entry)
    case Err(f) => Err(f)
    case Ok(members) =>
      match MemberAsString(members, "name")
      case Err(f) => Err(f)
      case Ok(name) =>
        match MemberAsLong(members, "size")
        case Err(f) => Err(f)
        case Ok(size) => Ok(Model(name, size))
  }

  /**
   * The models built from the entries before the first entry that throws:
   * every one of them parsed, in order, and the entry after them (if any)
   * is the one that failed.
   */
  function ParsedPrefix(entries: seq<Json>): (ms: seq<Model>)
    ensures |ms| <= |entries|
    ensures forall i :: 0 <= i < |ms| ==> ParseModel(entries[i]) == Ok(ms[i])
    ensures |ms| < |entries| ==> ParseModel(entries[|ms|]).Err?
    decreases |entries|
  {
    if |entries| == 0 then []
    else
      match ParseModel(entries[0])
      case Err(_) => []
      case Ok(m) =>
        var rest := ParsedPrefix(entries[1..]);
        PrefixStep(entries, m, rest);
        [m] + rest
  }

  /** One parsed entry in front of the prefix of the remaining entries. */
  lemma PrefixStep(entries: seq<Json>, m: Model, rest: seq<Model>)
    requires |entries| > 0 && ParseModel(entries[0]) == Ok(m)
    requires |rest| <= |entries| - 1
    requires forall i :: 0 <= i < |rest| ==> ParseModel(entries[1..][i]) == Ok(rest[i])
    requires |rest| < |entries| - 1 ==> ParseModel(entries[1..][|rest|]).Err?
    ensures forall i :: 0 <= i < |rest| + 1 ==> ParseModel(entries[i]) == Ok(([m] + rest)[i])
    ensures |rest| + 1 < |entries| ==> ParseModel(entries[|rest| + 1]).Err?
  {
    forall i | 0 <= i < |rest| + 1
      ensures ParseModel(entries[i]) == Ok(([m] + rest)[i])
    {
      if i > 0 {
        assert entries[i] == entries[1..][i - 1];
        assert ([m] + rest)[i] == rest[i - 1];
      }
    }
    if |rest| + 1 < |entries| {
      assert entries[|rest| + 1] == entries[1..][|rest|];
    }
  }

  /** The three properties above determine the prefix uniquely. */
  lemma {:induction false} PrefixUnique(entries: seq<Json>, ms: seq<Model>)
    requires |ms| <= |entries|
    requires forall i :: 0 <= i < |ms| ==> ParseModel(entries[i]) == Ok(ms[i])
    requires |ms| < |entries| ==> ParseModel(entries[|ms|]).Err?
    ensures ParsedPrefix(entries) == ms
    decreases |entries|
  {
    if |entries| > 0 && |ms| > 0 {
      var tail, rest := entries[1..], ms[1..];
      assert ParseModel(entries[0]) == Ok(ms[0]);
      forall i | 0 <= i < |rest| ensures ParseModel(tail[i]) == Ok(rest[i]) {
        assert tail[i] == entries[i + 1] && rest[i] == ms[i + 1];
      }
      if |rest| < |tail| {
        assert tail[|rest|] == entries[|ms|];
      }
      PrefixUnique(tail, rest);
      assert ParsedPrefix(entries) == [ms[0]] + ParsedPrefix(tail);
      assert ms == [ms[0]] + rest;
    }
  }

  /** What `fetchModels` returns for the outcome of its request. */
  function ModelList(o: Outcome): seq<Model> {
    if !IsSuccessful(o) || o.body.Absent? then []
    else
      match TopObject(o.body)
      case Err(_) => []
      case Ok(members) =>
        if !Has(members, "models") then []
        else
          match MemberAsArray(members, "models")
          case Err(_) => []
          case Ok(entries) => ParsedPrefix(entries)
  }

  /**
   * `fetchModels`: the list is created before the `try` and filled entry
   * by entry, so an entry that throws ends the loop and the models already
   * added are returned.
   */
  method FetchModels(baseUrl: string, send: Transport) returns (models: seq<Model>)
    ensures models == ModelList(send(TagsRequest(baseUrl)))
  {
    models := [];
    var response := send(TagsRequest(baseUrl));
    if IsSuccessful(response) && !response.body.Absent? {
      var top := TopObject(response.body);
      if top.Ok? && Has(top.value, "models") {
        var listed := MemberAsArray(top.value, "models");
        if listed.Ok? {
          var entries := listed.value;
          var i := 0;
          while i < |entries|
            invariant 0 <= i <= |entries| && |models| == i
            invariant forall j :: 0 <= j < i ==> ParseModel(entries[j]) == Ok(models[j])
          {
            var model := ParseModel(entries[i]);
            if model.Err? {
              break;
            }
            models := models + [model.value];
            i := i + 1;
          }
          PrefixUnique(entries, models);
        }
      }
    }
  }

  /** The JSON object the server sends for one model. */
  function Entry(m: Model): Json {
    JObj([("name", JStr(m.name)), ("size", JNum(m.size))])
  }

  lemma EntryParses(m: Model)
    ensures ParseModel(Entry(m)) == Ok(m)
  {
    var members := Entry(m).members;
    assert Get(members, "name") == Some(JStr(m.name));
    assert Get(members, "size") == Some(JNum(m.size));
  }

  /** A success body whose `models` array is the given entries. */
  predicate ListsEntries(o: Outcome, entries: seq<Json>) {
    IsSuccessful(o) && o.body.Parsed? && o.body.tree.JObj?
    && Get(o.body.tree.members, "models") == Some(JArr(entries))
  }

  /**
   * When every entry reads as a model (whatever other members it has), all
   * of them are returned, each in its entry's position.
   */
  lemma AllEntriesListed(o: Outcome, entries: seq<Json>)
    requires ListsEntries(o, entries)
    requires forall i :: 0 <= i < |entries| ==> ParseModel(entries[i]).Ok?
    ensures |ModelList(o)| == |entries|
    ensures forall i :: 0 <= i < |entries| ==> ModelList(o)[i] == ParseModel(entries[i]).value
  {
  }

  /**
   * When entry k is the first that throws (not an object, no `name`, no
   * `size`, or one that does not convert), exactly the k models before it
   * are returned.
   */
  lemma MalformedEntryKeepsPrefix(o: Outcome, entries: seq<Json>, k: nat)
    requires ListsEntries(o, entries)
    requires k < |entries| && ParseModel(entries[k]).Err?
    requires forall i :: 0 <= i < k ==> ParseModel(entries[i]).Ok?
    ensures |ModelList(o)| == k
    ensures forall i :: 0 <= i < k ==> ModelList(o)[i] == ParseModel(entries[i]).value
  {
    var ms := seq(k, i requires 0 <= i < k => ParseModel(entries[i]).value);
    PrefixUnique(entries, ms);
  }

  /** The shapes of entry that throw in the loop. */
  lemma MalformedEntries(entry: Json)
    ensures !entry.JObj? ==> ParseModel(entry).Err?
    ensures entry.JObj? && !Has(entry.members, "name") ==> ParseModel(entry).Err?
    ensures entry.JObj? && !Has(entry.members, "size") ==> ParseModel(entry).Err?
  {
  }

  /** A failed status, a missing body or a body without `models` lists nothing. */
  lemma NothingListed(o: Outcome)
    requires !IsSuccessful(o) || o.body.Absent? || (o.body.Parsed? && o.body.tree.JObj? && !Has(o.body.tree.members, "models"))
    ensures ModelList(o) == []
  {
  }

  /**
   * A 2xx body that throws while it is read (not JSON, not an object, or a
   * `models` member that is not an array) lists nothing and reports no memory.
   */
  lemma UnreadableBodyGivesNothing(o: Outcome)
    requires IsSuccessful(o) && !o.body.Absent?
    requires TopObject(o.body).Err? || MemberAsArray(TopObject(o.body).value, "models").Err?
    ensures ModelList(o) == [] && FirstModelSize(o) == 0
  {
  }

  // ---------------------------------------------------------------------
  // sendPrompt
  // ---------------------------------------------------------------------

  /** `{"model": model, "prompt": prompt, "stream": false}`, added in that order. */
  function GenerateBody(model: string, prompt: string): seq<Member> {
    AddProperty(AddProperty(AddProperty([], "model", JStr(model)), "prompt", JStr(prompt)), "stream", JBool(false))
  }

  /** Two distinct keys added to an empty object keep the order of the calls. */
  lemma TwoKeysInOrder(k1: string, k2: string, v1: Json, v2: Json)
    requires k1 != k2
    ensures AddProperty(AddProperty([], k1, v1), k2, v2) == [(k1, v1), (k2, v2)]
  {
    var a := AddProperty([], k1, v1);
    assert a == [(k1, v1)];
    assert !Has(a, k2) by {
      assert a[0].0 != k2;
    }
  }

  /** A key other than the two members' keys is absent from them. */
  lemma AbsentFromPair(k1: string, k2: string, k3: string, v1: Json, v2: Json)
    requires k1 != k3 && k2 != k3
    ensures !Has([(k1, v1), (k2, v2)], k3)
  {
    var m := [(k1, v1), (k2, v2)];
    assert m[1..] == [(k2, v2)];
    assert m[1..][1..] == [];
  }

  /** A member appended to a pair comes third. */
  lemma ThirdAfterPair(m1: Member, m2: Member, m3: Member)
    ensures [m1, m2] + [m3] == [m1, m2, m3]
  {
    var s := [m1, m2] + [m3];
    assert |s| == 3 && s[0] == m1 && s[1] == m2 && s[2] == m3;
  }

  /** Three distinct keys added to an empty object keep the order of the calls. */
  lemma DistinctKeysInOrder(k1: string, k2: string, k3: string, v1: Json, v2: Json, v3: Json)
    requires k1 != k2 && k1 != k3 && k2 != k3
    ensures AddProperty(AddProperty(AddProperty([], k1, v1), k2, v2), k3, v3) == [(k1, v1), (k2, v2), (k3, v3)]
  {
    TwoKeysInOrder(k1, k2, v1, v2);
    AbsentFromPair(k1, k2, k3, v1, v2);
    ThirdAfterPair((k1, v1), (k2, v2), (k3, v3));
  }

  /** The three properties are new keys, so each goes after the previous one. */
  lemma GenerateBodyInOrder(model: string, prompt: string)
    ensures GenerateBody(model, prompt) == [("model", JStr(model)), ("prompt", JStr(prompt)), ("stream", JBool(false))]
  {
    assert "model"[0] != "prompt"[0] && "model"[0] != "stream"[0] && "prompt"[0] != "stream"[0];
    DistinctKeysInOrder("model", "prompt", "stream", JStr(model), JStr(prompt), JBool(false));
  }

  /**
   * The POST that `sendPrompt` sends. Its body is written out as the member
   * list that the three `addProperty` calls build (`GenerateBodyInOrder`).
   */
  function GenerateRequest(baseUrl: string, model: string, prompt: string): (r: Request)
    ensures r.verb == POST && r.url == baseUrl + "/api/generate"
    ensures r.body == Some(Payload("application/json",
                  JObj([("model", JStr(model)), ("prompt", JStr(prompt)), ("stream", JBool(false))])))
  {
    Request(POST, baseUrl + GENERATE_PATH,
            Some(Payload(JSON_MEDIA_TYPE, JObj([("model", JStr(model)), ("prompt", JStr(prompt)), ("stream", JBool(false))]))))
  }

  /** What the callback is told: `onSuccess(response)` or `onError(message)`. */
  datatype Notice = Delivered(response: Response) | Failed(message: Option<string>)

  /** The returned response and, when a callback was given, what it was told. */
  datatype Generation = Generation(response: Response, notice: Option<Notice>)

  /** Java's string concatenation of a possibly null message. */
  function MessageText(message: Option<string>): string {
    if message.None? then "null" else message.value
  }

  /** `has(key) ? get(key).getAsString() : ""`. */
  function TextOr(members: seq<Member>, key: string): Result<string> {
    if Has(members, key) then MemberAsString(members, key) else Ok("")
  }

  /** `has(key) ? get(key).getAsLong() : 0`. */
  function LongOr(members: seq<Member>, key: string): Result<Long> {
    if Has(members, key) then MemberAsLong(members, key) else Ok(0)
  }

  /** The four constructor arguments, read left to right; the first that throws wins. */
  function ReadResponse(members: seq<Member>): Result<Response> {
    match TextOr(members, "response")
    case Err(f) => Err(f)
    case Ok(text) =>
      match LongOr(members, "eval_count")
      case Err(f) => Err(f)
      case Ok(count) =>
        match LongOr(members, "eval_duration")
        case Err(f) => Err(f)
        case Ok(evalDuration) =>
          match LongOr(members, "total_duration")
          case Err(f) => Err(f)
          case Ok(totalDuration) => Ok(Response(text, count, evalDuration, totalDuration))
  }

  /** The `catch` branch: "Error: " + the message, zeros, and `onError(message)`. */
  function Caught(message: Option<string>, hasCallback: bool): Generation {
    Generation(ErrorResponse("Error: " + MessageText(message)),
               if hasCallback then Some(Failed(message)) else None)
  }

  /**
   * `sendPrompt`: never throws. A readable success body gives its fields
   * (each defaulting when absent) and `onSuccess` gets that same response; a
   * failed status gives "Error: " + the code; an exception gives
   * "Error: " + its message; every failure has all counters zero.
   */
  function SendPrompt(baseUrl: string, model: string, prompt: string, send: Transport, hasCallback: bool): (g: Generation)
    ensures g.notice.Some? <==> hasCallback
    ensures g.notice.Some? && g.notice.value.Delivered? ==> g.notice.value.response == g.response
    ensures g.notice.Some? && g.notice.value.Failed? ==>
              g.response.tokenCount == 0 && g.response.evalDuration == 0 && g.response.totalDuration == 0
    ensures var o := send(GenerateRequest(baseUrl, model, prompt));
            o.Thrown? ==> g == Caught(o.message, hasCallback)
    ensures var o := send(GenerateRequest(baseUrl, model, prompt));
            o.Answered? && !(IsSuccessful(o) && !o.body.Absent?) ==>
              g.response == ErrorResponse("Error: " + Decimal(o.code))
              && (hasCallback ==> g.notice == Some(Failed(Some("Failed to get response from Ollama"))))
    ensures var o := send(GenerateRequest(baseUrl, model, prompt));
            IsSuccessful(o) && !o.body.Absent? && TopObject(o.body).Err? ==>
              g == Caught(TopObject(o.body).fault.message, hasCallback)
    ensures var o := send(GenerateRequest(baseUrl, model, prompt));
            IsSuccessful(o) && !o.body.Absent? && TopObject(o.body).Ok? && ReadResponse(TopObject(o.body).value).Err? ==>
              g == Caught(ReadResponse(TopObject(o.body).value).fault.message, hasCallback)
  {
    Exchange(send(GenerateRequest(baseUrl, model, prompt)), hasCallback)
  }

  /** What `sendPrompt` makes of the outcome of its request. */
  function Exchange(o: Outcome, hasCallback: bool): Generation {
    match o
    case Thrown(message) => Caught(message, hasCallback)
    case Answered(code, body) =>
      if 200 <= code < 300 && !body.Absent? then
        match TopObject(body)
        case Err(f) => Caught(f.message, hasCallback)
        case Ok(members) =>
          match ReadResponse(members)
          case Err(f) => Caught(f.message, hasCallback)
          case Ok(response) => Generation(response, if hasCallback then Some(Delivered(response)) else None)
      else
        Generation(ErrorResponse("Error: " + Decimal(code)),
                   if hasCallback then Some(Failed(Some(GENERATION_FAILED))) else None)
  }

  /** A member `getAsString` reads without throwing: absent, or text. */
  predicate TextReads(members: seq<Member>, key: string) {
    Get(members, key).None? || Get(members, key).value.JStr?
  }

  /** The text read for such a member, "" when it is absent. */
  function TextValue(members: seq<Member>, key: string): string
    requires TextReads(members, key)
  {
    if Get(members, key).None? then "" else Get(members, key).value.s
  }

  /** A member `getAsLong` reads without throwing: absent, or a number. */
  predicate CountReads(members: seq<Member>, key: string) {
    Get(members, key).None? || Get(members, key).value.JNum?
  }

  /** The count read for such a member, 0 when it is absent. */
  function CountValue(members: seq<Member>, key: string): Long
    requires CountReads(members, key)
  {
    if Get(members, key).None? then 0 else Wrap64(Get(members, key).value.n)
  }

  /**
   * A reply object, whatever other members it carries, reads as the
   * response built from its four fields, each defaulting when absent.
   */
  lemma ReadFields(members: seq<Member>)
    requires TextReads(members, "response")
    requires CountReads(members, "eval_count") && CountReads(members, "eval_duration")
    requires CountReads(members, "total_duration")
    ensures ReadResponse(members)
         == Ok(Response(TextValue(members, "response"), CountValue(members, "eval_count"),
                        CountValue(members, "eval_duration"), CountValue(members, "total_duration")))
  {
  }

  /**
   * On a 2xx reply, each of the four fields is taken when present and
   * defaults to "" or 0 when absent, and `onSuccess` gets that response.
   */
  lemma FieldsDefault(baseUrl: string, model: string, prompt: string, send: Transport, hasCallback: bool,
                      members: seq<Member>)
    requires var o := send(GenerateRequest(baseUrl, model, prompt));
             IsSuccessful(o) && o.body == Parsed(JObj(members))
    requires TextReads(members, "response")
    requires CountReads(members, "eval_count") && CountReads(members, "eval_duration")
    requires CountReads(members, "total_duration")
    ensures var g := SendPrompt(baseUrl, model, prompt, send, hasCallback);
            g.response == Response(TextValue(members, "response"), CountValue(members, "eval_count"),
                                   CountValue(members, "eval_duration"), CountValue(members, "total_duration"))
            && g.notice == (if hasCallback then Some(Delivered(g.response)) else None)
  {
    ReadFields(members);
    var response := ReadResponse(members).value;
    SuccessDelivered(baseUrl, model, prompt, send, hasCallback, members, response);
  }

  /** A 2xx object body whose fields all read is returned and handed to `onSuccess`. */
  lemma SuccessDelivered(baseUrl: string, model: string, prompt: string, send: Transport, hasCallback: bool,
                         members: seq<Member>, response: Response)
    requires var o := send(GenerateRequest(baseUrl, model, prompt));
             IsSuccessful(o) && o.body == Parsed(JObj(members))
    requires ReadResponse(members) == Ok(response)
    ensures SendPrompt(baseUrl, model, prompt, send, hasCallback)
         == Generation(response, if hasCallback then Some(Delivered(response)) else None)
  {
    var o := send(GenerateRequest(baseUrl, model, prompt));
    assert SendPrompt(baseUrl, model, prompt, send, hasCallback) == Exchange(o, hasCallback);
    assert TopObject(o.body) == Ok(members);
  }

  // ---------------------------------------------------------------------
  // fetchMetrics
  // ---------------------------------------------------------------------

  /**
   * The memory `fetchMetrics` reports for an outcome: the `size` of the
   * first element of `models` when all of it reads, otherwise 0.
   */
  function FirstModelSize(o: Outcome): Long {
    if !IsSuccessful(o) || o.body.Absent? then 0
    else
      match TopObject(o.body)
      case Err(_) => 0
      case Ok(members) =>
        if !Has(members, "models") then 0
        else
          match MemberAsArray(members, "models")
          case Err(_) => 0
          case Ok(entries) =>
            if |entries| == 0 then 0
            else
              match AsObject(entries[0])
              case Err(_) => 0
              case Ok(first) =>
                if !Has(first, "size") then 0
                else
                  match MemberAsLong(first, "size")
                  case Err(_) => 0
                  case Ok(size) => size
  }

  /**
   * `fetchMetrics`: memory from the first loaded model, CPU and tokens per
   * second always 0; any failure gives all zeros.
   */
  method FetchMetrics(baseUrl: string, send: Transport) returns (metrics: Metrics.Metrics)
    ensures metrics.cpuUsage == 0.0 && metrics.tokensPerSecond == 0.0
    ensures metrics.memoryUsage == FirstModelSize(send(PsRequest(baseUrl)))
  {
    var response := send(PsRequest(baseUrl));
    if IsSuccessful(response) && !response.body.Absent? {
      var top := TopObject(response.body);
      if top.Err? {
        return Metrics.Zero;
      }
      var memory: Long := 0;
      if Has(top.value, "models") {
        var listed := MemberAsArray(top.value, "models");
        if listed.Err? {
          return Metrics.Zero;
        }
        if |listed.value| > 0 {
          var first := AsObject(listed.value[0]);
          if first.Err? {
            return Metrics.Zero;
          }
          if Has(first.value, "size") {
            var size := MemberAsLong(first.value, "size");
            if size.Err? {
              return Metrics.Zero;
            }
            memory := size.value;
          }
        }
      }
      return Metrics.Metrics(memory, 0.0, 0.0);
    }
    return Metrics.Zero;
  }

  /** The first loaded model's numeric `size` is the memory reported. */
  lemma FirstSizeReported(o: Outcome, size: Long, first: seq<Member>, rest: seq<Json>)
    requires IsSuccessful(o) && o.body.Parsed? && o.body.tree.JObj?
    requires Get(o.body.tree.members, "models") == Some(JArr([JObj(first)] + rest))
    requires Get(first, "size") == Some(JNum(size))
    ensures FirstModelSize(o) == size
  {
  }

  /** No loaded model, or a first model without `size`, reports 0 bytes. */
  lemma NoSizeReportsZero(o: Outcome, entries: seq<Json>)
    requires IsSuccessful(o) && o.body.Parsed? && o.body.tree.JObj?
    requires Get(o.body.tree.members, "models") == Some(JArr(entries))
    requires entries == [] || (entries[0].JObj? && !Has(entries[0].members, "size"))
    ensures FirstModelSize(o) == 0
  {
  }

  /** A failed status or an exception reports all zeros. */
  lemma FailureReportsZero(o: Outcome)
    requires !IsSuccessful(o)
    ensures FirstModelSize(o) == 0
  {
  }

  /**
   * A first loaded model that is not an object, or whose `size` does not
   * convert, throws inside the `try`, so all zeros are reported.
   */
  lemma FirstEntryFailureReportsZero(o: Outcome, entries: seq<Json>)
    requires IsSuccessful(o) && o.body.Parsed? && o.body.tree.JObj?
    requires Get(o.body.tree.members, "models") == Some(JArr(entries))
    requires |entries| > 0
    requires !entries[0].JObj? || (Has(entries[0].members, "size") && MemberAsLong(entries[0].members, "size").Err?)
    ensures FirstModelSize(o) == 0
  {
  }
}
