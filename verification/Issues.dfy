/** Queue items, JSON values, and the encoding of an issue in the queue file. */
module Issues {
  import opened Results
  import opened Text

  /** A datetime, represented by its ISO text, which is never empty. */
  type Timestamp = s: string | s != "" witness "0"

  datatype Json =
    | JNull
    | JBool(b: bool)
    | JInt(n: int)
    | JString(s: string)
    | JArray(elems: seq<Json>)
    | JObject(fields: map<string, Json>)

  datatype WorkerIssue = WorkerIssue(
    repository: string,
    number: int,
    title: Option<string>,
    url: Option<string>,
    labels: seq<string>,
    attempts: int,
    enqueuedAt: Timestamp,
    metadata: map<string, Json>)
  {
    function Key(): string {
      repository + "#" + IntToString(number)
    }
  }

  datatype LoadError = MissingKey | BadNumber | BadShape

  function OptionalText(t: Option<string>): Json {
    match t case Some(s) => JString(s) case None => JNull
  }

  function Strings(labels: seq<string>): (r: seq<Json>)
    ensures |r| == |labels|
  {
    seq(|labels|, i requires 0 <= i < |labels| => JString(labels[i]))
  }

  function IssueToJson(i: WorkerIssue): Json {
    JObject(map[
      "repository" := JString(i.repository),
      "number" := JInt(i.number),
      "title" := OptionalText(i.title),
      "url" := OptionalText(i.url),
      "labels" := JArray(Strings(i.labels)),
      "attempts" := JInt(i.attempts),
      "enqueued_at" := JString(i.enqueuedAt),
      "metadata" := JObject(i.metadata)])
  }

  // ----- reading one issue back -----

  /** str(value), for the values the queue file holds. */
  function AsText(j: Json): Result<string, LoadError> {
    match j
    case JString(s) => Ok(s)
    case JInt(n) => Ok(IntToString(n))
    case JBool(b) => Ok(if b then "True" else "False")
    case JNull => Ok("None")
    case _ => Err(BadShape)
  }

  /** int(value) */
  function AsInt(j: Json): Result<int, LoadError> {
    match j
    case JInt(n) => Ok(n)
    case JBool(b) => Ok(if b then 1 else 0)
    case JString(s) => (match ParseInt(s) case Some(n) => Ok(n) case None => Err(BadNumber))
    case _ => Err(BadNumber)
  }

  function AsOptionalText(fields: map<string, Json>, key: string): Result<Option<string>, LoadError> {
    if key !in fields || fields[key].JNull? then Ok(None)
    else if fields[key].JString? then Ok(Some(fields[key].s))
    else Err(BadShape)
  }

  function AsStrings(js: seq<Json>): Result<seq<string>, LoadError> {
    if js == [] then Ok([])
    else if !js[0].JString? then Err(BadShape)
    else
      var rest :- AsStrings(js[1..]);
      Ok([js[0].s] + rest)
  }

  function AsLabels(fields: map<string, Json>): Result<seq<string>, LoadError> {
    if "labels" !in fields then Ok([])
    else if fields["labels"].JArray? then AsStrings(fields["labels"].elems)
    else Err(BadShape)
  }

  /** An absent or empty time stamp is replaced by the current time. */
  function AsTime(fields: map<string, Json>, now: Timestamp): Result<Timestamp, LoadError> {
    if "enqueued_at" !in fields || fields["enqueued_at"] == JNull || fields["enqueued_at"] == JString("") then Ok(now)
    else if fields["enqueued_at"].JString? then Ok(fields["enqueued_at"].s)
    else Err(BadShape)
  }

  function AsMetadata(fields: map<string, Json>): Result<map<string, Json>, LoadError> {
    if "metadata" !in fields then Ok(map[])
    else if fields["metadata"].JObject? then Ok(fields["metadata"].fields)
    else Err(BadShape)
  }

  function IssueFromJson(j: Json, now: Timestamp): Result<WorkerIssue, LoadError> {
    if !j.JObject? then Err(BadShape)
    else
      var f := j.fields;
      if "repository" !in f || "number" !in f then Err(MissingKey)
      else
        var repository :- AsText(f["repository"]);
        var number :- AsInt(f["number"]);
        var title :- AsOptionalText(f, "title");
        var url :- AsOptionalText(f, "url");
        var labels :- AsLabels(f);
        var attempts :- if "attempts" in f then AsInt(f["attempts"]) else Ok(0);
        var at :- AsTime(f, now);
        var metadata :- AsMetadata(f);
        Ok(WorkerIssue(repository, number, title, url, labels, attempts, at, metadata))
  }

  lemma {:induction false} StringsRoundTrip(labels: seq<string>)
    ensures AsStrings(Strings(labels)) == Ok(labels)
  {
    if labels != [] {
      assert Strings(labels)[1..] == Strings(labels[1..]);
      StringsRoundTrip(labels[1..]);
      assert [labels[0]] + labels[1..] == labels;
    } else {
      assert Strings(labels) == [];
    }
  }

  /** Every issue read back from its encoding is the same issue, whatever the time of reading. */
  lemma {:induction false} IssueRoundTrip(i: WorkerIssue, now: Timestamp)
    ensures IssueFromJson(IssueToJson(i), now) == Ok(i)
  {
    StringsRoundTrip(i.labels);
  }

  /**
   What a document in the queue file says, field by field, whoever wrote it: a document that names repository and number
   and nothing else is an issue with the defaults and the time of reading; one without either is refused.
  */
  lemma {:induction false} IssueDocument(f: map<string, Json>, repository: string, number: int, now: Timestamp)
    requires "repository" in f && f["repository"] == JString(repository) && "number" in f && f["number"] == JInt(number)
    ensures f.Keys == {"repository", "number"} ==>
              IssueFromJson(JObject(f), now) == Ok(WorkerIssue(repository, number, None, None, [], 0, now, map[]))
    ensures forall title: string, url: string, attempts: int, at: Timestamp ::
              f.Keys == {"repository", "number", "title", "url", "attempts", "enqueued_at"}
              && f["title"] == JString(title) && f["url"] == JString(url) && f["attempts"] == JInt(attempts)
              && f["enqueued_at"] == JString(at) ==>
                IssueFromJson(JObject(f), now) == Ok(WorkerIssue(repository, number, Some(title), Some(url), [], attempts, at, map[]))
    ensures IssueFromJson(JObject(f - {"repository"}), now) == Err(MissingKey)
    ensures IssueFromJson(JObject(f - {"number"}), now) == Err(MissingKey)
  {
  }

  // ----- the queue file -----

  function EncodeAll(items: seq<WorkerIssue>): (r: seq<Json>)
    ensures |r| == |items|
  {
    seq(|items|, k requires 0 <= k < |items| => IssueToJson(items[k]))
  }

  function QueueToJson(items: seq<WorkerIssue>): Json {
    JObject(map["items" := JArray(EncodeAll(items))])
  }

  function DecodeAll(js: seq<Json>, now: Timestamp): Result<seq<WorkerIssue>, LoadError> {
    if js == [] then Ok([])
    else
      var first :- IssueFromJson(js[0], now);
      var rest :- DecodeAll(js[1..], now);
      Ok([first] + rest)
  }

  /** `_load`: a missing file is an empty queue. */
  function LoadItems(content: Option<Json>, now: Timestamp): Result<seq<WorkerIssue>, LoadError> {
    match content
    case None => Ok([])
    case Some(JObject(f)) =>
      if "items" !in f then Ok([])
      else if f["items"].JArray? then DecodeAll(f["items"].elems, now)
      else Err(BadShape)
    case Some(_) => Err(BadShape)
  }

  lemma {:induction false} DecodeEncode(items: seq<WorkerIssue>, now: Timestamp)
    ensures DecodeAll(EncodeAll(items), now) == Ok(items)
  {
    hide IssueToJson, IssueFromJson;
    if items != [] {
      IssueRoundTrip(items[0], now);
      assert EncodeAll(items)[1..] == EncodeAll(items[1..]);
      DecodeEncode(items[1..], now);
      assert [items[0]] + items[1..] == items;
    } else {
      assert EncodeAll(items) == [];
    }
  }

  /** A saved queue loads as the same items in the same order. */
  lemma {:induction false} QueueRoundTrip(items: seq<WorkerIssue>, now: Timestamp)
    ensures LoadItems(Some(QueueToJson(items)), now) == Ok(items)
  {
    DecodeEncode(items, now);
  }
}
