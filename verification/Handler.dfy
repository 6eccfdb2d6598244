/** From the body of a queued job to the result message: what a worker reads, answers and passes on. */
module Handler {
  import opened Options
  import opened Text
  import opened Projection

  /** A decoded JSON value, as far as the parsers look at it. */
  datatype Json = JNull | JString(s: string) | JInt(n: int) | JObject(fields: map<string, Json>) | JOther

  const MAX_PRIORITY := 255

  /** `dict.get`: a missing key reads as null. */
  function Get(fields: map<string, Json>, key: string): Json {
    if key in fields then fields[key] else JNull
  }

  predicate NonBlank(v: Json) {
    v.JString? && !AllSpace(v.s)
  }

  /** `validate_extraction_job_priority_value`; `None` stands for the error. */
  function Priority(v: Json): Option<nat> {
    match v
    case JNull => Some(0)
    case JInt(n) => if 0 <= n <= MAX_PRIORITY then Some(n) else None
    case _ => None
  }

  // ----- Extraction jobs -----

  datatype JobRequest = JobRequest(jobId: string, filename: string, sourcePath: string, priority: nat, llmProfile: string)

  /** `_parse_extraction_request` on a body that decodes to `body`, or does not decode at all. */
  function ParseRequest(body: Option<Json>): Option<JobRequest> {
    if body.None? || !body.value.JObject? then None
    else
      var msg := body.value.fields;
      var options, priority := Get(msg, "options"), Priority(Get(msg, "priority"));
      var name, profile := Get(msg, "filename"), Get(msg, "llm_profile");
      if !(options.JNull? || options.JObject?) || priority.None? then None
      else if !NonBlank(Get(msg, "job_id")) || !NonBlank(Get(msg, "source_path")) then None
      else Some(JobRequest(Get(msg, "job_id").s,
                           if name.JString? && name.s != "" then name.s else "unknown",
                           Get(msg, "source_path").s,
                           priority.value,
                           if profile.JString? then Strip(profile.s) else ""))
  }

  /** A body as the worker sees it: what it decodes to, and the digest of its bytes. */
  datatype Body = Body(json: Option<Json>, digest: string)

  function MalformedId(digest: string, deliveryId: string): string {
    "malformed-" + digest + (if AllSpace(deliveryId) then "" else "-" + Strip(deliveryId))
  }

  /** `parse_job_request_from_body`: never fails. */
  function RequestOf(body: Body, deliveryId: string): JobRequest {
    var parsed := ParseRequest(body.json);
    if parsed.Some? then parsed.value
    else JobRequest(MalformedId(body.digest, deliveryId), "unknown", "unknown", 0, "")
  }

  /** What reading, converting and storing came to; `prefix` is the output path derived from the source path. */
  datatype Conversion =
    | Raised(message: string)
    | NotConverted(reason: Option<string>)
    | Converted(prefix: string, tokens: nat, chars: nat, chunks: nat)

  /** The result message together with the request fields it repeats. */
  datatype Outcome = Outcome(result: Extraction, request: JobRequest)

  function Failure(request: JobRequest, error: string): Outcome {
    Outcome(Extraction(request.jobId, "error", None, None, Some(0), Some(0), Some(0), Some(error)), request)
  }

  /** `handle_extract_job`: the conversion runs only on a body that parses. */
  function HandleExtractJob(body: Body, deliveryId: string, parseError: string, conversion: Conversion): Outcome {
    var parsed := ParseRequest(body.json);
    if parsed.None? then Failure(RequestOf(body, deliveryId), parseError)
    else
      match conversion
      case Raised(message) => Failure(parsed.value, message)
      case NotConverted(reason) =>
        Failure(parsed.value, if reason.Some? && reason.value != "" then reason.value else "conversion failed")
      case Converted(prefix, tokens, chars, chunks) =>
        Outcome(Extraction(parsed.value.jobId, "ok", Some(prefix + ".md"), Some(prefix + ".json"),
                           Some(tokens), Some(chars), Some(chunks), None),
                parsed.value)
  }

  /** Whatever happens, the answer names the request's job and has the shape the projection relies on. */
  lemma EveryJobIsAnswered(body: Body, deliveryId: string, parseError: string, conversion: Conversion)
    ensures var o := HandleExtractJob(body, deliveryId, parseError, conversion);
      && o.request == RequestOf(body, deliveryId)
      && o.result.jobId == o.request.jobId != ""
      && WorkerBuilt(o.result)
      && (o.result.status == "ok" <==> ParseRequest(body.json).Some? && conversion.Converted?)
  {
    var o := HandleExtractJob(body, deliveryId, parseError, conversion);
    if conversion.Converted? {
      assert (conversion.prefix + ".json")[|conversion.prefix|] == '.';
    }
    assert MalformedId(body.digest, deliveryId)[0] == 'm';
  }

  /** `job_payload_dict`, for a priority the API validated. */
  function JobPayload(jobId: string, filename: string, sourcePath: string, priority: nat, profile: string): Json {
    var fields := map[
      "job_id" := JString(jobId), "filename" := JString(filename), "source_path" := JString(sourcePath),
      "options" := JObject(map[]), "priority" := JInt(priority)];
    JObject(if profile == "" then fields else fields["llm_profile" := JString(profile)])
  }

  /** The worker reads back what the API wrote. */
  lemma ApiJobsParse(jobId: string, filename: string, sourcePath: string, priority: nat, profile: string)
    requires !AllSpace(jobId) && !AllSpace(sourcePath) && filename != "" && priority <= MAX_PRIORITY
    ensures ParseRequest(Some(JobPayload(jobId, filename, sourcePath, priority, profile)))
         == Some(JobRequest(jobId, filename, sourcePath, priority, Strip(profile)))
  {
    assert AllSpace("");
  }

  /** A key that holds a string with something visible in it. */
  predicate HasText(fields: map<string, Json>, key: string) {
    key in fields && fields[key].JString? && exists i :: 0 <= i < |fields[key].s| && !IsSpace(fields[key].s[i])
  }

  /** A missing key, `null`, or a value of the right kind. */
  predicate OptionsUsable(fields: map<string, Json>) {
    "options" in fields ==> fields["options"].JNull? || fields["options"].JObject?
  }

  predicate PriorityUsable(fields: map<string, Json>) {
    "priority" in fields ==>
      fields["priority"].JNull? || (fields["priority"].JInt? && 0 <= fields["priority"].n <= MAX_PRIORITY)
  }

  /** Whatever else a body holds, it is accepted exactly when these four keys are usable, and read as they say. */
  lemma ParsesIff(body: Option<Json>)
    ensures ParseRequest(body).Some? <==>
              (body.Some? && body.value.JObject? && HasText(body.value.fields, "job_id") && HasText(body.value.fields, "source_path")
              && OptionsUsable(body.value.fields) && PriorityUsable(body.value.fields))
    ensures ParseRequest(body).Some? ==>
              var r, fields := ParseRequest(body).value, body.value.fields;
              && r.jobId == fields["job_id"].s && r.sourcePath == fields["source_path"].s
              && r.filename == (if "filename" in fields && fields["filename"].JString? && fields["filename"].s != ""
                                then fields["filename"].s else "unknown")
              && r.priority == (if "priority" in fields && fields["priority"].JInt? then fields["priority"].n else 0)
              && r.llmProfile == (if "llm_profile" in fields && fields["llm_profile"].JString?
                                  then Strip(fields["llm_profile"].s) else "")
  {
  }

  // ----- The follow-up job for the LLM worker -----

  datatype LlmJob = LlmJob(jobId: string, extractJobId: string, filename: string, sourcePath: string,
                           chunksPath: string, llmProfile: string, priority: nat)

  /** `_maybe_publish_llm_followup`: due only for a successful extraction with a profile. */
  function FollowUpOf(o: Outcome, newId: string): Option<LlmJob> {
    if o.result.status != "ok" || AllSpace(o.request.llmProfile) then None
    else if o.result.chunksPath.None? || AllSpace(o.result.chunksPath.value) then None
    else Some(LlmJob(newId, o.result.jobId, o.request.filename, o.request.sourcePath, o.result.chunksPath.value,
                     Strip(o.request.llmProfile), if o.request.priority <= MAX_PRIORITY then o.request.priority else 0))
  }

  function LlmPayload(job: LlmJob): Json {
    JObject(map[
      "job_id" := JString(job.jobId), "extract_job_id" := JString(job.extractJobId),
      "filename" := JString(job.filename), "source_path" := JString(job.sourcePath),
      "chunks_path" := JString(job.chunksPath), "llm_profile" := JString(job.llmProfile),
      "priority" := JInt(job.priority), "metadata" := JObject(map[])])
  }

  datatype LlmRequest = LlmRequest(jobId: string, extractJobId: string, filename: string, sourcePath: string,
                                   chunksPath: string, llmProfile: string)

  /** The LLM worker's `_parse_llm_request`. */
  function ParseLlmRequest(body: Option<Json>): Option<LlmRequest> {
    if body.None? || !body.value.JObject? then None
    else
      var msg := body.value.fields;
      var name, profile := Get(msg, "filename"), Get(msg, "llm_profile");
      if NonBlank(Get(msg, "job_id")) && NonBlank(Get(msg, "extract_job_id")) && NonBlank(Get(msg, "source_path"))
        && NonBlank(Get(msg, "chunks_path"))
      then Some(LlmRequest(Get(msg, "job_id").s, Get(msg, "extract_job_id").s,
                           if name.JString? then name.s else "unknown",
                           Get(msg, "source_path").s, Get(msg, "chunks_path").s,
                           if profile.JString? then profile.s else ""))
      else None
  }

  /** `RequestOf` for the LLM worker; a malformed job is answered for the extraction job `unknown`. */
  function LlmRequestOf(body: Body, deliveryId: string): LlmRequest {
    var parsed := ParseLlmRequest(body.json);
    if parsed.Some? then parsed.value
    else LlmRequest(MalformedId(body.digest, deliveryId), "unknown", "unknown", "unknown", "unknown", "")
  }

  /** What embedding came to. */
  datatype Embedding = EmbeddingRaised(message: string) | Embedded(provider: string, artifactPath: string, chunks: nat, vectors: nat)

  /** `handle_llm_job`: the part of its result the projection reads. */
  function HandleLlmJob(body: Body, deliveryId: string, parseError: string, e: Embedding): LlmResult {
    var parsed := ParseLlmRequest(body.json);
    if parsed.Some? && e.Embedded? then
      LlmResult(parsed.value.extractJobId, "ok", Some(e.provider), Some(e.artifactPath), Some(e.chunks), Some(e.vectors), None)
    else
      LlmResult(LlmRequestOf(body, deliveryId).extractJobId, "error", Some(""), None, Some(0), Some(0),
                Some(if parsed.None? then parseError else e.message))
  }

  /** The LLM worker reads back the follow-up the extraction worker wrote. */
  lemma FollowUpParsesBack(job: LlmJob)
    requires !AllSpace(job.jobId) && !AllSpace(job.extractJobId) && !AllSpace(job.sourcePath) && !AllSpace(job.chunksPath)
    ensures ParseLlmRequest(Some(LlmPayload(job)))
         == Some(LlmRequest(job.jobId, job.extractJobId, job.filename, job.sourcePath, job.chunksPath, job.llmProfile))
  {
  }

  lemma StripKeepsNonBlank(s: string)
    requires !AllSpace(s)
    ensures !AllSpace(Strip(s))
  {
    EndsMeet(s);
    assert Strip(s)[0] == s[Leading(s)];
  }

  lemma BlankStrips(s: string)
    requires AllSpace(s)
    ensures Strip(s) == "" && AllSpace("")
  {
  }

  /**
    From the API's body through both workers: a job that converts and names a profile gets a follow-up, the
    LLM worker accepts it, and its result is for the very job the API created.
   */
  lemma FollowUpReachesTheSameJob(jobId: string, filename: string, sourcePath: string, priority: nat, profile: string,
                                  digest: string, deliveryId: string, err: string, c: Conversion, newId: string, digest': string, e: Embedding)
    requires !AllSpace(jobId) && !AllSpace(sourcePath) && filename != "" && priority <= MAX_PRIORITY && !AllSpace(newId)
    ensures var body := Body(Some(JobPayload(jobId, filename, sourcePath, priority, profile)), digest);
      var o := HandleExtractJob(body, deliveryId, err, c);
      var next := FollowUpOf(o, newId);
      && o.result.jobId == jobId
      && (next.Some? <==> c.Converted? && !AllSpace(profile))
      && (next.Some? ==>
            && next.value == LlmJob(newId, jobId, filename, sourcePath, c.prefix + ".json", Strip(Strip(profile)), priority)
            && ParseLlmRequest(Some(LlmPayload(next.value))).Some?
            && HandleLlmJob(Body(Some(LlmPayload(next.value)), digest'), deliveryId, err, e).extractJobId == jobId)
  {
    hide ParseRequest, JobPayload, ParseLlmRequest, LlmPayload, MalformedId, Strip;
    ApiJobsParse(jobId, filename, sourcePath, priority, profile);
    if !AllSpace(profile) {
      StripKeepsNonBlank(profile);
    } else {
      assert AllSpace(Strip(profile)) by { BlankStrips(profile); }
    }
    if c.Converted? {
      assert !AllSpace(c.prefix + ".json") by {
        assert (c.prefix + ".json")[|c.prefix|] == '.';
      }
      var o := HandleExtractJob(Body(Some(JobPayload(jobId, filename, sourcePath, priority, profile)), digest), deliveryId, err, c);
      var next := FollowUpOf(o, newId);
      if next.Some? { FollowUpParsesBack(next.value); }
    }
  }

  // ----- What the job's row shows in the end -----

  /** Why an extraction failed, in the words of whoever noticed. */
  function WhyFailed(body: Body, parseError: string, c: Conversion): string
    requires ParseRequest(body.json).None? || !c.Converted?
  {
    if ParseRequest(body.json).None? then parseError
    else if c.Raised? then c.message
    else if c.reason.Some? && c.reason.value != "" then c.reason.value else "conversion failed"
  }

  /** From the conversion through the worker's answer to the row: its artefacts, its figures, or why there are none. */
  lemma ConversionReachesTheRow(body: Body, deliveryId: string, parseError: string, c: Conversion, jobs: map<JobId, Row>, now: Time)
    requires RequestOf(body, deliveryId).jobId in jobs
    ensures var r := HandleExtractJob(body, deliveryId, parseError, c).result;
      var row := Apply(jobs, ExtractionMsg(r), now)[RequestOf(body, deliveryId).jobId];
      if ParseRequest(body.json).Some? && c.Converted? then
        && row.state == Succeeded && row.errorMessage == None
        && row.markdownPath == Some(c.prefix + ".md") && row.chunksPath == Some(c.prefix + ".json")
        && row.tokensUsed == Some(c.tokens) && row.charsUsed == Some(c.chars) && row.chunkCount == Some(c.chunks)
      else
        && row.state == Failed && row.errorMessage == Some(WhyFailed(body, parseError, c))
        && row.markdownPath == None && row.chunksPath == None
        && row.tokensUsed == Some(0) && row.charsUsed == Some(0) && row.chunkCount == Some(0)
  {
    hide ParseRequest, MalformedId, AllSpace;
    EveryJobIsAnswered(body, deliveryId, parseError, c);
  }

  /** The same for the embedding and the LLM columns. */
  lemma EmbeddingReachesTheRow(body: Body, deliveryId: string, parseError: string, e: Embedding, jobs: map<JobId, Row>, now: Time)
    requires LlmRequestOf(body, deliveryId).extractJobId in jobs
    ensures var r := HandleLlmJob(body, deliveryId, parseError, e);
      var row := Apply(jobs, LlmMsg(r), now)[LlmRequestOf(body, deliveryId).extractJobId].llm;
      if ParseLlmRequest(body.json).Some? && e.Embedded? then
        && row.state == Some(Succeeded) && row.errorMessage == None
        && row.provider == Some(e.provider) && row.artifactPath == Some(e.artifactPath)
        && row.chunkCount == Some(e.chunks) && row.vectorCount == Some(e.vectors)
      else
        && row.state == Some(Failed) && row.provider == Some("") && row.artifactPath == None
        && row.chunkCount == Some(0) && row.vectorCount == Some(0)
        && row.errorMessage == Some(if ParseLlmRequest(body.json).None? then parseError else e.message)
  {
    assert ParseLlmRequest(body.json).Some? ==> ParseLlmRequest(body.json).value.extractJobId != "";
    hide ParseLlmRequest, MalformedId;
  }

  /** What the delivery's id is for: two deliveries of the same malformed bytes are answered for two different jobs. */
  lemma MalformedDeliveriesDiffer(body: Body, first: string, second: string)
    requires ParseRequest(body.json).None? && !AllSpace(first) && !AllSpace(second) && Strip(first) != Strip(second)
    ensures RequestOf(body, first).jobId != RequestOf(body, second).jobId
    ensures forall id :: id == first || id == second ==> "malformed-" + body.digest + "-" <= RequestOf(body, id).jobId
  {
    hide AllSpace, Strip, ParseRequest;
    var head := "malformed-" + body.digest + "-";
    var a, b := head + Strip(first), head + Strip(second);
    AppendAssoc("malformed-" + body.digest, "-", Strip(first));
    AppendAssoc("malformed-" + body.digest, "-", Strip(second));
    assert a[|head|..] == Strip(first) && b[|head|..] == Strip(second);
  }
}
