/**
 * The `/webhook` endpoint: a GET is a liveness probe; a POST with a WhatsApp message
 * is answered either by a job lookup (when it starts with a 20-digit Job ID) or by the
 * conversational replies. The replies are the sequence of bodies handed to the sender
 * in order; a send that raises outside a `try` escapes the handler (an HTTP 500).
 */
module Webhook {
  import opened Wrappers
  import opened Text
  import opened Records
  import opened Scraper
  import opened Utils
  import opened TwilioClient

  /**
   * The incoming request: its method and, for a POST, the optional `From` and `Body` form
   * fields. Flask also routes HEAD to a view that accepts GET; the view tests only for
   * "GET", so a HEAD, which carries no form, takes the POST path.
   */
  datatype Request = Get | Head | Post(from: Option<string>, body: Option<string>)

  /** The handler's answer: a JSON body with HTTP 200 and its `status`, or an exception escaping it. */
  datatype Response = Ok(status: string) | Unhandled(error: SendError)

  /**
   * Everything outside the handler: the Twilio settings, the VeEX credentials, what the
   * browser search gives back, the clock, and the REST outcome of each attempt of each send
   * call (`network(call)(attempt)`).
   */
  datatype Environment = Environment(
    twilio: Settings,
    veexUsername: Option<string>,
    veexPassword: Option<string>,
    search: SearchOutcome,
    clock: Clock,
    network: nat -> nat -> Attempt)

  /** `send_whatsapp_message`'s default `max_retries`. */
  const MaxRetries: int := 3

  const GreetingText: string :=
    "👋 Hi! I can help you with:\n\n1\U{FE0F}\U{20E3} Job lookups - Send me a 20-digit Job ID\n2\U{FE0F}\U{20E3} General questions - Ask me anything!\n\nWhat would you like to know?"

  const ApologyText: string := "⚠\U{FE0F} Sorry, I encountered an error processing your question. Please try again."

  function SearchingText(jobId: string): string {
    "🔍 Searching for Job ID: " + jobId + "\n⏳ Please wait..."
  }

  function NotFoundText(jobId: string): string {
    "❌ Job ID " + jobId + " not found or no data available.\n\nPlease check the Job ID and try again."
  }

  function FetchErrorText(error: string): string {
    "⚠\U{FE0F} Error fetching job data:\n" + error + "\n\nPlease try again later."
  }

  // ---------------------------------------------------------------------------
  // Classifying the message
  // ---------------------------------------------------------------------------

  /** What the handler does with a message body. */
  datatype Route = Greeting | Lookup(jobId: string) | Chat(text: string)

  /** `body.strip()` is empty: greet; its first word is 20 digits: look that Job ID up; otherwise chat about the stripped body. */
  function RouteOf(body: string): Route {
    var text := Strip(body);
    if text == [] then Greeting
    else
      var word := FirstWord(text);
      if IsDigitString(word) && |word| == 20 then Lookup(word) else Chat(text)
  }

  /** A string that starts with a non-blank character is its own first word's prefix, and the word ends at a blank or at the end. */
  lemma FirstWordOfStripped(t: string)
    requires t != [] && !IsSpace(t[0])
    ensures FirstWord(t) != [] && StartsWith(t, FirstWord(t))
    ensures |FirstWord(t)| == |t| || IsSpace(t[|FirstWord(t)|])
  {
    assert TrimLeft(t) == t;
  }

  /**
   * The route is a greeting exactly for an all-blank body; a lookup exactly when the first
   * word passes `validate_job_id`, that word being the stripped body's leading token (later
   * words are ignored); otherwise a chat about the non-empty stripped body.
   */
  lemma RouteOfSpec(body: string)
    ensures RouteOf(body) == Greeting <==> forall i :: 0 <= i < |body| ==> IsSpace(body[i])
    ensures RouteOf(body).Lookup? <==> RouteOf(body) != Greeting && ValidateJobId(FirstWord(Strip(body))).0
    ensures RouteOf(body).Lookup? ==>
      var id := RouteOf(body).jobId;
      ValidateJobId(id) == (true, "") && StartsWith(Strip(body), id) &&
      (|Strip(body)| == 20 || IsSpace(Strip(body)[20]))
    ensures RouteOf(body).Chat? ==> RouteOf(body).text == Strip(body) && RouteOf(body).text != []
  {
    StripSpec(body);
    var t := Strip(body);
    if t != [] {
      FirstWordOfStripped(t);
    }
  }

  // ---------------------------------------------------------------------------
  // Choosing the lookup's reply
  // ---------------------------------------------------------------------------

  /** What the `try` around `get_job_info` yields: the returned dictionary, or the text of an exception. */
  datatype LookupResult = Returned(job: JobData) | Threw(error: string)

  /** The lookup's reply: the formatted job on success, the not-found text on failure, the error text on an exception. */
  function LookupReply(jobId: string, result: LookupResult): string {
    match result
    case Returned(job) => if job.success then JobResponse(jobId, job) else NotFoundText(jobId)
    case Threw(e) => FetchErrorText(e)
  }

  /** The three replies and what each carries: the formatted job, or the Job ID, or the exception's text. */
  lemma LookupReplySpec(jobId: string, result: LookupResult)
    ensures result.Returned? && result.job.success ==> LookupReply(jobId, result) == JobResponse(jobId, result.job)
    ensures result.Returned? && !result.job.success ==>
      LookupReply(jobId, result) == NotFoundText(jobId) && Contains(LookupReply(jobId, result), jobId)
    ensures result.Threw? ==> Contains(LookupReply(jobId, result), result.error)
  {
    if result.Returned? && !result.job.success {
      ContainsPiece("❌ Job ID ", jobId, " not found or no data available.\n\nPlease check the Job ID and try again.");
    }
    if result.Threw? {
      ContainsPiece("⚠\U{FE0F} Error fetching job data:\n", result.error, "\n\nPlease try again later.");
    }
  }

  /** The lookup as the handler runs it: `get_job_info` turns missing credentials and a crashed search into failures and itself never raises. */
  function RunLookup(env: Environment, jobId: string): LookupResult {
    Returned(GetJobInfo(env.veexUsername, env.veexPassword, env.search))
  }

  /**
   * Because `get_job_info` already catches the search's exceptions, a crashed search or
   * missing credentials reach the user as the not-found text, never as the error text.
   */
  lemma LookupFailuresLookNotFound(env: Environment, jobId: string)
    requires env.search.Crashed? || !Configured(env.veexUsername) || !Configured(env.veexPassword)
    ensures LookupReply(jobId, RunLookup(env, jobId)) == NotFoundText(jobId)
  {
  }

  // ---------------------------------------------------------------------------
  // The handler
  // ---------------------------------------------------------------------------

  /** Send call number `call` of this request, to `to` with `body`. */
  function Send(env: Environment, to: Option<string>, body: string, call: nat): SendResult {
    SendOutcome(env.twilio, to, body, MaxRetries, env.network(call))
  }

  /** The handler's answer and the bodies it hands to `send_whatsapp_message`, in order. */
  datatype Outcome = Outcome(response: Response, requested: seq<string>)

  /** The status after a last send: raised, the exception escapes; otherwise `status`. */
  function Finish(result: SendResult, status: string): Response {
    if result.Raised? then Unhandled(result.error) else Ok(status)
  }

  /** `webhook()`. */
  function WebhookOutcome(env: Environment, req: Request): Outcome {
    match req
    case Get => Outcome(Ok("webhook_online"), [])
    case Head => PostOutcome(env, None, None)
    case Post(from, body) => PostOutcome(env, from, body)
  }

  /** `webhook()` past its GET test, on the form fields `From` and `Body`. */
  function PostOutcome(env: Environment, from: Option<string>, body: Option<string>): Outcome {
    match RouteOf(body.GetOr(""))
    case Greeting => GreetingOutcome(env, from)
    case Lookup(id) => LookupOutcome(env, from, id)
    case Chat(text) => ChatOutcome(env, from, text)
  }

  /** The empty-body branch: the greeting, then "no_body". */
  function GreetingOutcome(env: Environment, from: Option<string>): Outcome {
    Outcome(Finish(Send(env, from, GreetingText, 0), "no_body"), [GreetingText])
  }

  /** The lookup branch: the interim message, then the reply chosen from `get_job_info`, then "job_lookup_complete". */
  function LookupOutcome(env: Environment, from: Option<string>, id: string): Outcome {
    var interim := Send(env, from, SearchingText(id), 0);
    if interim.Raised? then Outcome(Unhandled(interim.error), [SearchingText(id)])
    else
      var msg := LookupReply(id, RunLookup(env, id));
      Outcome(Finish(Send(env, from, msg, 1), "job_lookup_complete"), [SearchingText(id), msg])
  }

  /** The chat branch: the reply to the query; the apology and "error" when that send raises. */
  function ChatOutcome(env: Environment, from: Option<string>, text: string): Outcome {
    var reply := HandleGeneralQuery(text, env.clock);
    var first := Send(env, from, reply, 0);
    if !first.Raised? then Outcome(Ok("general_query_complete"), [reply])
    else Outcome(Finish(Send(env, from, ApologyText, 1), "error"), [reply, ApologyText])
  }

  /** `webhook()` as it runs: a GET is answered at once; anything else goes on as a POST with its form. */
  method HandleWebhook(env: Environment, req: Request) returns (response: Response, requested: seq<string>)
    ensures Outcome(response, requested) == WebhookOutcome(env, req)
  {
    if req.Get? {
      return Ok("webhook_online"), [];
    }
    var from, field := None, None;
    if req.Post? {
      from, field := req.from, req.body;
    }
    response, requested := HandlePost(env, from, field);
  }

  /** The POST path of `webhook()`: strip the body, then greet, look up or chat. */
  method HandlePost(env: Environment, from: Option<string>, field: Option<string>) returns (response: Response, requested: seq<string>)
    ensures Outcome(response, requested) == PostOutcome(env, from, field)
  {
    var body := Strip(field.GetOr(""));
    if body == [] {
      response, requested := Greet(env, from);
      return;
    }
    var firstWord := FirstWord(body);
    if IsDigitString(firstWord) && |firstWord| == 20 {
      response, requested := LookUp(env, from, firstWord);
    } else {
      response, requested := Converse(env, from, body);
    }
  }

  /** The greeting's send; each call to the sender appends its body to `requested` before it is made. */
  method Greet(env: Environment, from: Option<string>) returns (response: Response, requested: seq<string>)
    ensures Outcome(response, requested) == GreetingOutcome(env, from)
  {
    requested := [GreetingText];
    var sent, _ := SendWhatsAppMessage(env.twilio, from, GreetingText, MaxRetries, env.network(0));
    if sent.Raised? {
      return Unhandled(sent.error), requested;
    }
    return Ok("no_body"), requested;
  }

  /** The interim message outside the `try`, the lookup and its reply. */
  method LookUp(env: Environment, from: Option<string>, jobId: string) returns (response: Response, requested: seq<string>)
    ensures Outcome(response, requested) == LookupOutcome(env, from, jobId)
  {
    requested := [SearchingText(jobId)];
    var sent, _ := SendWhatsAppMessage(env.twilio, from, SearchingText(jobId), MaxRetries, env.network(0));
    if sent.Raised? {
      return Unhandled(sent.error), requested;
    }
    var msg;
    var data := GetJobInfo(env.veexUsername, env.veexPassword, env.search);
    if data.success {
      msg := FormatJobResponse(jobId, data);
    } else {
      msg := NotFoundText(jobId);
    }
    requested := requested + [msg];
    var delivered, _ := SendWhatsAppMessage(env.twilio, from, msg, MaxRetries, env.network(1));
    if delivered.Raised? {
      return Unhandled(delivered.error), requested;
    }
    return Ok("job_lookup_complete"), requested;
  }

  /** The reply to a general query inside the `try`, and the apology in its `except`. */
  method Converse(env: Environment, from: Option<string>, query: string) returns (response: Response, requested: seq<string>)
    ensures Outcome(response, requested) == ChatOutcome(env, from, query)
  {
    var reply := HandleGeneralQuery(query, env.clock);
    requested := [reply];
    var sent, _ := SendWhatsAppMessage(env.twilio, from, reply, MaxRetries, env.network(0));
    if !sent.Raised? {
      return Ok("general_query_complete"), requested;
    }
    requested := requested + [ApologyText];
    var apologized, _ := SendWhatsAppMessage(env.twilio, from, ApologyText, MaxRetries, env.network(1));
    if apologized.Raised? {
      return Unhandled(apologized.error), requested;
    }
    return Ok("error"), requested;
  }

  // ---------------------------------------------------------------------------
  // Properties of the handler
  // ---------------------------------------------------------------------------

  /** A GET sends nothing and reports the endpoint online. */
  lemma GetIsProbe(env: Environment)
    ensures WebhookOutcome(env, Get) == Outcome(Ok("webhook_online"), [])
  {
  }

  /** A blank body gets exactly the greeting, and no lookup or chat reply. */
  lemma BlankBodyGreets(env: Environment, from: Option<string>, body: Option<string>)
    requires forall i :: 0 <= i < |body.GetOr("")| ==> IsSpace(body.GetOr("")[i])
    ensures WebhookOutcome(env, Post(from, body)).requested == [GreetingText]
    ensures WebhookOutcome(env, Post(from, body)).response.Ok? ==>
      WebhookOutcome(env, Post(from, body)).response.status == "no_body"
  {
    RouteOfSpec(body.GetOr(""));
  }

  /**
   * A body whose first word passes `validate_job_id` is looked up under that word: the
   * interim message goes first and, when it could be handed over, exactly one reply follows,
   * chosen from what `get_job_info` returned.
   */
  lemma JobIdIsLookedUp(env: Environment, from: Option<string>, body: string)
    requires Strip(body) != [] && ValidateJobId(FirstWord(Strip(body))).0
    ensures var id := FirstWord(Strip(body));
      var o := WebhookOutcome(env, Post(from, Some(body)));
      o.requested[0] == SearchingText(id) &&
      (!Send(env, from, SearchingText(id), 0).Raised? ==>
        o.requested == [SearchingText(id), LookupReply(id, RunLookup(env, id))]) &&
      (o.response.Ok? ==> o.response.status == "job_lookup_complete" && |o.requested| == 2)
  {
    RouteOfSpec(body);
    var id := FirstWord(Strip(body));
    assert RouteOf(body) == Lookup(id);
    assert WebhookOutcome(env, Post(from, Some(body))) == LookupOutcome(env, from, id);
  }

  /** A successful lookup's reply is `format_job_response` of the job found. */
  lemma FoundJobIsFormatted(env: Environment, from: Option<string>, body: string)
    requires RouteOf(body).Lookup?
    requires Configured(env.veexUsername) && Configured(env.veexPassword)
    requires env.search.Completed? && env.search.job.success
    requires !Send(env, from, SearchingText(RouteOf(body).jobId), 0).Raised?
    ensures WebhookOutcome(env, Post(from, Some(body))).requested ==
      [SearchingText(RouteOf(body).jobId), JobResponse(RouteOf(body).jobId, env.search.job)]
  {
  }

  /**
   * Any other non-blank body is answered by `handle_general_query` on the stripped body;
   * only when that send raises is the apology sent, and the status is then `error`.
   */
  lemma OtherBodiesChat(env: Environment, from: Option<string>, body: string)
    requires Strip(body) != [] && !ValidateJobId(FirstWord(Strip(body))).0
    ensures var reply := HandleGeneralQuery(Strip(body), env.clock);
      var o := WebhookOutcome(env, Post(from, Some(body)));
      o.requested[0] == reply &&
      (o.response == Ok("general_query_complete") <==> !Send(env, from, reply, 0).Raised?) &&
      (Send(env, from, reply, 0).Raised? ==> o.requested == [reply, ApologyText]) &&
      (o.response.Ok? ==> o.response.status in {"general_query_complete", "error"})
  {
    RouteOfSpec(body);
  }

  /**
   * Without a Twilio client every POST escapes with the sender's RuntimeError, whichever
   * route it takes: the sends outside a `try` are not caught, and in the chat route the
   * apology's send raises again inside the `except`.
   */
  lemma NoClientFailsEveryPost(env: Environment, from: Option<string>, body: Option<string>)
    requires !HasClient(env.twilio)
    ensures WebhookOutcome(env, Post(from, body)).response == Unhandled(RuntimeError(NoClientMessage))
    ensures 1 <= |WebhookOutcome(env, Post(from, body)).requested| <= 2
  {
  }

  /** A POST without a `From` field fails the same way, with the sender's ValueError, once a client exists. */
  lemma NoSenderFailsEveryPost(env: Environment, body: Option<string>)
    requires HasClient(env.twilio)
    ensures WebhookOutcome(env, Post(None, body)).response.Unhandled?
    ensures WebhookOutcome(env, Post(None, body)).response.error.ValueError?
  {
  }

  /**
   * A HEAD request takes the POST path with an empty form: the greeting is sent to a
   * missing recipient, and the sender's exception escapes, RuntimeError without a client
   * and ValueError with one.
   */
  lemma HeadTakesPostPath(env: Environment)
    ensures WebhookOutcome(env, Head).requested == [GreetingText]
    ensures !HasClient(env.twilio) ==> WebhookOutcome(env, Head).response == Unhandled(RuntimeError(NoClientMessage))
    ensures HasClient(env.twilio) ==>
      WebhookOutcome(env, Head).response == Unhandled(ValueError("to_number must be in format 'whatsapp:+...' but got: None"))
  {
    assert Strip("") == [];
    assert WebhookOutcome(env, Head) == GreetingOutcome(env, None);
    assert Show(None) == "None";
    assert "to_number must be in format 'whatsapp:+...' but got: " + "None" == "to_number must be in format 'whatsapp:+...' but got: None";
  }

  /** Every 200 answer carries one of the handler's five statuses, and every request but a GET makes one or two sends. */
  lemma StatusesOfWebhook(env: Environment, req: Request)
    ensures WebhookOutcome(env, req).response.Ok? ==>
      WebhookOutcome(env, req).response.status in {"webhook_online", "no_body", "job_lookup_complete", "general_query_complete", "error"}
    ensures !req.Get? ==> 1 <= |WebhookOutcome(env, req).requested| <= 2
  {
  }
}
