/**
 * The outbound WhatsApp sender: the guards in front of a send, the truncation
 * to the 1600-character limit, and the bounded retry loop. The Twilio REST call
 * is an oracle saying what each attempt gives back.
 */
module TwilioClient {
  import opened Wrappers
  import opened Text
  import opened Records

  /** The environment settings, and whether constructing the REST client at import time raised. */
  datatype Settings = Settings(
    accountSid: Option<string>,
    authToken: Option<string>,
    whatsappNumber: Option<string>,
    clientFails: bool)

  /** The module-level `client` exists: both credentials are set and the constructor did not raise. */
  predicate HasClient(s: Settings) {
    Configured(s.accountSid) && Configured(s.authToken) && !s.clientFails
  }

  // ---------------------------------------------------------------------------
  // validate_twilio_config
  // ---------------------------------------------------------------------------

  /** `validate_twilio_config()`: the first missing item, in the order SID, token, sender number, client. */
  function ValidateTwilioConfig(s: Settings): (r: (bool, string))
    ensures r.0 <==> Configured(s.accountSid) && Configured(s.authToken) && Configured(s.whatsappNumber) && !s.clientFails
    ensures r.0 <==> HasClient(s) && Configured(s.whatsappNumber)
    ensures r.0 <==> r.1 == "Twilio configuration is valid"
  {
    if !Configured(s.accountSid) then (false, "TWILIO_ACCOUNT_SID not configured")
    else if !Configured(s.authToken) then (false, "TWILIO_AUTH_TOKEN not configured")
    else if !Configured(s.whatsappNumber) then (false, "TWILIO_WHATSAPP_NUMBER not configured")
    else if !HasClient(s) then (false, "Twilio client failed to initialize")
    else (true, "Twilio configuration is valid")
  }

  /** The checks run in the order SID, token, sender number, client: the first one that fails is the one reported. */
  lemma ValidateTwilioConfigOrder(s: Settings)
    ensures !Configured(s.accountSid) ==> ValidateTwilioConfig(s) == (false, "TWILIO_ACCOUNT_SID not configured")
    ensures Configured(s.accountSid) && !Configured(s.authToken) ==>
      ValidateTwilioConfig(s) == (false, "TWILIO_AUTH_TOKEN not configured")
    ensures Configured(s.accountSid) && Configured(s.authToken) && !Configured(s.whatsappNumber) ==>
      ValidateTwilioConfig(s) == (false, "TWILIO_WHATSAPP_NUMBER not configured")
    ensures Configured(s.accountSid) && Configured(s.authToken) && Configured(s.whatsappNumber) && s.clientFails ==>
      ValidateTwilioConfig(s) == (false, "Twilio client failed to initialize")
    ensures ValidateTwilioConfig(s).1 == "Twilio client failed to initialize" <==>
      Configured(s.accountSid) && Configured(s.authToken) && Configured(s.whatsappNumber) && s.clientFails
  {
  }

  // ---------------------------------------------------------------------------
  // send_whatsapp_message
  // ---------------------------------------------------------------------------

  /** What one `client.messages.create` call gives back: the new message's SID, or the exception's text. */
  datatype Attempt = Delivered(sid: string) | Failed(error: string)

  /** The exceptions `send_whatsapp_message` lets escape. */
  datatype SendError = RuntimeError(message: string) | ValueError(message: string) | TransportError(message: string)

  /** `send_whatsapp_message`'s outcome: a SID, `None`, or an exception. */
  datatype SendResult = Sent(sid: string) | NotSent | Raised(error: SendError)

  const NoClientMessage: string := "Twilio client not configured. Set TWILIO_ACCOUNT_SID and TWILIO_AUTH_TOKEN."

  /** Python's `f"{to_number}"` for an optional string. */
  function Show(value: Option<string>): string {
    match value
    case None => "None"
    case Some(v) => v
  }

  /** `if not to_number or not to_number.startswith("whatsapp:")`. */
  predicate BadRecipient(to: Option<string>) {
    !Configured(to) || !StartsWith(to.value, "whatsapp:")
  }

  /** `if not body or len(body.strip()) == 0`. */
  predicate BlankBody(body: string) {
    body == "" || |Strip(body)| == 0
  }

  /** The body handed to Twilio: cut to its first 1597 characters plus "..." when longer than 1600. */
  function OutgoingBody(body: string): string {
    if |body| > 1600 then body[..1597] + "..." else body
  }

  /** Nothing longer than 1600 characters is sent; a longer body becomes exactly 1600 characters keeping its first 1597, and a shorter one goes out unchanged. */
  lemma OutgoingBodyLimit(body: string)
    ensures |OutgoingBody(body)| <= 1600
    ensures |body| > 1600 ==> |OutgoingBody(body)| == 1600 && OutgoingBody(body) == body[..1597] + "..."
    ensures |body| <= 1600 ==> OutgoingBody(body) == body
    ensures OutgoingBody(OutgoingBody(body)) == OutgoingBody(body)
  {
  }

  /** The retry loop from attempt `attempt` on: the first delivery wins; a failure of the last attempt is re-raised. */
  function Retry(network: nat -> Attempt, attempt: nat, maxRetries: int): SendResult
    decreases maxRetries - attempt
  {
    if attempt >= maxRetries then NotSent
    else match network(attempt)
      case Delivered(sid) => Sent(sid)
      case Failed(e) => if attempt == maxRetries - 1 then Raised(TransportError(e)) else Retry(network, attempt + 1, maxRetries)
  }

  /** How many attempts the retry loop makes from attempt `attempt` on. */
  function Attempts(network: nat -> Attempt, attempt: nat, maxRetries: int): nat
    decreases maxRetries - attempt
  {
    if attempt >= maxRetries then 0
    else if network(attempt).Delivered? || attempt == maxRetries - 1 then 1
    else 1 + Attempts(network, attempt + 1, maxRetries)
  }

  /** `send_whatsapp_message(to_number, body, max_retries)`. */
  function SendOutcome(s: Settings, to: Option<string>, body: string, maxRetries: int, network: nat -> Attempt): SendResult {
    if !HasClient(s) then Raised(RuntimeError(NoClientMessage))
    else if BadRecipient(to) then Raised(ValueError("to_number must be in format 'whatsapp:+...' but got: " + Show(to)))
    else if BlankBody(body) then NotSent
    else Retry(network, 0, maxRetries)
  }

  /** The bodies handed to Twilio, one per attempt. */
  function Transmissions(s: Settings, to: Option<string>, body: string, maxRetries: int, network: nat -> Attempt): seq<string> {
    if !HasClient(s) || BadRecipient(to) || BlankBody(body) then []
    else seq(Attempts(network, 0, maxRetries), _ => OutgoingBody(body))
  }

  /** The loop returns `None` only when it makes no attempt at all: with `max_retries` at most zero. */
  lemma {:induction false} RetryNone(network: nat -> Attempt, attempt: nat, maxRetries: int)
    ensures Retry(network, attempt, maxRetries) == NotSent <==> attempt >= maxRetries
    decreases maxRetries - attempt
  {
    if attempt < maxRetries && network(attempt).Failed? && attempt != maxRetries - 1 {
      RetryNone(network, attempt + 1, maxRetries);
    }
  }

  /** The first attempt that gets through decides the result: its SID is returned and no attempt follows it. */
  lemma {:induction false} RetryFirstDelivery(network: nat -> Attempt, attempt: nat, maxRetries: int, i: nat)
    requires attempt <= i < maxRetries && network(i).Delivered?
    requires forall j :: attempt <= j < i ==> network(j).Failed?
    ensures Retry(network, attempt, maxRetries) == Sent(network(i).sid)
    ensures Attempts(network, attempt, maxRetries) == i - attempt + 1
    decreases i - attempt
  {
    if attempt < i {
      RetryFirstDelivery(network, attempt + 1, maxRetries, i);
    }
  }

  /** When every attempt fails, all `max_retries` are made and the last failure is re-raised. */
  lemma {:induction false} RetryAllFail(network: nat -> Attempt, attempt: nat, maxRetries: int)
    requires attempt < maxRetries
    requires forall i :: attempt <= i < maxRetries ==> network(i).Failed?
    ensures Retry(network, attempt, maxRetries) == Raised(TransportError(network(maxRetries - 1).error))
    ensures Attempts(network, attempt, maxRetries) == maxRetries - attempt
    decreases maxRetries - attempt
  {
    if attempt < maxRetries - 1 {
      RetryAllFail(network, attempt + 1, maxRetries);
    }
  }

  /**
   * Conversely: every attempt but the last one made failed, a SID comes from the last
   * attempt made, and an exception only after all `max_retries` attempts, the last one failing.
   */
  lemma {:induction false} AttemptsSpec(network: nat -> Attempt, attempt: nat, maxRetries: int)
    ensures attempt < maxRetries ==> 1 <= Attempts(network, attempt, maxRetries) <= maxRetries - attempt
    ensures attempt >= maxRetries ==> Attempts(network, attempt, maxRetries) == 0
    ensures forall i :: attempt <= i < attempt + Attempts(network, attempt, maxRetries) - 1 ==> network(i).Failed?
    ensures Retry(network, attempt, maxRetries).Sent? ==>
      network(attempt + Attempts(network, attempt, maxRetries) - 1) == Delivered(Retry(network, attempt, maxRetries).sid)
    ensures Retry(network, attempt, maxRetries).Raised? ==>
      attempt + Attempts(network, attempt, maxRetries) == maxRetries && network(maxRetries - 1).Failed?
    decreases maxRetries - attempt
  {
    if attempt < maxRetries && network(attempt).Failed? && attempt != maxRetries - 1 {
      AttemptsSpec(network, attempt + 1, maxRetries);
    }
  }

  /**
   * The guards apply in order and stop everything after them: without a client nothing
   * else is looked at, a recipient that is missing or lacks the "whatsapp:" prefix is
   * refused before the body is read, and an
   * all-blank body is skipped; none of them makes an attempt.
   */
  lemma SendGuards(s: Settings, to: Option<string>, body: string, maxRetries: int, network: nat -> Attempt)
    ensures !HasClient(s) ==> SendOutcome(s, to, body, maxRetries, network) == Raised(RuntimeError(NoClientMessage))
    ensures HasClient(s) && BadRecipient(to) ==>
      SendOutcome(s, to, body, maxRetries, network) == Raised(ValueError("to_number must be in format 'whatsapp:+...' but got: " + Show(to)))
    ensures HasClient(s) && !BadRecipient(to) && (forall i :: 0 <= i < |body| ==> IsSpace(body[i])) ==>
      SendOutcome(s, to, body, maxRetries, network) == NotSent
    ensures Transmissions(s, to, body, maxRetries, network) == [] <==>
      !HasClient(s) || BadRecipient(to) || BlankBody(body) || maxRetries <= 0
  {
    StripSpec(body);
    AttemptsSpec(network, 0, maxRetries);
  }

  /** `send_whatsapp_message` as it runs: the guards, the truncation that reassigns `body`, and the `for attempt in range(max_retries)` loop. */
  method SendWhatsAppMessage(s: Settings, to: Option<string>, body: string, maxRetries: int, network: nat -> Attempt)
    returns (result: SendResult, transmitted: seq<string>)
    ensures result == SendOutcome(s, to, body, maxRetries, network)
    ensures transmitted == Transmissions(s, to, body, maxRetries, network)
  {
    transmitted := [];
    if !HasClient(s) {
      return Raised(RuntimeError(NoClientMessage)), transmitted;
    }
    if !Configured(to) || !StartsWith(to.value, "whatsapp:") {
      return Raised(ValueError("to_number must be in format 'whatsapp:+...' but got: " + Show(to))), transmitted;
    }
    if body == "" || |Strip(body)| == 0 {
      return NotSent, transmitted;
    }
    var text := body;
    if |text| > 1600 {
      text := text[..1597] + "...";
    }
    var attempt := 0;
    while attempt < maxRetries
      invariant 0 <= attempt && (attempt <= maxRetries || maxRetries <= 0)
      invariant forall j :: 0 <= j < attempt ==> network(j).Failed?
      invariant attempt < maxRetries || attempt == 0
      invariant Retry(network, 0, maxRetries) == Retry(network, attempt, maxRetries)
      invariant Attempts(network, 0, maxRetries) == attempt + Attempts(network, attempt, maxRetries)
      invariant transmitted == seq(attempt, _ => text)
      decreases maxRetries - attempt
    {
      transmitted := transmitted + [text];
      match network(attempt)
      case Delivered(sid) =>
        assert transmitted == seq(attempt + 1, _ => text);
        return Sent(sid), transmitted;
      case Failed(e) =>
        if attempt == maxRetries - 1 {
          assert transmitted == seq(attempt + 1, _ => text);
          return Raised(TransportError(e)), transmitted;
        }
      attempt := attempt + 1;
    }
    result := NotSent;
  }
}
