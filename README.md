# WhatsApp VeEX bot — a verified model of its message handling

The bot answers WhatsApp messages relayed by a Twilio webhook. A message that
starts with a 20-digit Job ID triggers a lookup on the VeEX portal: a browser logs in,
finds the job's row in the results table, and turns the row into a job dictionary,
which is formatted into a reply. Any other message gets a rule-based conversational
answer. Replies go out through a sender that validates the recipient, truncates the
body to WhatsApp's 1600-character limit, and retries failed REST calls.

The Dafny modules follow the program's files:

- `Wrappers`, `Text`, `Dicts`, `Records`: the Python building blocks the code relies on.
  `Text` has `str.strip`, `split`, `in` on strings, `lower` and `isdigit`. `Dicts` has
  insertion-ordered `dict`s. `Records` has the job dictionary.
- `Scraper` (app/scraper.py): the row search, the positional fields, the verdict and the
  components of `parse_job_html`; `extract_detailed_status`; the selector fallback loops
  of the login form; and the guard in `get_job_info`.
- `Utils` (app/utils.py): `validate_job_id`, `chunk_message`, `format_job_response`, and
  the branch selection of `handle_general_query`.
- `TwilioClient` (app/twilio_client.py): `send_whatsapp_message` and `validate_twilio_config`.
- `Webhook` (main.py): the routing of `/webhook` and the ordered list of replies it sends.

Loops and sequences of side effects in the source are methods, with loop invariants
where they loop. Every method is proved equal to a specification function, and the
properties are lemmas about those functions:

| method | specification function |
|---|---|
| `Scraper.FindRowByCell` | `Scraper.FirstIndex` over the rows with a matching cell |
| `Scraper.FindRowByText` | `Scraper.FirstIndex` over the rows whose text matches |
| `Scraper.FindJobRow` | `Scraper.LocateRow` |
| `Scraper.CollectAbbrevComponents` | `Scraper.AbbrevComponents` |
| `Scraper.ParseJobHtml` | `Scraper.ParsedJob` |
| `Scraper.ExtractDetailedStatus` | `Scraper.DetailedComponents` |
| `Scraper.ResolveSelector` | `Scraper.FirstIndex` over the usable selectors |
| `Scraper.FillLoginForm` | `Scraper.LoginForm` |
| `Utils.ChunkMessage` | `Utils.Chunks` |
| `Utils.FormatJobResponse` | `Utils.JobResponse` |
| `TwilioClient.SendWhatsAppMessage` | `TwilioClient.SendOutcome` and `TwilioClient.Transmissions` |
| `Webhook.HandleWebhook` | `Webhook.WebhookOutcome` |
| `Webhook.HandlePost` | `Webhook.PostOutcome` |
| `Webhook.Greet` | `Webhook.GreetingOutcome` |
| `Webhook.LookUp` | `Webhook.LookupOutcome` |
| `Webhook.Converse` | `Webhook.ChatOutcome` |

Outside input is a parameter:

- the parsed HTML, as rows of cells, each a sequence of text nodes;
- the page's status element texts;
- which selectors attach and are visible, and what filling a field or pressing Enter on it raises;
- the outcome of the browser search;
- the environment settings;
- the clock's formatted readings;
- the outcome of each REST attempt.

Notes on the code's behaviour:

- The status cell is read only for its text nodes (app/scraper.py:102-116). A stripped text node that is one of seven abbreviations becomes a component marked Passed. Otherwise the five defaults are used.
- A row with fewer than ten cells is a failure, "Incomplete data for Job ID …" (app/scraper.py:70-72).
- The handler does not always answer with HTTP 200. The sends at main.py:39, 51 and 66 are outside any `try`, and so is the apology's send at main.py:81 inside the `except` (main.py:78-82). A send that raises there makes the exception escape the handler. Without a Twilio client, every POST fails this way (`Webhook.NoClientFailsEveryPost`).
- `get_job_info` catches the search's exceptions itself (app/scraper.py:366-370). So the `except` branch of the lookup in main.py:61-63 is never taken. A crashed search reaches the user as the "not found" text of main.py:59 (`Webhook.LookupFailuresLookNotFound`).
- `"PASS" if "Pass" in status_text else status_text` (app/scraper.py:99) gives "PASS" also for a status text that already is "PASS".
- Flask routes HEAD requests to a view that accepts GET. The view tests `request.method == "GET"` (main.py:29), so a HEAD takes the POST path with an empty form. It sends the greeting to a missing recipient, and the sender's exception escapes (`Webhook.HeadTakesPostPath`).

## Model

| member | source | states |
|---|---|---|
| Text.StripSpec | app/utils.py:56 | `strip()` gives the empty string exactly for an all-blank string; otherwise the result starts and ends with a non-blank character |
| Text.FirstWord | main.py:43 | `split()[0]` has no blank character; it is empty exactly when the string is all blank, where Python raises IndexError instead (main.py:37-40 rules this out before the call) |
| Text.FirstWordSpec | main.py:43 | the first word is the leading token: a blank prefix, then the word, then a blank or the end of the string |
| Text.JoinSplit | app/utils.py:148 | joining the pieces of `split('\n')` with newlines gives back the message |
| Text.NatToStringRoundTrip | app/utils.py:135 | the decimal text of a length is all digits and reads back as that length |
| Dicts.Put | app/scraper.py:108 | assigning `d[k] = v` keeps the key order (a new key goes last), makes `k` map to `v`, and leaves every other key's value alone |
| Dicts.AssignmentsLastWins | app/scraper.py:138-150 | a dictionary built by a loop of assignments lacks a key exactly when no assignment writes it; otherwise the key holds the last value written |
| Scraper.FirstIndex | app/scraper.py:37-56 | the index returned satisfies the test and no earlier element does; none is returned only when no element satisfies it |
| Scraper.LocateRowIsFirstMatch | app/scraper.py:37-56 | the row chosen is the first row with a cell whose squashed text contains the ID; the row-text test decides only when no cell matches anywhere; no row is chosen exactly when neither test matches any row |
| Scraper.FindRowByCell | app/scraper.py:37-47 | the nested loops with break flags return the first row with a matching cell |
| Scraper.FindRowByText | app/scraper.py:50-56 | the loop returns the first row whose squashed row text contains the ID (`FirstIndex` of the matching rows), or none when no row does |
| Scraper.FindJobRow | app/scraper.py:33-56 | the two strategies in sequence choose the row `LocateRow` specifies |
| Scraper.JobFields | app/scraper.py:76-92 | the fourteen fields, in order, hold each cell's stripped text, or the default when the row has no such cell |
| Scraper.OverallStatusIsPass | app/scraper.py:98-99 | for `OverallStatus`, the verdict expression: it is "PASS" exactly when the status text holds "Pass" or is "PASS"; without "Pass" it is the status text verbatim |
| Scraper.AbbrevUpdates | app/scraper.py:103-108 | there is one update per text node, in document order, each the node's classification |
| Scraper.CollectAbbrevComponents | app/scraper.py:102-108 | the loop over text nodes builds the dictionary `AbbrevComponents` specifies |
| Scraper.AbbrevComponentsSpec | app/scraper.py:102-108 | the keys are exactly the stripped text nodes found among the seven abbreviations, each once, each mapped to Passed |
| Scraper.ComponentsSpec | app/scraper.py:102-116 | the components are the abbreviations found, all Passed, or exactly the five defaults when none is found |
| Scraper.ParseJobHtml | app/scraper.py:25-119 | `parse_job_html` as run, with its loops, gives `ParsedJob` |
| Scraper.ParsedJobFailures | app/scraper.py:58-72 | no matching row gives "Job ID … not found"; a row with fewer than ten cells gives "Incomplete data for Job ID …"; success holds exactly when a row is found with at least ten cells |
| Scraper.FieldNamesDistinct | app/scraper.py:76-92 | the fourteen field names are distinct, and none of them is "overall_status" |
| Scraper.JobFieldsLookup | app/scraper.py:76-92 | looking up any field name finds that field's cell text; the keys are unique and do not include "overall_status" |
| Scraper.ParsedJobFields | app/scraper.py:76-92 | on success, each field is its cell's stripped text or ""; fields 0 to 9 always come from cells |
| Scraper.ParsedJobStatus | app/scraper.py:95-116 | the verdict and the components are present exactly when the row has a fourteenth cell, and they are computed from that cell |
| Scraper.ClassifyStatusTextPriority | app/scraper.py:140-150 | for `ClassifyStatusText`: each of the five tiers (tap, gnb/bi, cpe, pressure, tdr) decides when no earlier tier's keyword occurs; there is no result exactly for an empty text or one without any keyword; "pass" decides Passed; the other value is Failed or Missing, depending on the component |
| Scraper.StatusUpdates | app/scraper.py:138-150 | there is one classification per status element, in page order |
| Scraper.ExtractDetailedStatus | app/scraper.py:133-152 | the loop over status elements builds `DetailedComponents` |
| Scraper.DetailedComponentsLastWins | app/scraper.py:138-150 | a component is absent exactly when no element reports it; otherwise it holds the value of the last element that reports it |
| Scraper.ApplyDetailedStatus | app/scraper.py:334-337 | the detailed components replace the parsed ones only after a successful parse and only when non-empty; nothing else changes |
| Scraper.ResolveSelector | app/scraper.py:211-222 | the loop returns the first selector, in declared order, that attaches and is visible (`FirstIndex` of the usable selectors), or none exactly when no selector is usable |
| Scraper.FillLoginForm | app/scraper.py:200-264 | the `try` as run (find the username field, fill it, find the password field, fill it, press Enter) gives `LoginForm` |
| Scraper.FirstUsableSpec | app/scraper.py:211-222 | the field a selector list finds is its first usable selector, and none exactly when no selector is usable |
| Scraper.LoginFormFilled | app/scraper.py:200-260 | the form is filled exactly when both lists have a usable selector and neither fill nor the Enter press raises on the fields found; those fields are usable selectors of their lists |
| Scraper.LoginFormErrors | app/scraper.py:224-264 | a missing username field fails before any fill; a raising username fill fails before the password search; then a missing password field, a raising password fill and a raising Enter press fail in that order; each failure is "Failed to fill login form: " followed by the missing field's text or the exception's text |
| Scraper.GetJobInfo | app/scraper.py:354-370 | missing credentials give the fixed failure; with both credentials, a completed search's dictionary is returned unchanged and a crash becomes "Error fetching job data: …"; success means the search completed with that job |
| Scraper.GetJobInfoSkipsSearch | app/scraper.py:359-364 | without both credentials the result does not depend on the search, and it is a failure |
| Utils.ValidateJobId | app/utils.py:123-137 | the result is valid exactly for 20 ASCII digits, and the error message is empty exactly when valid |
| Utils.ValidateJobIdErrors | app/utils.py:128-135 | the checks run in order (empty, then non-digits, then length); the length message quotes `str(len(job_id))`: digits with no leading zero that read back as the length |
| Utils.ChunkMessage | app/utils.py:140-162 | the line loop with its `current_chunk` accumulator gives `Chunks` |
| Utils.GroupLinesFlatten | app/utils.py:151-157 | the grouping neither drops, repeats nor reorders lines |
| Utils.GroupLinesNonEmpty | app/utils.py:155-157 | no chunk comes from an empty group of lines |
| Utils.GroupLinesBound | app/utils.py:152-153 | when each line plus its newline fits, each group's text fits in max_length |
| Utils.ChunksSpec | app/utils.py:140-162 | a message that fits is returned alone and unchanged; a longer one is cut at line boundaries into stripped, non-empty runs that are, in order, exactly its lines; with no over-long line, no chunk exceeds max_length |
| Utils.StripGroups | app/utils.py:156-160 | each chunk is the stripped text of its group |
| Utils.FormatJobResponse | app/utils.py:8-48 | the `+=` loop over the components gives `JobResponse` |
| Utils.JobResponseFailure | app/utils.py:13-14 | a corollary that unfolds the failure branch, proved without a body: a failure is answered with its message after a cross, or "Job not found" when it has none (the substantive claims are `FormatJobResponse` and `SuccessHeaderFields`) |
| Utils.JobResponseSuccess | app/utils.py:17-46 | a corollary that unfolds the success branch, proved without a body: a success is the header followed by one line per component, or by the five default lines when the components are missing or empty (the substantive claims are `FormatJobResponse` and `SuccessHeaderFields`) |
| Utils.SuccessHeaderFields | app/utils.py:17-31 | every header label is followed by the dictionary's value or its default: the requested ID, "COAX", or "N/A" |
| Utils.SuccessHeaderAnnouncesPass | app/utils.py:19 | every successful reply says "Overall Status: PASS ✅", whatever the job's verdict |
| Utils.ComponentLinesSplit | app/utils.py:37-39 | with no newline in names or statuses, the component text has exactly one line per component, in dictionary order |
| Utils.FirstTopicSpec | app/utils.py:56-113 | a keyword table dispatch picks the first entry whose keywords occur, and the default only when none occurs |
| Utils.QueryTopicIsFirstMatch | app/utils.py:59-109 | the if-chain over keyword lists is that first-match dispatch over the table, in source order |
| Utils.ReplyInputs | app/utils.py:59-120 | only the date and time replies depend on the clock, and only the default reply depends on the query |
| Utils.ReplyShowsClock | app/utils.py:60-73 | the date reply contains the date, and the time reply contains the time |
| Utils.ReplyEchoesQuery | app/utils.py:113 | the default reply starts by quoting the query as sent, before lower-casing |
| Utils.HandleGeneralQuerySpec | app/utils.py:51-120 | for `HandleGeneralQuery`: the reply is that of the first keyword-table entry found in the lower-cased, stripped query; the date reply shows the date, the time reply the time, and the default reply quotes the query |
| TwilioClient.ValidateTwilioConfig | app/twilio_client.py:82-99 | the config is valid exactly when SID, token and sender number are set and the client was built; the message is the success message exactly then |
| TwilioClient.ValidateTwilioConfigOrder | app/twilio_client.py:87-97 | the checks run in the order SID, token, sender number, client, and the first failing one is reported |
| TwilioClient.OutgoingBodyLimit | app/twilio_client.py:50-51 | for `OutgoingBody`: no body longer than 1600 characters is sent; a longer body becomes exactly 1600 characters keeping its first 1597; the truncation is idempotent |
| TwilioClient.RetryNone | app/twilio_client.py:54-79 | the sender gives `None` after the loop only when `max_retries <= 0` |
| TwilioClient.RetryFirstDelivery | app/twilio_client.py:54-65 | the first attempt that gets through decides the SID, and no attempt follows it |
| TwilioClient.RetryAllFail | app/twilio_client.py:67-73 | when every attempt fails, all `max_retries` attempts are made and the last failure is re-raised |
| TwilioClient.AttemptsSpec | app/twilio_client.py:54-77 | at most `max_retries` attempts are made, all but the last one made fail, a SID comes from the last attempt made, and an exception only after the full count |
| TwilioClient.SendGuards | app/twilio_client.py:36-47 | no client raises RuntimeError before anything else; a recipient that is missing or lacks the "whatsapp:" prefix raises ValueError quoting it; an all-blank body returns `None`; nothing is transmitted exactly when a guard stops the send or `max_retries <= 0` |
| TwilioClient.SendWhatsAppMessage | app/twilio_client.py:24-79 | the guards, the truncation and the retry loop give `SendOutcome`, and one copy of the truncated body per attempt goes out |
| Webhook.RouteOfSpec | main.py:37-47 | for `RouteOf`: a greeting happens exactly for a blank body, and a lookup exactly when the first word passes `validate_job_id`; the Job ID is the stripped body's leading token; otherwise the route is a chat about the stripped body |
| Webhook.FirstWordOfStripped | main.py:43 | the first word of a stripped body is its leading token, ended by a blank or the end |
| Webhook.LookupReplySpec | main.py:53-63 | the reply is the formatted job on success, the not-found text with the ID on failure, and the error text with the exception on an exception |
| Webhook.LookupFailuresLookNotFound | main.py:53-59 | a crashed search or missing credentials reach the user as the not-found text |
| Webhook.HandleWebhook | main.py:23-82 | the handler's sends, in order, and its answer are those of `WebhookOutcome`, for GET, HEAD and POST |
| Webhook.HandlePost | main.py:32-82 | the POST path, after stripping the body, is that of `PostOutcome` |
| Webhook.Greet | main.py:37-40 | the greeting branch sends the greeting and is `GreetingOutcome` |
| Webhook.LookUp | main.py:46-67 | the lookup branch sends the interim message, then the reply chosen from `get_job_info`, and is `LookupOutcome` |
| Webhook.Converse | main.py:69-82 | the chat branch sends the reply and, when that send raises, the apology, and is `ChatOutcome` |
| Webhook.GetIsProbe | main.py:29-30 | a corollary that unfolds the GET branch, proved without a body: a GET answers "webhook_online" and sends nothing (the substantive claim is `HandleWebhook`) |
| Webhook.BlankBodyGreets | main.py:37-40 | a blank body gets exactly the greeting, answered "no_body" unless the send raises |
| Webhook.JobIdIsLookedUp | main.py:43-67 | a lookup sends the interim message first; if that send goes through, exactly one reply follows, chosen from `get_job_info`; a 200 answer is "job_lookup_complete" after two sends |
| Webhook.FoundJobIsFormatted | main.py:56-57 | a successful lookup's reply is `format_job_response` of the job found |
| Webhook.OtherBodiesChat | main.py:69-82 | another body is answered by `handle_general_query` of the stripped body; "general_query_complete" exactly when that send does not raise; otherwise the apology follows |
| Webhook.NoClientFailsEveryPost | main.py:37-82 | without a Twilio client, every POST escapes with the sender's RuntimeError |
| Webhook.NoSenderFailsEveryPost | main.py:33-82 | a POST without `From` escapes with the sender's ValueError |
| Webhook.HeadTakesPostPath | main.py:29-40 | a HEAD request sends the greeting to no recipient, and the sender's RuntimeError or ValueError escapes |
| Webhook.StatusesOfWebhook | main.py:23-82 | every 200 answer carries one of the five statuses, and every request but a GET sends one or two messages |

## Left out

- Playwright browser automation in `playwright_search` (app/scraper.py:161-348), apart from the login-form step (the two selector loops, the fills and the Enter press): launching, navigation, waits, login verification, clicking "View Result List", the direct-URL fallback, the search box and closing the browser. It is live-browser I/O. Its result enters the model as the given `SearchOutcome`.
- HTML parsing by BeautifulSoup/lxml. Rows, cells, text nodes and status element texts are given as sequences of strings.
- Logging, `load_dotenv` and `os.getenv`. The settings are parameters.
- The debug HTML dump (app/scraper.py:324-329). It is file I/O.
- The `except` branches of `parse_job_html` and `extract_detailed_status` (app/scraper.py:121-123, 153-155). Nothing in the modelled code raises.
- The Twilio REST call and `time.sleep`. Each attempt's outcome is the given `network` function, and the pause between attempts is not modelled.
- Flask, `jsonify`, the `/health` route and the `service` field of the GET answer. A response is its status, or the exception that escaped.
- Text.FirstWord: on an all-blank string it gives "" where Python's `split()[0]` raises IndexError; the only call site, main.py:43, is reached only for a non-blank body (main.py:37-40).
- OPTIONS requests are answered by Flask itself without calling the view, so they are not modelled.
- `chunk_message` is modelled on its own. The webhook does not call it in the source either.
- Text.Lower: only ASCII letters are lower-cased; Python's `str.lower` covers all of Unicode.
- Text.IsDigitString: only ASCII '0'-'9' count as digits; Python's `str.isdigit` also accepts other Unicode digits. The same narrowing applies to `Utils.ValidateJobId` and `Webhook.RouteOf`.
- Utils.HandleGeneralQuery: the clock's readings (`strftime` of `datetime.now()`) are given as strings in a `Clock`; their format is not modelled.
- Webhook.OtherBodiesChat: `handle_general_query` is total in the model, so the apology follows only a raising send, never a raising query handler.
- Webhook.LookupReplySpec: the `Threw` case models main.py:61-63, but the handler never takes it, because `get_job_info` returns a failure instead of raising.
