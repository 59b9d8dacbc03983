/**
 * The message utilities: job-ID validation, splitting a long message into
 * chunks at line boundaries, the WhatsApp reply for a job dictionary, and the
 * keyword dispatch that answers general questions.
 */
module Utils {
  import opened Wrappers
  import opened Text
  import opened Dicts
  import opened Records

  // ---------------------------------------------------------------------------
  // validate_job_id
  // ---------------------------------------------------------------------------

  /** `validate_job_id`: `(True, "")` for a valid ID, otherwise `False` and the first rule it breaks. */
  function ValidateJobId(jobId: string): (r: (bool, string))
    ensures r.0 <==> IsDigitString(jobId) && |jobId| == 20
    ensures r.0 <==> r.1 == ""
  {
    if jobId == "" then (false, "Job ID cannot be empty")
    else if !IsDigitString(jobId) then (false, "Job ID must contain only numbers")
    else if |jobId| != 20 then (false, "Job ID must be exactly 20 digits (you sent " + NatToString(|jobId|) + " digits)")
    else (true, "")
  }

  /**
   * The rules are tried in order, emptiness first, then the digits, then the
   * length; the length message quotes the length of the ID sent in decimal,
   * without leading zeros, as `str(len(job_id))` writes it.
   */
  lemma ValidateJobIdErrors(jobId: string)
    ensures jobId == "" ==> ValidateJobId(jobId) == (false, "Job ID cannot be empty")
    ensures (exists i :: 0 <= i < |jobId| && !IsDigit(jobId[i])) ==>
      ValidateJobId(jobId) == (false, "Job ID must contain only numbers")
    ensures IsDigitString(jobId) && |jobId| != 20 ==>
      exists n: string :: IsDigitString(n) && (|n| > 1 ==> n[0] != '0') && DigitsValue(n) == |jobId| &&
        ValidateJobId(jobId) == (false, "Job ID must be exactly 20 digits (you sent " + n + " digits)")
  {
    var n := NatToString(|jobId|);
    NatToStringRoundTrip(|jobId|);
    if IsDigitString(jobId) && |jobId| != 20 {
      assert DigitsValue(n) == |jobId|;
    }
  }

  // ---------------------------------------------------------------------------
  // chunk_message
  // ---------------------------------------------------------------------------

  /** The lines of `group`, each followed by a newline. */
  function Lines(group: seq<string>): (r: string)
    ensures r == "" <==> group == []
    decreases |group|
  {
    if group == [] then "" else Lines(group[..|group| - 1]) + group[|group| - 1] + "\n"
  }

  /**
   * The greedy grouping of the lines in `rest`, continuing a group that already holds `group`:
   * a line joins the current group while the group's text plus the line and its newline fits
   * in `maxLength`; otherwise the current group is closed (when it holds anything) and the line
   * opens the next one.
   */
  function GroupLines(group: seq<string>, rest: seq<string>, maxLength: int): seq<seq<string>>
    decreases |rest|
  {
    if rest == [] then (if group != [] then [group] else [])
    else if |Lines(group)| + |rest[0]| + 1 <= maxLength then GroupLines(group + [rest[0]], rest[1..], maxLength)
    else (if group != [] then [group] else []) + GroupLines([rest[0]], rest[1..], maxLength)
  }

  /** Each group's text, stripped: the chunks. */
  function StripGroups(groups: seq<seq<string>>): (r: seq<string>)
    ensures |r| == |groups| && forall i :: 0 <= i < |groups| ==> r[i] == Strip(Lines(groups[i]))
    decreases |groups|
  {
    if groups == [] then [] else StripGroups(groups[..|groups| - 1]) + [Strip(Lines(groups[|groups| - 1]))]
  }

  /** The groups of lines a long message is cut into. */
  function ChunkGroups(message: string, maxLength: int): seq<seq<string>> {
    GroupLines([], Split(message, '\n'), maxLength)
  }

  /** `chunk_message(message, max_length)`. */
  function Chunks(message: string, maxLength: int): seq<string> {
    if |message| <= maxLength then [message] else StripGroups(ChunkGroups(message, maxLength))
  }

  /** `g1 + g2 + ...`: the lines of all groups, in order. */
  function Flatten(groups: seq<seq<string>>): seq<string>
    decreases |groups|
  {
    if groups == [] then [] else groups[0] + Flatten(groups[1..])
  }

  /** One step of the grouping, as the loop takes it: the line joins the open group, or the group is closed and the line opens the next. */
  lemma GroupLinesStep(groups: seq<seq<string>>, group: seq<string>, rest: seq<string>, maxLength: int)
    requires rest != []
    ensures |Lines(group)| + |rest[0]| + 1 <= maxLength ==>
      groups + GroupLines(group, rest, maxLength) == groups + GroupLines(group + [rest[0]], rest[1..], maxLength)
    ensures |Lines(group)| + |rest[0]| + 1 > maxLength && group != [] ==>
      groups + GroupLines(group, rest, maxLength) == (groups + [group]) + GroupLines([rest[0]], rest[1..], maxLength)
    ensures |Lines(group)| + |rest[0]| + 1 > maxLength && group == [] ==>
      groups + GroupLines(group, rest, maxLength) == groups + GroupLines([rest[0]], rest[1..], maxLength)
  {
  }

  /** Closing one more group adds its stripped text as one more chunk. */
  lemma StripGroupsSnoc(groups: seq<seq<string>>, group: seq<string>)
    ensures StripGroups(groups + [group]) == StripGroups(groups) + [Strip(Lines(group))]
  {
    assert (groups + [group])[..|groups|] == groups;
  }

  /** `chunk_message` as it runs: the loop over the lines with its `current_chunk` accumulator. */
  method ChunkMessage(message: string, maxLength: int) returns (chunks: seq<string>)
    ensures chunks == Chunks(message, maxLength)
  {
    if |message| <= maxLength {
      return [message];
    }
    chunks := [];
    var lines := Split(message, '\n');
    var currentChunk := "";
    ghost var group: seq<string> := [];
    ghost var groups: seq<seq<string>> := [];
    for i := 0 to |lines|
      invariant currentChunk == Lines(group)
      invariant chunks == StripGroups(groups)
      invariant GroupLines([], lines, maxLength) == groups + GroupLines(group, lines[i..], maxLength)
    {
      var line := lines[i];
      assert lines[i..][0] == line && lines[i..][1..] == lines[i + 1..];
      GroupLinesStep(groups, group, lines[i..], maxLength);
      if |currentChunk| + |line| + 1 <= maxLength {
        LinesSnoc(group, line);
        currentChunk := currentChunk + line + "\n";
        group := group + [line];
      } else {
        if currentChunk != "" {
          StripGroupsSnoc(groups, group);
          chunks := chunks + [Strip(currentChunk)];
          groups := groups + [group];
        }
        LinesSnoc([], line);
        assert [] + [line] == [line];
        currentChunk := line + "\n";
        group := [line];
      }
    }
    if currentChunk != "" {
      StripGroupsSnoc(groups, group);
      chunks := chunks + [Strip(currentChunk)];
      groups := groups + [group];
    }
  }

  /** The grouping neither drops, repeats nor reorders lines: the groups, run together, are the open group followed by the rest. */
  lemma {:induction false} GroupLinesFlatten(group: seq<string>, rest: seq<string>, maxLength: int)
    ensures Flatten(GroupLines(group, rest, maxLength)) == group + rest
    decreases |rest|
  {
    if rest == [] {
      if group != [] {
        assert [group][1..] == [];
      }
    } else if |Lines(group)| + |rest[0]| + 1 <= maxLength {
      GroupLinesFlatten(group + [rest[0]], rest[1..], maxLength);
      assert group + [rest[0]] + rest[1..] == group + rest;
    } else {
      var tail := GroupLines([rest[0]], rest[1..], maxLength);
      GroupLinesFlatten([rest[0]], rest[1..], maxLength);
      assert [rest[0]] + rest[1..] == rest;
      if group != [] {
        assert ([group] + tail)[0] == group && ([group] + tail)[1..] == tail;
        assert Flatten([group] + tail) == group + Flatten(tail);
      } else {
        assert [] + tail == tail;
      }
    }
  }

  /** No group is empty. */
  lemma {:induction false} GroupLinesNonEmpty(group: seq<string>, rest: seq<string>, maxLength: int)
    ensures forall i :: 0 <= i < |GroupLines(group, rest, maxLength)| ==> GroupLines(group, rest, maxLength)[i] != []
    decreases |rest|
  {
    if rest != [] {
      if |Lines(group)| + |rest[0]| + 1 <= maxLength {
        GroupLinesNonEmpty(group + [rest[0]], rest[1..], maxLength);
      } else {
        GroupLinesNonEmpty([rest[0]], rest[1..], maxLength);
      }
    }
  }

  /** Adding a line to a group lengthens its text by the line and its newline. */
  lemma LinesSnoc(group: seq<string>, line: string)
    ensures Lines(group + [line]) == Lines(group) + line + "\n"
  {
    assert (group + [line])[..|group|] == group;
  }

  /** When every line leaves room for its newline, every group's text fits in `maxLength`. */
  lemma {:induction false} GroupLinesBound(group: seq<string>, rest: seq<string>, maxLength: int)
    requires |Lines(group)| <= maxLength
    requires forall j :: 0 <= j < |rest| ==> |rest[j]| + 1 <= maxLength
    ensures forall i :: 0 <= i < |GroupLines(group, rest, maxLength)| ==> |Lines(GroupLines(group, rest, maxLength)[i])| <= maxLength
    decreases |rest|
  {
    if rest != [] {
      if |Lines(group)| + |rest[0]| + 1 <= maxLength {
        LinesSnoc(group, rest[0]);
        GroupLinesBound(group + [rest[0]], rest[1..], maxLength);
      } else {
        LinesSnoc([], rest[0]);
        assert [] + [rest[0]] == [rest[0]];
        GroupLinesBound([rest[0]], rest[1..], maxLength);
      }
    }
  }

  /**
   * A message that fits is returned alone and unchanged. A longer one is cut at line
   * boundaries: each chunk is the stripped text of a non-empty run of consecutive
   * lines, and the runs, in order, are exactly the message's lines. When no line is
   * longer than `maxLength - 1`, no chunk is longer than `maxLength`.
   */
  lemma ChunksSpec(message: string, maxLength: int)
    ensures |message| <= maxLength ==> Chunks(message, maxLength) == [message]
    ensures |message| > maxLength ==>
      var groups := ChunkGroups(message, maxLength);
      && Chunks(message, maxLength) == StripGroups(groups)
      && Flatten(groups) == Split(message, '\n')
      && Join(Flatten(groups), '\n') == message
      && (forall i :: 0 <= i < |groups| ==> groups[i] != [])
    ensures (forall j :: 0 <= j < |Split(message, '\n')| ==> |Split(message, '\n')[j]| < maxLength) ==>
      forall i :: 0 <= i < |Chunks(message, maxLength)| ==> |Chunks(message, maxLength)[i]| <= maxLength
  {
    var lines := Split(message, '\n');
    GroupLinesFlatten([], lines, maxLength);
    assert [] + lines == lines;
    JoinSplit(message, '\n');
    GroupLinesNonEmpty([], lines, maxLength);
    if forall j :: 0 <= j < |lines| ==> |lines[j]| < maxLength {
      GroupLinesBound([], lines, maxLength);
    }
  }

  // ---------------------------------------------------------------------------
  // format_job_response
  // ---------------------------------------------------------------------------

  const Intro: string := "Job ID uploaded correctly. Please proceed with closing the job.😎\n\n"
  const StatusLine: string := "Overall Status: PASS ✅"

  /** The literal text before each of the header's seven values. */
  const HeaderLabels: seq<string> := [
    Intro + StatusLine + "\n\nJob ID: ", "\nAccount: ", "\n\nCable Type: 🔌 ", "\n\nDate Uploaded: ",
    "\nDate Measured: ", "\n\nTechnician: ", "\nCompany: "]

  /** The dictionary key looked up for each of the header's seven values. */
  const HeaderKeys: seq<string> := [
    "job_id", "account", "type", "date_uploaded", "date_measured", "technician", "company"]

  /** The value shown when the key is missing: the requested ID for the job ID, "COAX" for the cable type, "N/A" otherwise. */
  function HeaderDefault(jobId: string, i: nat): string {
    if i == 0 then jobId else if i == 2 then "COAX" else "N/A"
  }

  /** `job_data.get(key, default)`. */
  function Shown(fields: Dict, key: string, default: string): string {
    Get(fields, key).GetOr(default)
  }

  /** The seven values of the header, in order. */
  function HeaderValues(jobId: string, fields: Dict): seq<string> {
    seq(|HeaderKeys|, i requires 0 <= i < |HeaderKeys| => Shown(fields, HeaderKeys[i], HeaderDefault(jobId, i)))
  }

  /** The reply's fixed header with its seven looked-up values. */
  function SuccessHeader(jobId: string, fields: Dict): string {
    Fill(HeaderLabels, HeaderValues(jobId, fields)) + "\n\nComponent Status:\n"
  }

  /** One component line, without its newline. */
  function EntryLine(e: (string, string)): string {
    e.0 + ": " + e.1
  }

  /** One `"{component}: {status}\n"` line per entry, in the dictionary's order. */
  function ComponentLines(d: Dict): string
    decreases |d|
  {
    if d == [] then "" else EntryLine(d[0]) + "\n" + ComponentLines(d[1..])
  }

  /** The five lines written when there are no components. */
  const DefaultComponentText: string :=
    "tap: ✅ Passed\n" + "gnb BI: ✅ Passed\n" + "Cpe: ✅ Passed\n" + "Pressure test: ➖ Missing\n" + "TDR: ➖ Missing\n"

  /** `job_data.get('components', {})`, listed when non-empty, else the defaults. */
  function ComponentSection(components: Option<Dict>): string {
    if components.Some? && components.value != [] then ComponentLines(components.value) else DefaultComponentText
  }

  /** `format_job_response(job_id, job_data)`. */
  function JobResponse(jobId: string, job: JobData): string {
    if !job.success then "❌ " + job.message.GetOr("Job not found")
    else SuccessHeader(jobId, job.fields) + ComponentSection(job.components)
  }

  /** The loop appends one more line to the lines written so far. */
  lemma {:induction false} ComponentLinesSnoc(d: Dict, i: nat)
    requires i < |d|
    ensures ComponentLines(d[..i + 1]) == ComponentLines(d[..i]) + EntryLine(d[i]) + "\n"
    decreases i
  {
    if i == 0 {
      assert d[..1][1..] == [];
    } else {
      ComponentLinesSnoc(d[1..], i - 1);
      assert d[..i + 1][1..] == d[1..][..i];
      assert d[..i][1..] == d[1..][..i - 1];
    }
  }

  /** Appending entry `i`'s line to text ending in the lines before it ends the text in the lines up to entry `i`. */
  lemma AppendEntryLine(header: string, d: Dict, i: nat)
    requires i < |d|
    ensures header + ComponentLines(d[..i]) + d[i].0 + ": " + d[i].1 + "\n" == header + ComponentLines(d[..i + 1])
  {
    ComponentLinesSnoc(d, i);
  }

  /** Appending the five default lines one by one appends the default text. */
  lemma AppendDefaultLines(header: string)
    ensures header + "tap: ✅ Passed\n" + "gnb BI: ✅ Passed\n" + "Cpe: ✅ Passed\n" + "Pressure test: ➖ Missing\n" + "TDR: ➖ Missing\n"
      == header + DefaultComponentText
  {
  }

  /** `format_job_response` as it runs: the header, then `message +=` per component or the five default lines. */
  method FormatJobResponse(jobId: string, job: JobData) returns (message: string)
    ensures message == JobResponse(jobId, job)
  {
    if !job.success {
      return "❌ " + job.message.GetOr("Job not found");
    }
    message := SuccessHeader(jobId, job.fields);
    ghost var header := message;
    var components := job.components.GetOr([]);
    if components != [] {
      for i := 0 to |components|
        invariant message == header + ComponentLines(components[..i])
      {
        AppendEntryLine(header, components, i);
        message := message + components[i].0 + ": " + components[i].1 + "\n";
      }
      assert components[..|components|] == components;
    } else {
      message := message + "tap: ✅ Passed\n";
      message := message + "gnb BI: ✅ Passed\n";
      message := message + "Cpe: ✅ Passed\n";
      message := message + "Pressure test: ➖ Missing\n";
      message := message + "TDR: ➖ Missing\n";
      AppendDefaultLines(header);
    }
  }

  /** A failed lookup is reported as its message behind a cross, "Job not found" when it has none. */
  lemma JobResponseFailure(jobId: string, job: JobData)
    requires !job.success
    ensures JobResponse(jobId, job) == "❌ " + job.message.GetOr("Job not found")
    ensures job.message.None? ==> JobResponse(jobId, job) == "❌ Job not found"
  {
  }

  /** A successful reply is the header followed by the component lines, or by the five default lines. */
  lemma JobResponseSuccess(jobId: string, job: JobData)
    requires job.success
    ensures JobResponse(jobId, job) == SuccessHeader(jobId, job.fields) + ComponentSection(job.components)
    ensures job.components.None? || job.components == Some([]) ==>
      JobResponse(jobId, job) == SuccessHeader(jobId, job.fields) + DefaultComponentText
  {
  }

  /**
   * The header shows each template field after its label, with the dictionary's value or
   * the default: "N/A", "COAX" for the cable type, the requested ID for the job ID.
   */
  lemma SuccessHeaderFields(jobId: string, fields: Dict, section: string)
    ensures forall i :: 0 <= i < |HeaderKeys| ==>
      Contains(SuccessHeader(jobId, fields) + section, HeaderLabels[i] + Shown(fields, HeaderKeys[i], HeaderDefault(jobId, i)))
  {
    var values := HeaderValues(jobId, fields);
    var tail := "\n\nComponent Status:\n" + section;
    assert SuccessHeader(jobId, fields) + section == Fill(HeaderLabels, values) + tail;
    forall i | 0 <= i < |HeaderKeys|
      ensures Contains(SuccessHeader(jobId, fields) + section, HeaderLabels[i] + values[i])
    {
      FillShows(HeaderLabels, values, tail, i);
    }
  }

  /** Whatever the dictionary holds, a successful reply announces "Overall Status: PASS ✅". */
  lemma SuccessHeaderAnnouncesPass(jobId: string, fields: Dict, section: string)
    ensures Contains(SuccessHeader(jobId, fields) + section, StatusLine)
  {
    var v := Shown(fields, HeaderKeys[0], HeaderDefault(jobId, 0));
    SuccessHeaderFields(jobId, fields, section);
    assert Contains(SuccessHeader(jobId, fields) + section, HeaderLabels[0] + v);
    ContainsPiece(Intro, StatusLine, "\n\nJob ID: " + v);
    assert HeaderLabels[0] + v == Intro + StatusLine + ("\n\nJob ID: " + v);
    ContainsTransitive(SuccessHeader(jobId, fields) + section, HeaderLabels[0] + v, StatusLine);
  }

  /** The component lines of entries, one per entry in the dictionary's order. */
  function EntryLines(d: Dict): (r: seq<string>)
    ensures |r| == |d| && forall i :: 0 <= i < |d| ==> r[i] == EntryLine(d[i])
    decreases |d|
  {
    if d == [] then [] else [EntryLine(d[0])] + EntryLines(d[1..])
  }

  /** When no component name or status holds a newline, the component text splits into exactly one line per component, in order. */
  lemma {:induction false} ComponentLinesSplit(d: Dict)
    requires forall i :: 0 <= i < |d| ==> '\n' !in EntryLine(d[i])
    ensures Split(ComponentLines(d), '\n') == EntryLines(d) + [""]
    decreases |d|
  {
    if d != [] {
      SplitAfterPiece(EntryLine(d[0]), '\n', ComponentLines(d[1..]));
      ComponentLinesSplit(d[1..]);
      assert [EntryLine(d[0])] + (EntryLines(d[1..]) + [""]) == ([EntryLine(d[0])] + EntryLines(d[1..])) + [""];
    }
  }

  // ---------------------------------------------------------------------------
  // handle_general_query
  // ---------------------------------------------------------------------------

  /** The clock's three renderings: `%A`, `%B %d, %Y` and `%I:%M %p` of `datetime.now()`. */
  datatype Clock = Clock(dayName: string, date: string, time: string)

  /** The branches of the dispatch, in the order they are tried. */
  datatype Topic = AskDate | AskTime | Greet | AskHelp | SayBye | SayThanks | AskJob | AskWeather | Other

  const DateWords: seq<string> := ["today", "date", "day"]
  const TimeWords: seq<string> := ["time", "clock"]
  const GreetWords: seq<string> := ["hello", "hi", "hey", "greetings"]
  const HelpWords: seq<string> := ["help", "how", "what can you"]
  const ByeWords: seq<string> := ["bye", "goodbye", "see you"]
  const ThanksWords: seq<string> := ["thank", "thanks"]
  const JobWords: seq<string> := ["job", "status", "check"]

  /** The keywords of each branch, in the order the branches are tried. */
  const TopicKeywords: seq<(Topic, seq<string>)> := [
    (AskDate, DateWords), (AskTime, TimeWords), (Greet, GreetWords), (AskHelp, HelpWords),
    (SayBye, ByeWords), (SayThanks, ThanksWords), (AskJob, JobWords), (AskWeather, ["weather"])]

  /** `any(word in q for word in words)`. */
  predicate Mentions(q: string, words: seq<string>) {
    exists i :: 0 <= i < |words| && Contains(q, words[i])
  }

  /** The branch `handle_general_query` takes for the normalised query `q`. */
  function QueryTopic(q: string): Topic {
    if Mentions(q, DateWords) then AskDate
    else if Mentions(q, TimeWords) then AskTime
    else if Mentions(q, GreetWords) then Greet
    else if Mentions(q, HelpWords) then AskHelp
    else if Mentions(q, ByeWords) then SayBye
    else if Mentions(q, ThanksWords) then SayThanks
    else if Mentions(q, JobWords) then AskJob
    else if Contains(q, "weather") then AskWeather
    else Other
  }

  /** A first-match dispatch over a keyword table, from entry `k` on: the earliest entry whose keywords `q` mentions, `Other` when there is none. */
  function FirstTopic(table: seq<(Topic, seq<string>)>, q: string, k: nat): Topic
    decreases |table| - k
  {
    if k >= |table| then Other
    else if Mentions(q, table[k].1) then table[k].0
    else FirstTopic(table, q, k + 1)
  }

  /** The table dispatch picks the entry at the first position whose keywords occur, and `Other` only when no keywords occur. */
  lemma {:induction false} FirstTopicSpec(table: seq<(Topic, seq<string>)>, q: string, k: nat)
    ensures forall i :: k <= i < |table| && Mentions(q, table[i].1) && (forall j :: k <= j < i ==> !Mentions(q, table[j].1)) ==>
      FirstTopic(table, q, k) == table[i].0
    ensures (forall i :: k <= i < |table| ==> !Mentions(q, table[i].1)) ==> FirstTopic(table, q, k) == Other
    decreases |table| - k
  {
    if k < |table| {
      FirstTopicSpec(table, q, k + 1);
      if !Mentions(q, table[k].1) {
        forall i | k <= i < |table| && Mentions(q, table[i].1) && (forall j :: k <= j < i ==> !Mentions(q, table[j].1))
          ensures FirstTopic(table, q, k) == table[i].0
        {
          assert forall j :: k + 1 <= j < i ==> !Mentions(q, table[j].1);
        }
      }
    }
  }

  /** The dispatch is a first match over the keyword table: the earliest branch whose keywords occur in the query wins. */
  lemma QueryTopicIsFirstMatch(q: string)
    ensures QueryTopic(q) == FirstTopic(TopicKeywords, q, 0)
  {
    var t := TopicKeywords;
    assert Mentions(q, ["weather"]) <==> Contains(q, "weather") by {
      if Contains(q, "weather") {
        assert Contains(q, ["weather"][0]);
      }
    }
    assert FirstTopic(t, q, 8) == Other;
    assert FirstTopic(t, q, 7) == if Contains(q, "weather") then AskWeather else Other;
    assert FirstTopic(t, q, 6) == if Mentions(q, JobWords) then AskJob else FirstTopic(t, q, 7);
    assert FirstTopic(t, q, 5) == if Mentions(q, ThanksWords) then SayThanks else FirstTopic(t, q, 6);
    assert FirstTopic(t, q, 4) == if Mentions(q, ByeWords) then SayBye else FirstTopic(t, q, 5);
    assert FirstTopic(t, q, 3) == if Mentions(q, HelpWords) then AskHelp else FirstTopic(t, q, 4);
    assert FirstTopic(t, q, 2) == if Mentions(q, GreetWords) then Greet else FirstTopic(t, q, 3);
    assert FirstTopic(t, q, 1) == if Mentions(q, TimeWords) then AskTime else FirstTopic(t, q, 2);
    assert FirstTopic(t, q, 0) == if Mentions(q, DateWords) then AskDate else FirstTopic(t, q, 1);
  }

  /** The reply of the help branch. */
  const HelpText: string :=
    "🤖 **WhatsApp VeEX Bot Help**\n\nI can help you with:\n\n1\U{FE0F}\U{20E3} **Job Status Lookup**\n   • Send me a 20-digit Job ID\n   • I'll fetch the job details from VeEX portal\n   • You'll get component status, dates, and technician info\n\n2\U{FE0F}\U{20E3} **General Questions**\n   • Ask about date/time\n   • General information queries\n   \n📝 Example: Send \"10008514921140650001\" to check a job status"

  /** The default reply's text after the quoted query. */
  const FallbackText: string :=
    "\n\nI can help you with:\n• 📋 Job status lookups (send 20-digit Job ID)\n• 📅 Date and time information\n• ❓ General questions\n\nWould you like to check a job status or ask something else?"

  /** The rest of the "what day" reply after the date. */
  const OccasionText: string := ". If you were referring to a specific occasion, feel free to elaborate, and I can provide more context!"

  /** The reply of branch `topic`; `whatDay` says whether the query holds "what day". */
  function Reply(topic: Topic, whatDay: bool, query: string, clock: Clock): string {
    match topic
    case AskDate =>
      if whatDay
      then "Today's date is " + clock.date + OccasionText
      else "📅 Today is " + clock.dayName + ", " + clock.date + "."
    case AskTime => "🕐 The current time is " + clock.time + "."
    case Greet => "👋 Hello! How can I assist you today?\n\n💡 You can:\n• Send a 20-digit Job ID to check status\n• Ask me general questions"
    case AskHelp => HelpText
    case SayBye => "👋 Goodbye! Feel free to message me anytime you need help with job lookups or questions!"
    case SayThanks => "😊 You're welcome! Happy to help!"
    case AskJob => "🔍 To check a job status, please send me the 20-digit Job ID number.\n\nExample: 10008514921140650001"
    case AskWeather => "🌤\U{FE0F} I don't have access to weather information yet, but I can help you check VeEX job statuses! Send me a 20-digit Job ID to get started."
    case Other => "I received your message: \"" + query + "\"" + FallbackText
  }

  /** `handle_general_query(query)`, with the clock's readings given: the branch is chosen on the lower-cased, stripped query. */
  function HandleGeneralQuery(query: string, clock: Clock): string {
    var q := Strip(Lower(query));
    Reply(QueryTopic(q), Contains(q, "what day"), query, clock)
  }

  /** Only the date and time replies read the clock, and only the default reply reads the query. */
  lemma ReplyInputs(topic: Topic, whatDay: bool, q1: string, q2: string, c1: Clock, c2: Clock)
    ensures topic !in {AskDate, AskTime, Other} ==> Reply(topic, whatDay, q1, c1) == Reply(topic, whatDay, q2, c2)
    ensures topic in {AskDate, AskTime} ==> Reply(topic, whatDay, q1, c1) == Reply(topic, whatDay, q2, c1)
    ensures topic == Other ==> Reply(topic, whatDay, q1, c1) == Reply(topic, whatDay, q1, c2)
  {
  }

  /** The date reply shows the date and the time reply the time. */
  lemma ReplyShowsClock(topic: Topic, whatDay: bool, query: string, clock: Clock)
    ensures topic == AskDate ==> Contains(Reply(topic, whatDay, query, clock), clock.date)
    ensures topic == AskTime ==> Contains(Reply(topic, whatDay, query, clock), clock.time)
  {
    if topic == AskDate {
      if whatDay {
        ContainsPiece("Today's date is ", clock.date, OccasionText);
      } else {
        ContainsPiece("📅 Today is " + clock.dayName + ", ", clock.date, ".");
      }
    } else if topic == AskTime {
      ContainsPiece("🕐 The current time is ", clock.time, ".");
    }
  }

  /** The default reply quotes the query as sent, before lower-casing and stripping. */
  lemma ReplyEchoesQuery(whatDay: bool, query: string, clock: Clock)
    ensures StartsWith(Reply(Other, whatDay, query, clock), "I received your message: \"" + query + "\"")
  {
    var p := "I received your message: \"" + query + "\"";
    assert (p + FallbackText)[..|p|] == p;
  }

  /**
   * `handle_general_query(query)`: the branch is the first entry of the keyword table
   * whose keywords occur in the lower-cased, stripped query; the date reply shows the
   * date, the time reply the time, and the default reply quotes the query as sent.
   */
  lemma HandleGeneralQuerySpec(query: string, clock: Clock)
    ensures var q := Strip(Lower(query));
      var topic := FirstTopic(TopicKeywords, q, 0);
      var reply := HandleGeneralQuery(query, clock);
      && reply == Reply(topic, Contains(q, "what day"), query, clock)
      && (topic == AskDate ==> Contains(reply, clock.date))
      && (topic == AskTime ==> Contains(reply, clock.time))
      && (topic == Other ==> StartsWith(reply, "I received your message: \"" + query + "\""))
  {
    var q := Strip(Lower(query));
    var whatDay := Contains(q, "what day");
    QueryTopicIsFirstMatch(q);
    var topic := QueryTopic(q);
    assert HandleGeneralQuery(query, clock) == Reply(topic, whatDay, query, clock);
    ReplyShowsClock(topic, whatDay, query, clock);
    if topic == Other {
      ReplyEchoesQuery(whatDay, query, clock);
    }
  }
}
