/**
 * The conversation layer in front of the Gemini generateContent endpoint:
 * the request body built from a history, the reply read out of a response,
 * one voice turn, history compaction by summary, and clearing the shared
 * history. The network is a parameter: `GeminiServer` maps the request body
 * the app sends to the response it gets, and the speech-to-text outcome is
 * given directly.
 */
module GeminiApiWrapper {
  import opened Results
  import opened Text
  import opened Chat

  /** A `{"text": ...}` object of a request's `parts` array. */
  datatype Part = Part(text: string)

  /** A `{"role": ..., "parts": [...]}` object of a request. */
  datatype Content = Content(role: string, parts: seq<Part>)

  /** The generateContent body: the optional `system_instruction` and the `contents` array. */
  datatype GeminiRequest = GeminiRequest(systemInstruction: Option<Content>, contents: seq<Content>)

  /** A part of a returned candidate; `text` is absent when the part has no "text" field. */
  datatype ResponsePart = ResponsePart(text: Option<string>)

  /** A returned candidate; `parts` is absent when it has no "content" object or that has no "parts" array. */
  datatype Candidate = Candidate(parts: Option<seq<ResponsePart>>)

  /** What one HTTP exchange with the endpoint can produce. */
  datatype GeminiResponse =
    | TransportFailure
    | HttpFailure(code: int, message: string)
    | ResponseBody(candidates: Option<seq<Candidate>>)

  /** The exceptions the cloud calls raise. */
  datatype ApiError =
    | Io                                 // the call itself throws an IOException
    | Http(code: int, message: string)   // "... error <code>: <message>"
    | NoCandidates                       // "No candidates returned by Gemini."
    | NoTranscription                    // "No transcription results."
    | MalformedJson                      // a JSONException from a missing index or field

  /** The remote model: the response it gives to a request body. */
  type GeminiServer = GeminiRequest -> GeminiResponse

  const SystemRole: string := "system"

  /** The request entry that carries one history message. */
  function MessageContent(m: ChatMessage): Content {
    Content(m.role, [Part(m.text)])
  }

  /** The `contents` array: one entry per history message, in history order. */
  function HistoryContents(history: seq<ChatMessage>): seq<Content> {
    seq(|history|, i requires 0 <= i < |history| => MessageContent(history[i]))
  }

  /**
   * `buildGeminiChatRequestBody`: a `system_instruction` with role "system"
   * and the prompt as its only part exactly when the prompt is neither null
   * nor blank, and the history mirrored entry by entry.
   */
  function BuildGeminiChatRequestBody(history: seq<ChatMessage>, systemPrompt: Option<string>): (r: GeminiRequest)
    ensures r.systemInstruction.Some? <==> systemPrompt.Some? && !IsBlank(systemPrompt.value)
    ensures r.systemInstruction.Some? ==> r.systemInstruction.value == Content(SystemRole, [Part(systemPrompt.value)])
    ensures |r.contents| == |history|
    ensures forall i :: 0 <= i < |history| ==> r.contents[i].role == history[i].role && r.contents[i].parts == [Part(history[i].text)]
  {
    var instruction :=
      if systemPrompt.Some? && !IsBlank(systemPrompt.value) then Some(Content(SystemRole, [Part(systemPrompt.value)]))
      else None;
    GeminiRequest(instruction, HistoryContents(history))
  }

  /** Reads a conversation back out of a `contents` array (the first part of each entry). */
  function ContentsHistory(contents: seq<Content>): seq<ChatMessage> {
    if contents == [] then []
    else
      var c := contents[0];
      [ChatMessage(c.role, if c.parts == [] then "" else c.parts[0].text)] + ContentsHistory(contents[1..])
  }

  /** The request loses nothing of the history: the history can be read back from it. */
  lemma {:induction false} RequestMirrorsHistory(history: seq<ChatMessage>, systemPrompt: Option<string>)
    ensures ContentsHistory(BuildGeminiChatRequestBody(history, systemPrompt).contents) == history
  {
    if history != [] {
      RequestMirrorsHistory(history[1..], systemPrompt);
      assert HistoryContents(history)[1..] == HistoryContents(history[1..]);
      assert history == [history[0]] + history[1..];
    }
  }

  /** Two histories give the same request only if they are the same history. */
  lemma RequestDeterminesHistory(h1: seq<ChatMessage>, h2: seq<ChatMessage>, systemPrompt: Option<string>)
    requires BuildGeminiChatRequestBody(h1, systemPrompt) == BuildGeminiChatRequestBody(h2, systemPrompt)
    ensures h1 == h2
  {
    RequestMirrorsHistory(h1, systemPrompt);
    RequestMirrorsHistory(h2, systemPrompt);
  }

  /** A body whose `candidates` array has a first entry whose content has a first part. */
  predicate HasFirstPart(response: GeminiResponse) {
    response.ResponseBody? && response.candidates.Some? && |response.candidates.value| > 0 &&
    response.candidates.value[0].parts.Some? && |response.candidates.value[0].parts.value| > 0
  }

  /** The text of the first part of the first candidate; a part without text reads as "". */
  function FirstPartText(response: GeminiResponse): string
    requires HasFirstPart(response)
  {
    response.candidates.value[0].parts.value[0].text.GetOr("")
  }

  /**
   * The response half of `generateGeminiReply`: the first part of the first
   * candidate, trimmed, or the exception the parsing throws.
   */
  function ReplyText(response: GeminiResponse): (r: Result<string, ApiError>)
    ensures response.TransportFailure? ==> r == Err(Io)
    ensures response.HttpFailure? ==> r == Err(Http(response.code, response.message))
    ensures response.ResponseBody? && response.candidates.None? ==> r == Err(NoCandidates)
    ensures response.ResponseBody? && response.candidates.Some? && !HasFirstPart(response) ==> r == Err(MalformedJson)
    ensures HasFirstPart(response) ==> r == Ok(Trim(FirstPartText(response)))
    ensures r.Ok? ==> Trim(r.value) == r.value
  {
    match response
    case TransportFailure => Err(Io)
    case HttpFailure(code, message) => Err(Http(code, message))
    case ResponseBody(None) => Err(NoCandidates)
    case ResponseBody(Some(candidates)) =>
      if |candidates| == 0 then Err(MalformedJson)
      else match candidates[0].parts
        case None => Err(MalformedJson)
        case Some(parts) =>
          if |parts| == 0 then Err(MalformedJson)
          else
            var cleaned := Trim(parts[0].text.GetOr(""));
            TrimIdempotent(parts[0].text.GetOr(""));
            Ok(cleaned)
  }

  /**
   * A reply exists exactly for a body with a candidate whose content has a
   * part, and then it is the first part of the first candidate, trimmed.
   */
  lemma ReplyIsFirstPartTrimmed(response: GeminiResponse)
    ensures ReplyText(response).Ok? <==> HasFirstPart(response)
    ensures ReplyText(response).Ok? ==> ReplyText(response).value == Trim(FirstPartText(response))
  {
  }

  /** `generateGeminiReply`: the trimmed reply of the server to the request built from the history. */
  function GenerateGeminiReply(gemini: GeminiServer, history: seq<ChatMessage>, systemPrompt: Option<string>): (r: Result<string, ApiError>)
    ensures r.Ok? ==> Trim(r.value) == r.value
  {
    ReplyText(gemini(BuildGeminiChatRequestBody(history, systemPrompt)))
  }

  /** `clearHistory`: empties the shared history. */
  method ClearHistory(inMemoryHistory: ChatHistory)
    modifies inMemoryHistory
    ensures inMemoryHistory.messages == []
  {
    inMemoryHistory.Clear();
  }

  /**
   * `SendAudioWithHistory`: appends the user's transcript, asks the model with
   * the history that now ends in it, appends the reply and returns both. An
   * exception from the transcription leaves the history as it was; one from
   * the model leaves the user turn in place.
   */
  method SendAudioWithHistory(
    transcription: Result<string, ApiError>, systemPrompt: Option<string>,
    history: ChatHistory, gemini: GeminiServer)
    returns (r: Result<(string, string), ApiError>)
    modifies history
    ensures transcription.Err? ==> r == Err(transcription.error) && history.messages == old(history.messages)
    ensures transcription.Ok? ==>
      var withUser := old(history.messages) + [ChatMessage(UserRole, transcription.value)];
      var reply := GenerateGeminiReply(gemini, withUser, systemPrompt);
      (reply.Err? ==> r == Err(reply.error) && history.messages == withUser) &&
      (reply.Ok? ==> r == Ok((transcription.value, reply.value)) &&
                     history.messages == withUser + [ChatMessage(ModelRole, reply.value)])
  {
    if transcription.Err? {
      return Err(transcription.error);
    }
    var userTranscript := transcription.value;
    history.Add(ChatMessage(UserRole, userTranscript));
    var reply := GenerateGeminiReply(gemini, history.messages, systemPrompt);
    if reply.Err? {
      return Err(reply.error);
    }
    history.Add(ChatMessage(ModelRole, reply.value));
    return Ok((userTranscript, reply.value));
  }

  /** The instruction that asks for a summary of at most `maxWords` words. */
  function SummaryInstruction(maxWords: int): (s: string)
    ensures !IsBlank(s)
  {
    var s := "Summarise the previous conversation in \U{2264}" + IntToString(maxWords) + " words. " +
      "Plain text only \U{2013} no bullet symbols.";
    assert s[0] == 'S';
    s
  }

  /**
   * The history after a summary: every user and model turn deleted, every
   * other entry kept in its relative order, and the summary appended last.
   */
  function Compacted(history: seq<ChatMessage>, summary: string): (r: seq<ChatMessage>)
    ensures forall i :: 0 <= i < |r| ==> !IsTurn(r[i])
  {
    Filter(history, Not(IsTurn)) + [ChatMessage(SystemSummaryRole, summary)]
  }

  /** Compaction deletes nothing but turns. */
  lemma CompactedKeepsNonTurns(history: seq<ChatMessage>, summary: string)
    ensures forall m :: m in history && !IsTurn(m) ==> m in Compacted(history, summary)
  {
    FilterMembers(history, Not(IsTurn));
  }

  /** What `summarizeHistory` returns and what it leaves in the history. */
  datatype Summary = Summary(result: Result<string, ApiError>, history: seq<ChatMessage>)

  /** The specification of `summarizeHistory` on a history value. */
  function Summarize(history: seq<ChatMessage>, maxWords: int, gemini: GeminiServer): (s: Summary)
    ensures history == [] ==> s == Summary(Ok(""), [])
    ensures s.result.Err? ==> s.history == history
    ensures history != [] && s.result.Ok? ==>
      |s.history| >= 1 && s.history[|s.history| - 1] == ChatMessage(SystemSummaryRole, s.result.value) &&
      forall i :: 0 <= i < |s.history| ==> !IsTurn(s.history[i])
  {
    if history == [] then Summary(Ok(""), history)
    else
      var reply := GenerateGeminiReply(gemini, Filter(history, IsTurn), Some(SummaryInstruction(maxWords)));
      match reply
      case Ok(summary) => Summary(reply, Compacted(history, summary))
      case Err(_) => Summary(reply, history)
  }

  /**
   * `summarizeHistory`: returns "" on an empty history; otherwise asks the
   * model, under the summary instruction, about the user and model turns
   * only, then deletes those turns and appends the summary. A failed request
   * leaves the history untouched.
   */
  method SummarizeHistory(history: ChatHistory, maxWords: int, gemini: GeminiServer)
    returns (r: Result<string, ApiError>)
    modifies history
    ensures r == Summarize(old(history.messages), maxWords, gemini).result
    ensures history.messages == Summarize(old(history.messages), maxWords, gemini).history
  {
    if |history.messages| == 0 {
      return Ok("");
    }
    var instruction := SummaryInstruction(maxWords);
    var historyTrimmed := Filter(history.messages, IsTurn);
    var summary := GenerateGeminiReply(gemini, historyTrimmed, Some(instruction));
    if summary.Err? {
      return summary;
    }
    history.RemoveIf(IsTurn);
    history.Add(ChatMessage(SystemSummaryRole, summary.value));
    return summary;
  }

  /**
   * The summary request is built from exactly the user and model turns, in
   * order, under a system instruction that is always present.
   */
  lemma SummaryRequestShape(history: seq<ChatMessage>, maxWords: int)
    ensures var req := BuildGeminiChatRequestBody(Filter(history, IsTurn), Some(SummaryInstruction(maxWords)));
      req.systemInstruction.Some? &&
      ContentsHistory(req.contents) == Filter(history, IsTurn) &&
      forall i :: 0 <= i < |req.contents| ==> req.contents[i].role in {UserRole, ModelRole}
  {
    RequestMirrorsHistory(Filter(history, IsTurn), Some(SummaryInstruction(maxWords)));
  }

  /**
   * A successful summary splits the history: the turns it was asked about
   * and the entries it keeps are, together, the whole history.
   */
  lemma SummaryPartitionsHistory(history: seq<ChatMessage>, summary: string)
    ensures var kept := Compacted(history, summary);
      multiset(Filter(history, IsTurn)) + multiset(kept[..|kept| - 1]) == multiset(history)
  {
    FilterPartition(history, IsTurn);
  }

  /**
   * Summarising a summarised history keeps the first summary: summaries
   * accumulate after the non-turn entries, in the order they were made.
   */
  lemma SummariesAccumulate(history: seq<ChatMessage>, first: string, second: string)
    ensures Compacted(Compacted(history, first), second) ==
      Filter(history, Not(IsTurn)) + [ChatMessage(SystemSummaryRole, first), ChatMessage(SystemSummaryRole, second)]
  {
    var kept := Filter(history, Not(IsTurn));
    var once := kept + [ChatMessage(SystemSummaryRole, first)];
    assert Compacted(history, first) == once;
    forall i | 0 <= i < |once| ensures Not(IsTurn)(once[i]) {
      if i < |kept| { assert once[i] == kept[i]; }
    }
    FilterAllKept(once, Not(IsTurn));
  }
}
