/**
 * The two tools the model may call from its reply, as effects on the
 * shared conversation history.
 */
module LlmTools {
  import opened Results
  import opened Chat
  import opened GeminiApiWrapper

  /** The system instruction of the workout-summary request. */
  const WorkoutInstruction: string := "Write a detailed instruction list and summary of the workout."

  /**
   * The history after one `make_workout` call: the model's summary of the
   * history as it stood, appended under the role "workout summary"; the
   * request's failure leaves the history as it was.
   */
  function WorkoutStep(history: seq<ChatMessage>, gemini: GeminiServer): (r: Result<seq<ChatMessage>, ApiError>)
    ensures r.Ok? ==> |r.value| == |history| + 1 && r.value[..|history|] == history
    ensures r.Ok? ==> r.value[|history|].role == WorkoutSummaryRole
    ensures var reply := GenerateGeminiReply(gemini, history, Some(WorkoutInstruction));
      (r.Ok? <==> reply.Ok?) &&
      (reply.Ok? ==> r.value == history + [ChatMessage(WorkoutSummaryRole, reply.value)]) &&
      (reply.Err? ==> r == Err(reply.error))
  {
    match GenerateGeminiReply(gemini, history, Some(WorkoutInstruction))
    case Ok(summary) => Ok(history + [ChatMessage(WorkoutSummaryRole, summary)])
    case Err(e) => Err(e)
  }

  /**
   * `makeWorkout`: its arguments are accepted and do not reach the history;
   * the history gains exactly the workout summary of `WorkoutStep`.
   */
  method MakeWorkout(
    inMemoryHistory: ChatHistory, name: string, desc: string, start: int, end: int, days: seq<string>,
    gemini: GeminiServer)
    returns (r: Result<(), ApiError>)
    modifies inMemoryHistory
    ensures var step := WorkoutStep(old(inMemoryHistory.messages), gemini);
      (step.Ok? ==> r == Ok(()) && inMemoryHistory.messages == step.value) &&
      (step.Err? ==> r == Err(step.error) && inMemoryHistory.messages == old(inMemoryHistory.messages))
  {
    var summary := GenerateGeminiReply(gemini, inMemoryHistory.messages, Some(WorkoutInstruction));
    if summary.Err? {
      return Err(summary.error);
    }
    inMemoryHistory.Add(ChatMessage(WorkoutSummaryRole, summary.value));
    return Ok(());
  }

  /** The summary length `endConversation` asks for: the default of `summarizeHistory`. */
  const DefaultMaxWords: int := 120

  /** `endConversation`: `summarizeHistory` on the shared history with its default word limit. */
  method EndConversation(inMemoryHistory: ChatHistory, gemini: GeminiServer) returns (r: Result<(), ApiError>)
    modifies inMemoryHistory
    ensures var s := Summarize(old(inMemoryHistory.messages), DefaultMaxWords, gemini);
      inMemoryHistory.messages == s.history && (r.Ok? <==> s.result.Ok?) && (r.Err? ==> r.error == s.result.error)
  {
    var summary := SummarizeHistory(inMemoryHistory, DefaultMaxWords, gemini);
    if summary.Err? {
      return Err(summary.error);
    }
    return Ok(());
  }

  /** A workout summary is never removed by a later end of the conversation. */
  lemma WorkoutSummarySurvivesEnd(history: seq<ChatMessage>, gemini: GeminiServer, i: nat)
    requires i < |history| && history[i].role == WorkoutSummaryRole
    ensures history[i] in Summarize(history, DefaultMaxWords, gemini).history
  {
    assert !IsTurn(history[i]);
    forall summary: string {
      CompactedKeepsNonTurns(history, summary);
    }
  }
}
