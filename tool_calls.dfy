/**
 * `handleToolCalls`: finds the tool-call tokens in the model's raw reply,
 * runs the tools in the order the tokens appear, and returns the reply with
 * the tokens deleted and the ends trimmed. It sits in a module of its own
 * because it calls the tools, which themselves call the conversation layer.
 *
 * The `make_workout` matches are given, as the regex engine's `findAll`
 * reports them; the `end_conversation()` token is recognised by a matcher
 * written out for its fixed shape.
 */
module ToolCalls {
  import opened Results
  import opened Text
  import opened Chat
  import opened GeminiApiWrapper
  import LlmTools

  // ---------------------------------------------------------------- make_workout

  /** One `make_workout` match: where it starts in the reply, its text, and its five groups. */
  datatype WorkoutMatch = WorkoutMatch(
    start: nat, value: string,
    name: string, desc: string, startHour: string, endHour: string, dayStr: string)

  /**
   * What `findAll` guarantees about its matches and this code relies on: each
   * is a non-empty piece of the reply, they come in order without overlapping,
   * and the two hour groups are one or two decimal digits.
   */
  predicate IsMatchList(raw: string, ms: seq<WorkoutMatch>) {
    (forall i :: 0 <= i < |ms| ==>
      |ms[i].value| > 0 && OccursAt(raw, ms[i].value, ms[i].start) &&
      1 <= |ms[i].startHour| <= 2 && AllDigits(ms[i].startHour) &&
      1 <= |ms[i].endHour| <= 2 && AllDigits(ms[i].endHour)) &&
    (forall i, j :: 0 <= i < j < |ms| ==> ms[i].start + |ms[i].value| <= ms[j].start)
  }

  /** The arguments of one `LlmTools.makeWorkout` call. */
  datatype WorkoutArgs = WorkoutArgs(name: string, desc: string, start: int, end: int, days: seq<string>)

  /** `map { it.trim() }`. */
  function TrimEach(parts: seq<string>): (r: seq<string>)
    ensures |r| == |parts|
    ensures forall i :: 0 <= i < |parts| ==> r[i] == Trim(parts[i])
  {
    if parts == [] then [] else [Trim(parts[0])] + TrimEach(parts[1..])
  }

  /**
   * The call one match turns into: the name and description trimmed, the
   * hours read as numbers, and the day list split at every comma with each
   * day trimmed.
   */
  function WorkoutCall(m: WorkoutMatch): (a: WorkoutArgs)
    requires AllDigits(m.startHour) && AllDigits(m.endHour)
    ensures Trim(a.name) == a.name && Trim(a.desc) == a.desc && |a.days| >= 1
  {
    TrimIdempotent(m.name);
    TrimIdempotent(m.desc);
    WorkoutArgs(Trim(m.name), Trim(m.desc), ParseDigits(m.startHour), ParseDigits(m.endHour), TrimEach(Split(m.dayStr, ',')))
  }

  /**
   * The hours of a call are below 100, and its days are the comma-separated
   * pieces of the day group, each trimmed and none holding a comma.
   */
  lemma WorkoutCallShape(m: WorkoutMatch)
    requires AllDigits(m.startHour) && AllDigits(m.endHour)
    requires |m.startHour| <= 2 && |m.endHour| <= 2
    ensures var a := WorkoutCall(m);
      0 <= a.start < 100 && 0 <= a.end < 100 &&
      |a.days| == |Split(m.dayStr, ',')| >= 1 &&
      forall i :: 0 <= i < |a.days| ==> ',' !in a.days[i] && Trim(a.days[i]) == a.days[i]
  {
    var pieces := Split(m.dayStr, ',');
    var days := TrimEach(pieces);
    forall i | 0 <= i < |days| ensures ',' !in days[i] && Trim(days[i]) == days[i] {
      if ',' in days[i] { TrimKeepsCharacters(pieces[i], ','); }
      TrimIdempotent(pieces[i]);
    }
    HourBound(m.startHour);
    HourBound(m.endHour);
  }

  lemma HourBound(s: string)
    requires AllDigits(s) && |s| <= 2
    ensures ParseDigits(s) < 100
  {
    if |s| == 2 {
      assert ParseDigits(s[..1]) == ParseDigits(s[..1][..0]) * 10 + (s[0] as int - '0' as int);
    } else if |s| == 1 {
      assert s[..0] == [];
    }
  }

  /** The calls a list of matches turns into, in order. */
  function WorkoutCalls(ms: seq<WorkoutMatch>): (r: seq<WorkoutArgs>)
    requires forall i :: 0 <= i < |ms| ==> AllDigits(ms[i].startHour) && AllDigits(ms[i].endHour)
    ensures |r| == |ms|
    ensures forall i :: 0 <= i < |ms| ==> r[i] == WorkoutCall(ms[i])
  {
    if ms == [] then [] else WorkoutCalls(ms[..|ms| - 1]) + [WorkoutCall(ms[|ms| - 1])]
  }

  /** The history after a run of workout calls, and the failure that stopped them, if any. */
  datatype Progress = Progress(history: seq<ChatMessage>, failure: Option<ApiError>)

  /**
   * The history after the first `n` workout calls. Each call appends one
   * summary; a failed call stops the run and keeps what was appended before it.
   */
  function Workouts(history: seq<ChatMessage>, n: nat, gemini: GeminiServer): (p: Progress)
  {
    if n == 0 then Progress(history, None)
    else
      var before := Workouts(history, n - 1, gemini);
      if before.failure.Some? then before
      else match LlmTools.WorkoutStep(before.history, gemini)
        case Ok(h) => Progress(h, None)
        case Err(e) => Progress(before.history, Some(e))
  }

  /**
   * A run of `n` workout calls only appends, and only workout summaries: all
   * `n` of them when no call fails, fewer when one does.
   */
  lemma {:induction false} WorkoutsAppendSummaries(history: seq<ChatMessage>, n: nat, gemini: GeminiServer)
    ensures var p := Workouts(history, n, gemini);
      |history| <= |p.history| <= |history| + n && p.history[..|history|] == history &&
      (p.failure.None? ==> |p.history| == |history| + n) &&
      forall i :: |history| <= i < |p.history| ==> p.history[i].role == WorkoutSummaryRole
  {
    if n > 0 {
      WorkoutsAppendSummaries(history, n - 1, gemini);
      var before := Workouts(history, n - 1, gemini);
      if before.failure.None? {
        var step := LlmTools.WorkoutStep(before.history, gemini);
        if step.Ok? {
          var h := step.value;
          assert Workouts(history, n, gemini) == Progress(h, None);
          assert h[..|before.history|] == before.history;
          assert h[..|history|] == before.history[..|history|];
          forall i | |history| <= i < |h| ensures h[i].role == WorkoutSummaryRole {
            if i < |before.history| { assert h[i] == before.history[i]; }
          }
        } else {
          assert Workouts(history, n, gemini) == Progress(before.history, Some(step.error));
        }
      } else {
        assert Workouts(history, n, gemini) == before;
      }
    }
  }

  /** Once a workout call has failed, later matches change nothing. */
  lemma {:induction false} WorkoutsFailureSticks(history: seq<ChatMessage>, a: nat, b: nat, gemini: GeminiServer)
    requires a <= b && Workouts(history, a, gemini).failure.Some?
    ensures Workouts(history, b, gemini) == Workouts(history, a, gemini)
  {
    if a < b {
      WorkoutsFailureSticks(history, a, b - 1, gemini);
    }
  }

  /** The reply after each match's text has been deleted with `text.replace(m.value, "")`. */
  function StripMatches(raw: string, ms: seq<WorkoutMatch>): (r: string)
    requires forall i :: 0 <= i < |ms| ==> |ms[i].value| > 0
    ensures |r| <= |raw|
  {
    if ms == [] then raw else RemoveAll(StripMatches(raw, ms[..|ms| - 1]), ms[|ms| - 1].value)
  }

  // ------------------------------------------------------------ end_conversation

  const EndConversationName: string := "end_conversation"

  /** The length of the shortest `{end_conversation()}` token. */
  const MinEndTokenLength: nat := 20

  /** Java's `\s`: space, tab, line feed, vertical tab, form feed, carriage return. */
  predicate IsRegexSpace(c: char) {
    c == ' ' || (9 <= c as int <= 13)
  }

  /** ASCII lower case, the folding `IGNORE_CASE` applies to ASCII letters. */
  function AsciiLower(c: char): char {
    if 'A' <= c <= 'Z' then (c as int + 32) as char else c
  }

  /** `\s*` from index `i`: the index of the first character that is not a regex space. */
  function SkipSpaces(s: string, i: nat): (j: nat)
    requires i <= |s|
    ensures i <= j <= |s|
    ensures forall k :: i <= k < j ==> IsRegexSpace(s[k])
    ensures j == |s| || !IsRegexSpace(s[j])
    decreases |s| - i
  {
    if i < |s| && IsRegexSpace(s[i]) then SkipSpaces(s, i + 1) else i
  }

  /** "end_conversation" in any mix of ASCII cases starts at index `i`. */
  predicate NameAt(s: string, i: nat) {
    i + |EndConversationName| <= |s| &&
    forall k :: 0 <= k < |EndConversationName| ==> AsciiLower(s[i + k]) == EndConversationName[k]
  }

  /**
   * The end of the `\{end_conversation\(\s*\)\s*\}` token that starts at
   * index `i`, if one does.
   */
  function EndConversationAt(s: string, i: nat): (r: Option<nat>)
    ensures r.Some? ==> i + MinEndTokenLength <= r.value <= |s|
    ensures r.Some? ==> s[i] == '{' && s[r.value - 1] == '}'
  {
    if i + 17 < |s| && s[i] == '{' && NameAt(s, i + 1) && s[i + 17] == '(' then
      var j := SkipSpaces(s, i + 18);
      if j < |s| && s[j] == ')' then
        var k := SkipSpaces(s, j + 1);
        if k < |s| && s[k] == '}' then Some(k + 1) else None
      else None
    else None
  }

  /** `endConvRe.containsMatchIn(s)`. */
  predicate ContainsEndConversation(s: string)
    ensures ContainsEndConversation(s) ==> |s| >= MinEndTokenLength && '{' in s && '}' in s
  {
    exists i :: 0 <= i < |s| && EndConversationAt(s, i).Some?
  }

  /**
   * A matcher for `s`: at each index, the end of the match that starts
   * there, if one does; a match is never empty and never runs past the end.
   */
  predicate IsMatcher(s: string, at: nat -> Option<nat>) {
    forall k: nat :: k < |s| && at(k).Some? ==> k < at(k).value <= |s|
  }

  /** The end_conversation matcher for `s`. */
  function EndConversations(s: string): (at: nat -> Option<nat>)
    ensures IsMatcher(s, at)
    ensures forall k: nat :: at(k) == EndConversationAt(s, k)
  {
    k => EndConversationAt(s, k)
  }

  /** No match starts at an index in `[from, to)`. */
  predicate NoMatchIn(at: nat -> Option<nat>, from: nat, to: nat) {
    forall k: nat :: from <= k < to ==> at(k).None?
  }

  /**
   * `s.replace(re, "")` from index `i` on, for the matches `at` reports:
   * scan left to right, delete each match found and resume right after it.
   */
  function RemoveMatchesFrom(s: string, i: nat, at: nat -> Option<nat>): (r: string)
    requires i <= |s| && IsMatcher(s, at)
    ensures |r| <= |s| - i
    decreases |s| - i
  {
    if i == |s| then []
    else match at(i)
      case Some(j) => RemoveMatchesFrom(s, j, at)
      case None => [s[i]] + RemoveMatchesFrom(s, i + 1, at)
  }

  /** `s.replace(endConvRe, "")`. */
  function RemoveEndConversations(s: string): (r: string)
    ensures |r| <= |s|
  {
    RemoveMatchesFrom(s, 0, EndConversations(s))
  }

  /** Text in which no match starts is kept as it is. */
  lemma {:induction false} RemoveNothing(s: string, i: nat, at: nat -> Option<nat>)
    requires i <= |s| && IsMatcher(s, at) && NoMatchIn(at, i, |s|)
    ensures RemoveMatchesFrom(s, i, at) == s[i..]
    decreases |s| - i
  {
    if i < |s| {
      RemoveNothing(s, i + 1, at);
      assert s[i..] == [s[i]] + s[i + 1..];
    }
  }

  /** A character where no match starts is kept. */
  lemma KeepUnmatched(s: string, i: nat, at: nat -> Option<nat>)
    requires IsMatcher(s, at) && i < |s| && at(i).None?
    ensures RemoveMatchesFrom(s, i, at) == [s[i]] + RemoveMatchesFrom(s, i + 1, at)
  {
  }

  /**
   * The scan keeps everything before the leftmost match, deletes that match
   * whole and carries on right after it.
   */
  lemma {:induction false} RemoveLeftmost(s: string, i: nat, k: nat, at: nat -> Option<nat>)
    requires IsMatcher(s, at) && i <= k < |s| && NoMatchIn(at, i, k) && at(k).Some?
    ensures RemoveMatchesFrom(s, i, at) == s[i..k] + RemoveMatchesFrom(s, at(k).value, at)
    decreases k - i
  {
    var rest := RemoveMatchesFrom(s, at(k).value, at);
    if i < k {
      assert at(i).None?;
      assert NoMatchIn(at, i + 1, k);
      RemoveLeftmost(s, i + 1, k, at);
      KeepUnmatched(s, i, at);
      assert s[i..k] == [s[i]] + s[i + 1..k];
    } else {
      assert s[i..k] == [];
    }
  }

  /** A reply with at least one token loses at least a whole token's length. */
  lemma RemoveShortens(s: string)
    requires ContainsEndConversation(s)
    ensures |RemoveEndConversations(s)| <= |s| - MinEndTokenLength
  {
    var at := EndConversations(s);
    var k :| 0 <= k < |s| && EndConversationAt(s, k).Some?;
    var first := LeftmostMatch(s, 0, k, at);
    RemoveLeftmost(s, 0, first, at);
    assert EndConversationAt(s, first).Some?;
  }

  /** The shortest token, as the model writes it. */
  const EndToken: string := "{end_conversation()}"

  /** A text holding the shortest token at `i` has a token there, ending 20 characters later. */
  lemma TokenAt(s: string, i: nat)
    requires i + |EndToken| <= |s| && forall k :: 0 <= k < |EndToken| ==> s[i + k] == EndToken[k]
    ensures EndConversationAt(s, i) == Some(i + |EndToken|)
  {
    forall k | 0 <= k < |EndConversationName| ensures AsciiLower(s[i + 1 + k]) == EndConversationName[k] {
      assert s[i + 1 + k] == EndToken[1 + k];
      assert EndToken[1 + k] == EndConversationName[k];
    }
    assert NameAt(s, i + 1);
    assert EndToken[0] == '{' && EndToken[17] == '(' && EndToken[18] == ')' && EndToken[19] == '}';
    assert s[i + 0] == '{' && s[i + 17] == '(' && s[i + 18] == ')' && s[i + 19] == '}';
    assert SkipSpaces(s, i + 18) == i + 18;
    assert SkipSpaces(s, i + 19) == i + 19;
  }

  /** The shortest token has its only `{` in front. */
  lemma BraceOnlyFirst()
    ensures forall k :: 0 < k < |EndToken| ==> EndToken[k] != '{'
  {
    assert EndToken == ['{'] + EndConversationName + "()}";
  }

  /** No token starts where there is no `{`. */
  lemma NoTokenWithoutBrace(s: string, from: nat, to: nat)
    requires from <= to <= |s| && forall k :: from <= k < to ==> s[k] != '{'
    ensures NoMatchIn(EndConversations(s), from, to)
  {
  }

  /** A range without a match grows by one index in front that has none. */
  lemma NoMatchFromBefore(at: nat -> Option<nat>, from: nat, to: nat)
    requires from < to && at(from).None? && NoMatchIn(at, from + 1, to)
    ensures NoMatchIn(at, from, to)
  {
    forall k: nat | from <= k < to ensures at(k).None? {
      if k > from { assert from + 1 <= k < to; }
    }
  }

  /** Wrapped in `head` and `tail`, the inner token is found where `head` ends. */
  lemma InnerToken(head: string, tail: string)
    requires head + tail == EndToken
    ensures var s := head + EndToken + tail;
      EndConversations(s)(|head|) == Some(|head| + |EndToken|)
  {
    var s := head + EndToken + tail;
    forall k | 0 <= k < |EndToken| ensures s[|head| + k] == EndToken[k] {
    }
    TokenAt(s, |head|);
  }

  /** No token starts inside `head`: its first name is cut short by the inner `{`. */
  lemma NoTokenInHead(head: string, tail: string)
    requires head + tail == EndToken && 1 <= |head| <= |EndConversationName|
    ensures var s := head + EndToken + tail;
      NoMatchIn(EndConversations(s), 0, |head|)
  {
    var n := |head|;
    var s := head + EndToken + tail;
    BraceOnlyFirst();
    forall k | 1 <= k < n ensures s[k] != '{' {
      assert s[k] == head[k] == (head + tail)[k];
    }
    assert !NameAt(s, 1) by {
      assert s[n] == '{' && '{' !in EndConversationName;
      assert AsciiLower(s[1 + (n - 1)]) != EndConversationName[n - 1];
    }
    assert EndConversations(s)(0).None?;
    NoTokenWithoutBrace(s, 1, n);
    NoMatchFromBefore(EndConversations(s), 0, n);
  }

  /** No token starts inside `tail`, which holds no `{`. */
  lemma NoTokenInTail(head: string, tail: string)
    requires head + tail == EndToken && 1 <= |head|
    ensures var s := head + EndToken + tail;
      NoMatchIn(EndConversations(s), |head| + |EndToken|, |s|)
  {
    var n := |head|;
    var m := n + |EndToken|;
    var s := head + EndToken + tail;
    BraceOnlyFirst();
    forall k | m <= k < |s| ensures s[k] != '{' {
      assert s[k] == tail[k - m] == (head + tail)[n + (k - m)];
    }
    NoTokenWithoutBrace(s, m, |s|);
  }

  /**
   * The replacement makes one pass and does not rescan its output: a token
   * wrapped around another, split anywhere inside its name, is rebuilt when
   * the inner one is deleted, and stays in the text.
   */
  lemma {:induction false} RemovalCanRebuildToken(head: string, tail: string)
    requires head + tail == EndToken && 1 <= |head| <= |EndConversationName|
    ensures var s := head + EndToken + tail;
      ContainsEndConversation(s) &&
      RemoveEndConversations(s) == EndToken &&
      ContainsEndConversation(RemoveEndConversations(s))
  {
    var n := |head|;
    var m := n + |EndToken|;
    var s := head + EndToken + tail;
    var at := EndConversations(s);
    InnerToken(head, tail);
    NoTokenInHead(head, tail);
    NoTokenInTail(head, tail);
    RemoveLeftmost(s, 0, n, at);
    RemoveNothing(s, m, at);
    assert s[0..n] == head && s[m..] == tail;
    TokenAt(EndToken, 0);
  }

  /** For instance, "{end_" and "conversation()}" around a token leave a token behind. */
  lemma RebuiltTokenExample()
    ensures ContainsEndConversation(RemoveEndConversations("{end_" + EndToken + "conversation()}"))
  {
    assert "{end_" + "conversation()}" == EndToken;
    RemovalCanRebuildToken("{end_", "conversation()}");
  }

  /** The leftmost match at or after `from` whose start is at most `k`. */
  lemma {:induction false} LeftmostMatch(s: string, from: nat, k: nat, at: nat -> Option<nat>) returns (first: nat)
    requires from <= k < |s| && at(k).Some?
    ensures from <= first <= k && NoMatchIn(at, from, first) && at(first).Some?
    decreases k - from
  {
    if at(from).Some? {
      first := from;
    } else {
      first := LeftmostMatch(s, from + 1, k, at);
    }
  }

  // ---------------------------------------------------------------- the handler

  /**
   * The text `handleToolCalls` returns: the workout matches deleted, then,
   * if the raw reply holds an end_conversation token, every such token
   * deleted, and finally the ends trimmed.
   */
  function CleanedReply(raw: string, ms: seq<WorkoutMatch>): (r: string)
    requires forall i :: 0 <= i < |ms| ==> |ms[i].value| > 0
    ensures Trim(r) == r && |r| <= |raw|
    ensures ms == [] && !ContainsEndConversation(raw) ==> r == Trim(raw)
  {
    var text := StripMatches(raw, ms);
    var text' := if ContainsEndConversation(raw) then RemoveEndConversations(text) else text;
    TrimIdempotent(text');
    Trim(text')
  }

  /** One more match: its call is appended to the calls, and its text deleted from the reply. */
  lemma MatchesStep(raw: string, matches: seq<WorkoutMatch>, i: nat)
    requires IsMatchList(raw, matches) && i < |matches|
    ensures WorkoutCalls(matches[..i + 1]) == WorkoutCalls(matches[..i]) + [WorkoutCall(matches[i])]
    ensures StripMatches(raw, matches[..i + 1]) == RemoveAll(StripMatches(raw, matches[..i]), matches[i].value)
  {
    assert matches[..i + 1][..i] == matches[..i] && matches[..i + 1][i] == matches[i];
  }

  /** One more workout call after `i` successful ones: its outcome decides the progress. */
  lemma WorkoutsStep(h: seq<ChatMessage>, i: nat, gemini: GeminiServer, before: seq<ChatMessage>)
    requires Workouts(h, i, gemini) == Progress(before, None)
    ensures var step := LlmTools.WorkoutStep(before, gemini);
      Workouts(h, i + 1, gemini) == if step.Ok? then Progress(step.value, None) else Progress(before, Some(step.error))
  {
  }

  /**
   * The `makeWorkoutRe.findAll(raw).forEach` loop of `handleToolCalls`: one
   * `makeWorkout` per match, in order of appearance, deleting each match's
   * text from the reply. A failing call propagates its exception and leaves
   * the history as the calls before it made it. `calls` records the
   * arguments of every `makeWorkout` call made.
   */
  method RunWorkouts(raw: string, matches: seq<WorkoutMatch>, inMemoryHistory: ChatHistory, gemini: GeminiServer)
    returns (r: Result<string, ApiError>, ghost calls: seq<WorkoutArgs>)
    requires IsMatchList(raw, matches)
    modifies inMemoryHistory
    ensures var h := old(inMemoryHistory.messages);
      var p := Workouts(h, |matches|, gemini);
      var done := |p.history| - |h|;
      inMemoryHistory.messages == p.history &&
      (p.failure.Some? ==>
        r == Err(p.failure.value) && 0 <= done < |matches| && calls == WorkoutCalls(matches[..done + 1])) &&
      (p.failure.None? ==> r == Ok(StripMatches(raw, matches)) && calls == WorkoutCalls(matches))
  {
    ghost var h := inMemoryHistory.messages;
    var text := raw;
    calls := [];
    var i := 0;
    while i < |matches|
      invariant 0 <= i <= |matches|
      invariant text == StripMatches(raw, matches[..i])
      invariant Workouts(h, i, gemini) == Progress(inMemoryHistory.messages, None)
      invariant calls == WorkoutCalls(matches[..i])
      invariant |inMemoryHistory.messages| == |h| + i
    {
      var m := matches[i];
      MatchesStep(raw, matches, i);
      var args := WorkoutCall(m);
      calls := calls + [args];
      ghost var before := inMemoryHistory.messages;
      WorkoutsStep(h, i, gemini, before);
      var outcome := LlmTools.MakeWorkout(inMemoryHistory, args.name, args.desc, args.start, args.end, args.days, gemini);
      if outcome.Err? {
        WorkoutsFailureSticks(h, i + 1, |matches|, gemini);
        return Err(outcome.error), calls;
      }
      text := RemoveAll(text, m.value);
      i := i + 1;
    }
    assert matches[..i] == matches;
    return Ok(text), calls;
  }

  /**
   * `handleToolCalls`: the workout calls, then at most one
   * `endConversation`, and the cleaned reply.
   */
  method HandleToolCalls(raw: string, matches: seq<WorkoutMatch>, inMemoryHistory: ChatHistory, gemini: GeminiServer)
    returns (r: Result<string, ApiError>, ghost calls: seq<WorkoutArgs>)
    requires IsMatchList(raw, matches)
    modifies inMemoryHistory
    ensures var h := old(inMemoryHistory.messages);
      var p := Workouts(h, |matches|, gemini);
      var done := |p.history| - |h|;
      if p.failure.Some? then
        r == Err(p.failure.value) && inMemoryHistory.messages == p.history &&
        0 <= done < |matches| && calls == WorkoutCalls(matches[..done + 1])
      else
        calls == WorkoutCalls(matches) &&
        if !ContainsEndConversation(raw) then
          r == Ok(CleanedReply(raw, matches)) && inMemoryHistory.messages == p.history
        else
          var s := Summarize(p.history, LlmTools.DefaultMaxWords, gemini);
          inMemoryHistory.messages == s.history &&
          (s.result.Ok? ==> r == Ok(CleanedReply(raw, matches))) &&
          (s.result.Err? ==> r == Err(s.result.error))
  {
    var stripped;
    stripped, calls := RunWorkouts(raw, matches, inMemoryHistory, gemini);
    if stripped.Err? {
      return stripped, calls;
    }
    var text := stripped.value;
    if ContainsEndConversation(raw) {
      var ended := LlmTools.EndConversation(inMemoryHistory, gemini);
      if ended.Err? {
        return Err(ended.error), calls;
      }
      text := RemoveEndConversations(text);
    }
    return Ok(Trim(text)), calls;
  }

}
