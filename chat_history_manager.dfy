/**
 * Persisting a conversation to the app's private files: which file, how
 * much of the history is kept, and what a load returns when the file is
 * missing or cannot be read. The JSON encoding is abstracted: a file holds
 * either the list it was written with, something that parses to null, or
 * something that cannot be parsed at all.
 */
module ChatHistoryManager {
  import opened Chat

  const FileName: string := "chat_history.json"
  const BackFileName: string := "backend_chat_history.json"
  const MaxHistoryItems: nat := 20000

  /** The contents of one stored file as the JSON reader sees them. */
  datatype StoredFile =
    | Json(messages: seq<ChatMessage>)   // a well-formed list of messages
    | JsonNull                           // an empty file or the literal null
    | Unreadable                         // unparsable or failing to read

  /** How a save goes: it succeeds, cannot open the file, or fails while writing it. */
  datatype SaveFault = NoFault | OpenFails | WriteFails

  /** The app's private file directory, as a map from file name to contents. */
  class Context {
    var files: map<string, StoredFile>

    constructor (files: map<string, StoredFile>)
      ensures this.files == files
    {
      this.files := files;
    }
  }

  /** The file a history is kept in; the front-end and back-end histories never share one. */
  function HistoryFile(isBackend: bool): (name: string)
    ensures (name == BackFileName) == isBackend
    ensures (name == FileName) == !isBackend
  {
    assert BackFileName[0] != FileName[0];
    if isBackend then BackFileName else FileName
  }

  /**
   * `takeLast(MAX_HISTORY_ITEMS)` when the history is longer than that: the
   * most recent messages, at most 20000 of them, in their original order.
   */
  function RecentHistory(history: seq<ChatMessage>): (r: seq<ChatMessage>)
    ensures |r| <= MaxHistoryItems
    ensures |r| <= |history| && r == history[|history| - |r|..]
    ensures |history| <= MaxHistoryItems ==> r == history
    ensures |history| > MaxHistoryItems ==> |r| == MaxHistoryItems
  {
    if |history| > MaxHistoryItems then history[|history| - MaxHistoryItems..] else history
  }

  /** Keeping the recent part of a recent part changes nothing. */
  lemma RecentHistoryIdempotent(history: seq<ChatMessage>)
    ensures RecentHistory(RecentHistory(history)) == RecentHistory(history)
  {
  }

  /**
   * `saveChatHistory`: writes the recent history over the chosen file.
   * Exceptions are swallowed: if the file cannot be opened nothing changes;
   * if writing fails after the file was opened (and so truncated) the file is
   * left holding something that reads back as no history.
   */
  method SaveChatHistory(context: Context, history: seq<ChatMessage>, isBackend: bool, fault: SaveFault)
    modifies context
    ensures fault == NoFault ==> context.files == old(context.files)[HistoryFile(isBackend) := Json(RecentHistory(history))]
    ensures fault == OpenFails ==> context.files == old(context.files)
    ensures fault == WriteFails ==> context.files == old(context.files)[HistoryFile(isBackend) := Unreadable]
  {
    var recentHistory := RecentHistory(history);
    var name := HistoryFile(isBackend);
    match fault
    case OpenFails =>
    case WriteFails =>
      context.files := context.files[name := Unreadable];
    case NoFault =>
      context.files := context.files[name := Json(recentHistory)];
  }

  /**
   * What `loadChatHistory` returns for a directory: the stored list, or the
   * empty list when the file is missing, parses to null or cannot be read.
   */
  function LoadedHistory(files: map<string, StoredFile>, isBackend: bool): (r: seq<ChatMessage>)
    ensures HistoryFile(isBackend) !in files ==> r == []
    ensures HistoryFile(isBackend) in files && files[HistoryFile(isBackend)].Json? ==>
      r == files[HistoryFile(isBackend)].messages
    ensures HistoryFile(isBackend) in files && !files[HistoryFile(isBackend)].Json? ==> r == []
  {
    var name := HistoryFile(isBackend);
    if name !in files then []
    else match files[name]
      case Json(messages) => messages
      case JsonNull => []
      case Unreadable => []
  }

  /** `loadChatHistory`: reads the chosen file back; every failure yields the empty list. */
  method LoadChatHistory(context: Context, isBackend: bool) returns (r: seq<ChatMessage>)
    ensures r == LoadedHistory(context.files, isBackend)
  {
    var name := HistoryFile(isBackend);
    if name !in context.files {
      return [];
    }
    match context.files[name]
    case Json(messages) => r := messages;
    case JsonNull => r := [];
    case Unreadable => r := [];
  }

  /** A successful save is read back by the next load from the same side: the recent history. */
  lemma LoadAfterSave(files: map<string, StoredFile>, history: seq<ChatMessage>, isBackend: bool)
    ensures LoadedHistory(files[HistoryFile(isBackend) := Json(RecentHistory(history))], isBackend) ==
      RecentHistory(history)
  {
  }

  /** A save to one side leaves what the other side loads unchanged. */
  lemma SaveKeepsOtherSide(files: map<string, StoredFile>, content: StoredFile, isBackend: bool)
    ensures LoadedHistory(files[HistoryFile(isBackend) := content], !isBackend) == LoadedHistory(files, !isBackend)
  {
  }

  /** A save replaces the file whole: what was there before has no influence on the next load. */
  lemma SaveReplacesContents(f1: map<string, StoredFile>, f2: map<string, StoredFile>, history: seq<ChatMessage>, isBackend: bool)
    ensures var name := HistoryFile(isBackend);
      LoadedHistory(f1[name := Json(RecentHistory(history))], isBackend) ==
      LoadedHistory(f2[name := Json(RecentHistory(history))], isBackend)
  {
  }

  /** A save that failed while writing leaves a file that loads as the empty list. */
  lemma LoadAfterFailedWrite(files: map<string, StoredFile>, isBackend: bool)
    ensures LoadedHistory(files[HistoryFile(isBackend) := Unreadable], isBackend) == []
  {
  }
}
