/**
 * The conversation history: a mutable list of (role, text) messages, the
 * roles the core gives them, and the list operations it performs on them
 * (`+=`, `clear`, `removeIf`, `filter`).
 */
module Chat {

  /** A history entry as the core builds it: `ChatMessage(role, text)`. */
  datatype ChatMessage = ChatMessage(role: string, text: string)

  const UserRole: string := "user"
  const ModelRole: string := "model"
  const SystemSummaryRole: string := "system summary"
  const WorkoutSummaryRole: string := "workout summary"

  /** A conversation turn, the only kind of entry a summary replaces. */
  predicate IsTurn(m: ChatMessage) {
    m.role == UserRole || m.role == ModelRole
  }

  /** The predicate that holds exactly where `p` does not. */
  function Not(p: ChatMessage -> bool): ChatMessage -> bool {
    m => !p(m)
  }

  /** `filter(keep)`: the entries satisfying `keep`, in their original order. */
  function Filter(s: seq<ChatMessage>, keep: ChatMessage -> bool): (r: seq<ChatMessage>)
    ensures |r| <= |s|
    ensures forall i :: 0 <= i < |r| ==> keep(r[i])
  {
    if s == [] then []
    else (if keep(s[0]) then [s[0]] else []) + Filter(s[1..], keep)
  }

  /** An entry is kept exactly when it is in the list and satisfies `keep`. */
  lemma {:induction false} FilterMembers(s: seq<ChatMessage>, keep: ChatMessage -> bool)
    ensures forall m :: m in Filter(s, keep) <==> m in s && keep(m)
  {
    if s != [] {
      FilterMembers(s[1..], keep);
      assert s == [s[0]] + s[1..];
    }
  }

  /** Filtering distributes over concatenation, so it keeps relative order. */
  lemma {:induction false} FilterConcat(a: seq<ChatMessage>, b: seq<ChatMessage>, keep: ChatMessage -> bool)
    ensures Filter(a + b, keep) == Filter(a, keep) + Filter(b, keep)
  {
    if a == [] {
      assert a + b == b;
    } else {
      assert (a + b)[0] == a[0];
      assert (a + b)[1..] == a[1..] + b;
      FilterConcat(a[1..], b, keep);
    }
  }

  /** Filtering a list whose every entry is kept changes nothing. */
  lemma {:induction false} FilterAllKept(s: seq<ChatMessage>, keep: ChatMessage -> bool)
    requires forall i :: 0 <= i < |s| ==> keep(s[i])
    ensures Filter(s, keep) == s
  {
    if s != [] {
      FilterAllKept(s[1..], keep);
    }
  }

  /**
   * Each entry goes to exactly one side of a predicate and its complement:
   * together the two filtered lists are a rearrangement of the list.
   */
  lemma {:induction false} FilterPartition(s: seq<ChatMessage>, p: ChatMessage -> bool)
    ensures |Filter(s, p)| + |Filter(s, Not(p))| == |s|
    ensures multiset(Filter(s, p)) + multiset(Filter(s, Not(p))) == multiset(s)
  {
    if s != [] {
      FilterPartition(s[1..], p);
      assert s == [s[0]] + s[1..];
      assert multiset(s) == multiset{s[0]} + multiset(s[1..]);
    }
  }

  /** A Kotlin `MutableList<ChatMessage>` holding a conversation. */
  class ChatHistory {
    var messages: seq<ChatMessage>

    /** `mutableListOf()`. */
    constructor ()
      ensures messages == []
    {
      messages := [];
    }

    /** `history += m`. */
    method Add(m: ChatMessage)
      modifies this
      ensures messages == old(messages) + [m]
    {
      messages := messages + [m];
    }

    /** `history.clear()`. */
    method Clear()
      modifies this
      ensures messages == []
    {
      messages := [];
    }

    /** `history.removeIf(p)`: drops every entry satisfying `p`, keeping the order of the rest. */
    method RemoveIf(p: ChatMessage -> bool)
      modifies this
      ensures messages == Filter(old(messages), Not(p))
    {
      var all := messages;
      var kept: seq<ChatMessage> := [];
      var i := 0;
      while i < |all|
        invariant 0 <= i <= |all|
        invariant kept == Filter(all[..i], Not(p))
      {
        assert all[..i + 1] == all[..i] + [all[i]];
        FilterConcat(all[..i], [all[i]], Not(p));
        if !p(all[i]) {
          kept := kept + [all[i]];
        }
        i := i + 1;
      }
      assert all[..i] == all;
      messages := kept;
    }
  }
}
