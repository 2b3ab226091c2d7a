/** `InMemoryConversationMemory`: one list per conversation, trimmed in place. */
module InMemoryStore {
  import opened Common
  import opened Window

  type Conversations = map<string, History>

  function HistoryOf(conversations: Conversations, conv: string): History {
    if conv in conversations then conversations[conv] else []
  }

  function Pruned(max: nat, conversations: Conversations, conv: string): Conversations {
    if HistoryOf(conversations, conv) == [] then conversations
    else conversations[conv := Prune(max, conversations[conv])]
  }

  function Appended(max: nat, conversations: Conversations, conv: string, message: StoredMessage): Conversations {
    Pruned(max, conversations[conv := HistoryOf(conversations, conv) + [message]], conv)
  }

  /** Every stored history is the window of what was ever appended to it. */
  ghost predicate Windowed(max: nat, conversations: Conversations, log: Conversations) {
    forall conv :: HistoryOf(conversations, conv) == Prune(max, HistoryOf(log, conv))
  }

  lemma {:induction false} AppendKeepsWindowed(max: nat, conversations: Conversations, log: Conversations,
                            conv: string, message: StoredMessage)
    requires Windowed(max, conversations, log)
    ensures Windowed(max, Appended(max, conversations, conv, message),
                     log[conv := HistoryOf(log, conv) + [message]])
  {
    var conversations', log' := Appended(max, conversations, conv, message), log[conv := HistoryOf(log, conv) + [message]];
    forall c ensures HistoryOf(conversations', c) == Prune(max, HistoryOf(log', c)) {
      assert HistoryOf(conversations, c) == Prune(max, HistoryOf(log, c));
      if c == conv {
        PruneComposes(max, HistoryOf(log, conv), [message]);
      }
    }
  }

  /** Pruning a store that is already windowed is a no-op. */
  lemma PruneChangesNothing(max: nat, conversations: Conversations, log: Conversations, conv: string)
    requires Windowed(max, conversations, log)
    ensures Pruned(max, conversations, conv) == conversations
  {
    assert HistoryOf(conversations, conv) == Prune(max, HistoryOf(log, conv));
    PruneIdempotent(max, HistoryOf(log, conv));
  }

  class InMemoryConversationMemory {
    const maxMessages: nat
    var conversations: Conversations
    /** Everything ever appended, per conversation. */
    ghost var log: Conversations

    ghost predicate Valid()
      reads this
    {
      1 <= maxMessages && Windowed(maxMessages, conversations, log)
    }

    constructor (max: nat)
      requires 1 <= max
      ensures Valid() && maxMessages == max && conversations == map[] && log == map[]
    {
      maxMessages := max;
      conversations, log := map[], map[];
    }

    /** A size that is not strictly positive is refused. */
    static method Create(max: int) returns (store: Option<InMemoryConversationMemory>)
      ensures store.None? <==> max <= 0
      ensures store.Some? ==> fresh(store.value) && store.value.Valid()
      ensures store.Some? ==> store.value.maxMessages == max && store.value.log == map[]
    {
      if max <= 0 {
        return None;
      }
      var created := new InMemoryConversationMemory(max);
      return Some(created);
    }

    method GetHistory(conv: string) returns (h: History)
      requires Valid()
      ensures h == Prune(maxMessages, HistoryOf(log, conv))
    {
      h := HistoryOf(conversations, conv);
    }

    method Append(conv: string, message: StoredMessage)
      requires Valid()
      modifies this
      ensures Valid()
      ensures log == old(log)[conv := HistoryOf(old(log), conv) + [message]]
      ensures conversations == Appended(maxMessages, old(conversations), conv, message)
    {
      AppendKeepsWindowed(maxMessages, conversations, log, conv, message);
      conversations := conversations[conv := HistoryOf(conversations, conv) + [message]];
      log := log[conv := HistoryOf(log, conv) + [message]];
      PruneLocked(conv);
    }

    method PruneNow(conv: string)
      requires Valid()
      modifies this
      ensures Valid() && log == old(log)
      ensures conversations == Pruned(maxMessages, old(conversations), conv) == old(conversations)
    {
      PruneChangesNothing(maxMessages, conversations, log, conv);
      PruneLocked(conv);
    }

    method PruneLocked(conv: string)
      modifies this`conversations
      ensures conversations == Pruned(maxMessages, old(conversations), conv)
    {
      if conv !in conversations || conversations[conv] == [] {
        return;
      }
      var messages := conversations[conv];
      ghost var whole, gone := messages, 0;
      if |messages| > maxMessages {
        gone := |messages| - maxMessages;
        messages := messages[|messages| - maxMessages..];
      }
      ghost var cut := gone;
      while messages != [] && messages[0].role != User
        invariant cut <= gone <= |whole| && messages == whole[gone..]
        invariant forall i :: cut <= i < gone ==> whole[i].role != User
        decreases |messages|
      {
        messages := messages[1..];
        gone := gone + 1;
      }
      conversations := conversations[conv := messages];
      UserFromUnique(whole, cut, gone);
    }
  }
}
