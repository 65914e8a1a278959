/**
  The in-memory chat-state store: one state per (chat id, runner name).
  `extract` computes a fresh state when the key is absent; `store` upserts
  under the key read from the state itself.
 */
module StateStore {
  import opened Wrappers
  import opened Constants
  import opened ChatModel

  datatype Key = Key(chatId: int, runnerName: Option<string>)

  type Store = map<Key, ChatState>

  /** The key a state belongs under: its chat id and the runner named in its metadata. */
  function KeyOf(s: ChatState): Key {
    Key(s.chatId, RunnerName(s))
  }

  /** The state `extract` creates for a chat it has not seen under this runner. */
  function FreshState(chatId: int, runner: string): (r: ChatState)
    ensures KeyOf(r) == Key(chatId, Some(runner))
    ensures r.flowInfo.None? && r.stepInfo.None?
  {
    NewState(chatId, map[RunnerNameKey := runner])
  }

  datatype Extracted = Extracted(state: ChatState, store: Store)

  /** `extract(chatId, context)`: the stored state for (chatId, runner), inserting a fresh one if absent. */
  function Extract(st: Store, chatId: int, runner: string): (r: Extracted)
    ensures Key(chatId, Some(runner)) in st ==> r == Extracted(st[Key(chatId, Some(runner))], st)
    ensures Key(chatId, Some(runner)) !in st ==> r == Extracted(FreshState(chatId, runner), st[Key(chatId, Some(runner)) := FreshState(chatId, runner)])
    ensures Key(chatId, Some(runner)) in r.store && r.store[Key(chatId, Some(runner))] == r.state
  {
    var key := Key(chatId, Some(runner));
    if key in st then Extracted(st[key], st)
    else Extracted(FreshState(chatId, runner), st[key := FreshState(chatId, runner)])
  }

  /** `store(state)`: upsert under the state's own key. */
  function Put(st: Store, s: ChatState): (r: Store)
    ensures r.Keys == st.Keys + {KeyOf(s)}
    ensures r[KeyOf(s)] == s
    ensures forall k :: k in st && k != KeyOf(s) ==> r[k] == st[k]
  {
    st[KeyOf(s) := s]
  }

  /** Every state sits under its own key. */
  predicate Consistent(st: Store) {
    forall k :: k in st ==> KeyOf(st[k]) == k
  }

  // ---------------------------------------------------------------------------
  // Properties.
  // ---------------------------------------------------------------------------

  /** Both operations keep every state under its own key. */
  lemma ConsistencyPreserved(st: Store, chatId: int, runner: string, s: ChatState)
    requires Consistent(st)
    ensures Consistent(Extract(st, chatId, runner).store)
    ensures Consistent(Put(st, s))
  {
  }

  /** A second extract with the same key returns the same state and changes nothing. */
  lemma ExtractIdempotent(st: Store, chatId: int, runner: string)
    ensures var first := Extract(st, chatId, runner);
            Extract(first.store, chatId, runner) == first
  {
  }

  /** Storing a state and extracting it back under its runner returns that state. */
  lemma StoreThenExtract(st: Store, s: ChatState, runner: string)
    requires RunnerName(s) == Some(runner)
    ensures Extract(Put(st, s), s.chatId, runner) == Extracted(s, Put(st, s))
  {
  }

  /** In a consistent store, writing back what was extracted changes nothing. */
  lemma ExtractThenStore(st: Store, chatId: int, runner: string)
    requires Consistent(st)
    ensures var e := Extract(st, chatId, runner);
            Put(e.store, e.state) == e.store
  {
    var e := Extract(st, chatId, runner);
    assert KeyOf(e.state) == Key(chatId, Some(runner));
  }

  /** A state without a runner name is kept under (chatId, null), which no extract reads. */
  lemma NamelessStateUnreachable(st: Store, s: ChatState, chatId: int, runner: string)
    requires RunnerName(s).None?
    ensures KeyOf(s) == Key(s.chatId, None)
    ensures Extract(Put(st, s), chatId, runner).state == Extract(st, chatId, runner).state
  {
  }
}
