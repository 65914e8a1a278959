/**
  The flow data bag: for each step name, the ids of the messages sent or
  received while that step ran, in the order they were recorded. The bag is
  nullable where the source reaches it through `state.flowInfo?.data`.
 */
module FlowData {
  import opened Wrappers

  datatype MessageId = ServerMessageId(value: int) | UserMessageId(value: int)

  /** The type filter of `filterIsInstance<T>()` over message ids. */
  datatype MessageKind = Server | User

  predicate OfKind(id: MessageId, kind: MessageKind) {
    match kind
    case Server => id.ServerMessageId?
    case User => id.UserMessageId?
  }

  type Bag = map<string, seq<MessageId>>

  /** `SimpleChatFlowData()`: no step has recorded anything yet. */
  const EmptyBag: Bag := map[]

  /** The list recorded for `key`, empty when the key is absent. */
  function Ids(bag: Bag, key: string): seq<MessageId> {
    if key in bag then bag[key] else []
  }

  /** `bag += (key to id)`: nothing on a null bag, otherwise `id` goes to the end of `key`'s list. */
  function Append(bag: Option<Bag>, key: string, id: MessageId): (r: Option<Bag>)
    ensures bag.None? <==> r.None?
    ensures r.Some? ==> r.value.Keys == bag.value.Keys + {key}
    ensures r.Some? ==> r.value[key] == Ids(bag.value, key) + [id]
    ensures r.Some? ==> forall k :: k in bag.value && k != key ==> r.value[k] == bag.value[k]
  {
    match bag
    case None => None
    case Some(b) => Some(b[key := Ids(b, key) + [id]])
  }

  /** Records every id of `ids` in turn. */
  function AppendAll(bag: Option<Bag>, key: string, ids: seq<MessageId>): Option<Bag>
    decreases |ids|
  {
    if ids == [] then bag else AppendAll(Append(bag, key, ids[0]), key, ids[1..])
  }

  /** The ids of one kind, in recorded order. */
  function Filter(ids: seq<MessageId>, kind: MessageKind): (r: seq<MessageId>)
    ensures |r| <= |ids|
    ensures forall i :: 0 <= i < |r| ==> OfKind(r[i], kind)
    ensures forall id :: id in r <==> id in ids && OfKind(id, kind)
  {
    if ids == [] then []
    else (if OfKind(ids[0], kind) then [ids[0]] else []) + Filter(ids[1..], kind)
  }

  datatype Cleared = Cleared(deleted: seq<MessageId>, bag: Option<Bag>)

  /**
    `clearStepMessages<T>(stepName)`: the ids of kind `kind` are deleted in the
    chat, then the step's whole list is emptied; a null bag or an absent key
    changes nothing.
   */
  function ClearStep(bag: Option<Bag>, stepName: string, kind: MessageKind): (r: Cleared)
    ensures bag.None? || stepName !in bag.value ==> r == Cleared([], bag)
    ensures bag.Some? && stepName in bag.value ==>
              && r.deleted == Filter(bag.value[stepName], kind)
              && r.bag == Some(bag.value[stepName := []])
  {
    if bag.None? || stepName !in bag.value then Cleared([], bag)
    else Cleared(Filter(bag.value[stepName], kind), Some(bag.value[stepName := []]))
  }

  /** Every id recorded anywhere in the bag. */
  function AllIds(bag: Bag): set<MessageId> {
    set k, id | k in bag && id in bag[k] :: id
  }

  /** `clearMessages()`: every recorded id is deleted in the chat and the map is emptied. */
  function ClearAll(bag: Bag): (r: (set<MessageId>, Bag))
    ensures r.1 == EmptyBag
    ensures forall k, id :: k in bag && id in bag[k] ==> id in r.0
    ensures forall id :: id in r.0 ==> exists k :: k in bag && id in bag[k]
  {
    (AllIds(bag), map[])
  }

  // ---------------------------------------------------------------------------
  // Properties.
  // ---------------------------------------------------------------------------

  /** Appending grows the keyed list by exactly one and leaves every other list alone. */
  lemma AppendGrowsByOne(bag: Bag, key: string, id: MessageId)
    ensures var r := Append(Some(bag), key, id).value;
            && |Ids(r, key)| == |Ids(bag, key)| + 1
            && Ids(r, key)[|Ids(r, key)| - 1] == id
            && forall k :: k != key ==> Ids(r, k) == Ids(bag, k)
  {
  }

  /** Recording ids one after another keeps them in order after what was there before. */
  lemma {:induction false} AppendAllInOrder(bag: Bag, key: string, ids: seq<MessageId>)
    ensures AppendAll(Some(bag), key, ids).Some?
    ensures Ids(AppendAll(Some(bag), key, ids).value, key) == Ids(bag, key) + ids
    ensures forall k :: k != key ==> Ids(AppendAll(Some(bag), key, ids).value, k) == Ids(bag, k)
    decreases |ids|
  {
    if ids != [] {
      var b1 := Append(Some(bag), key, ids[0]).value;
      AppendAllInOrder(b1, key, ids[1..]);
      assert Ids(bag, key) + [ids[0]] + ids[1..] == Ids(bag, key) + ids;
    }
  }

  /** A null bag stays null whatever is appended. */
  lemma {:induction false} AppendAllToNull(key: string, ids: seq<MessageId>)
    ensures AppendAll(None, key, ids) == None
    decreases |ids|
  {
    if ids != [] {
      AppendAllToNull(key, ids[1..]);
    }
  }

  /** Server and user ids split a list: clearing one kind deletes exactly the ids not of the other kind. */
  lemma {:induction false} FilterPartition(ids: seq<MessageId>)
    ensures |Filter(ids, Server)| + |Filter(ids, User)| == |ids|
  {
    if ids != [] {
      FilterPartition(ids[1..]);
    }
  }

  /** After clearing a step, a later append starts a fresh list for it. */
  lemma ClearThenAppend(bag: Bag, stepName: string, kind: MessageKind, id: MessageId)
    requires stepName in bag
    ensures Ids(Append(ClearStep(Some(bag), stepName, kind).bag, stepName, id).value, stepName) == [id]
  {
  }
}
