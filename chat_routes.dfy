/** The chat routes (backend/routes/chatRoutes.js), behind `protect`:
    `POST /` stores a message from the requester, and `GET /:userId`
    returns the conversation between the requester and another user,
    oldest first. The message schema is not part of this model; a message
    is the record the route builds. */
module ChatRoutes {
  import opened Seqs
  import opened UserModel

  datatype Message = Message(sender: Id, receiver: Id, text: string, createdAt: int)

  function CreatedAt(m: Message): int {
    m.createdAt
  }

  /** `m` was sent from `a` to `b` or from `b` to `a`. */
  predicate Between(m: Message, a: Id, b: Id) {
    (m.sender == a && m.receiver == b) || (m.sender == b && m.receiver == a)
  }

  /** `GET /:userId`: the messages in either direction, by `createdAt`
      ascending. */
  function History(messages: seq<Message>, me: Id, other: Id): (r: seq<Message>)
    ensures SortedBy(r, CreatedAt)
    ensures forall m :: m in r <==> m in messages && Between(m, me, other)
    ensures multiset(r) == multiset(Filter(messages, (m: Message) => Between(m, me, other)))
  {
    var between := Filter(messages, (m: Message) => Between(m, me, other));
    var r := SortBy(between, CreatedAt);
    assert forall m :: m in r <==> m in multiset(between);
    r
  }

  /** Both participants see the same conversation. */
  lemma HistorySymmetric(messages: seq<Message>, a: Id, b: Id)
    ensures History(messages, a, b) == History(messages, b, a)
  {
    FilterCongruent(messages, (m: Message) => Between(m, a, b), (m: Message) => Between(m, b, a));
  }

  /** The messages collection. */
  class MessageStore {
    var messages: seq<Message>

    constructor ()
      ensures messages == []
    {
      messages := [];
    }

    /** `POST /`: the sender is the requester `me` that `protect` resolved,
        never a field of the body; the receiver and the text are stored as
        sent, without any check. */
    method Send(me: Id, receiverId: Id, text: string, now: int) returns (m: Message)
      modifies this
      ensures m == Message(me, receiverId, text, now)
      ensures messages == old(messages) + [m]
      ensures m in History(messages, me, receiverId) && m in History(messages, receiverId, me)
    {
      m := Message(me, receiverId, text, now);
      messages := messages + [m];
      HistorySymmetric(messages, me, receiverId);
    }
  }

  /** Sending one message changes no other conversation. */
  lemma SendLeavesOtherConversations(messages: seq<Message>, m: Message, a: Id, b: Id)
    requires !Between(m, a, b)
    ensures History(messages + [m], a, b) == History(messages, a, b)
  {
    FilterAppendDropped(messages, m, (x: Message) => Between(x, a, b));
  }
}
