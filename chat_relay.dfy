/**
 * The socket event handlers of the chat relay: presence (connect / end),
 * the friend-request workflow, find-or-create of one-to-one conversations,
 * message history and text messages.
 *
 * The document store is held in memory by a `Relay` object: users by id,
 * pending friend requests by id, and conversations as a sequence whose index
 * is the conversation id (conversations are never deleted, and the index
 * order is taken as the store's order). Outbound emits are appended to an
 * outbox, addressed to the socket id stored on the target user's record.
 * Each handler runs as one atomic step.
 */
module ChatRelay {
  import opened Query

  type UserId = nat
  type RequestId = nat
  type ConversationId = nat
  type SocketId = string

  datatype Status = Online | Offline

  /** A user record as the relay reads and writes it. `socketId` is unset until
      the user first connects; `friends` is null until a request is accepted. */
  datatype User = User(socketId: Option<SocketId>, status: Status, friends: Option<seq<UserId>>)

  datatype FriendRequest = FriendRequest(sender: UserId, recipient: UserId)

  /** A chat message; `kind` is the client-supplied message type, passed through unchecked. */
  datatype Message = Message(to: UserId, from: UserId, kind: string, text: string, createdAt: int)

  datatype Conversation = Conversation(participants: seq<UserId>, messages: seq<Message>)

  datatype Payload =
    | Notice(notice: string)
    | ConversationDoc(id: ConversationId, conversation: Conversation)
    | ChatMessage(conversationId: ConversationId, message: Message)

  /** One outbound emit: the socket id it is addressed to (the stored
      `socket_id`, which may be unset), the event name if any, the payload. */
  datatype Emit = Emit(target: Option<SocketId>, event: Option<string>, payload: Payload)

  /** The document a handler dereferenced without checking that it exists. */
  datatype Fault =
    | NoSuchUser(user: UserId)
    | NoSuchRequest(request: RequestId)
    | NoSuchConversation(conversation: ConversationId)

  /** How a handler ended: normally, or by throwing on a missing document.
      Whatever the handler stored before the throw stays stored. */
  datatype Outcome = Completed | Crashed(fault: Fault)

  /** The friend list, reading a null list as empty. */
  function Friends(u: User): seq<UserId>
  {
    if u.friends.Some? then u.friends.value else []
  }

  /** The user map after `accept_request` has loaded both parties, pushed each
      onto the other's friend list and saved the receiver's document, then the
      sender's. */
  function Befriended(users: map<UserId, User>, req: FriendRequest): (r: map<UserId, User>)
    requires req.sender in users && req.recipient in users
    ensures r.Keys == users.Keys
    ensures forall u :: u in users && u != req.sender && u != req.recipient ==> r[u] == users[u]
    ensures forall u :: u in users ==> r[u].socketId == users[u].socketId && r[u].status == users[u].status
    ensures r[req.sender].friends.Some? && r[req.recipient].friends.Some?
    ensures Friends(r[req.sender]) == Friends(users[req.sender]) + [req.recipient]
    ensures req.sender != req.recipient ==>
              Friends(r[req.recipient]) == Friends(users[req.recipient]) + [req.sender]
  {
    var sender := users[req.sender];
    var receiver := users[req.recipient];
    var receiver' := receiver.(friends := Some(Friends(receiver) + [req.sender]));
    var sender' := sender.(friends := Some(Friends(sender) + [req.recipient]));
    users[req.recipient := receiver'][req.sender := sender']
  }

  /** Whether `c` answers `start_conversation`'s query for (to, from):
      exactly two participants, and both ids among them. */
  predicate IsDirect(c: Conversation, to: UserId, from: UserId)
  {
    |c.participants| == 2 && to in c.participants && from in c.participants
  }

  /** The participant list of a conversation between two distinct users. */
  predicate IsPair(p: seq<UserId>)
  {
    |p| == 2 && p[0] != p[1]
  }

  /** The users taking part, as a set. */
  function Members(p: seq<UserId>): set<UserId>
  {
    set u | u in p
  }

  /** The pair-uniqueness invariant: no two conversations between two distinct users
      have the same pair of participants. */
  ghost predicate PairsUnique(convs: seq<Conversation>)
  {
    forall i, j :: 0 <= i < j < |convs| && IsPair(convs[i].participants) && IsPair(convs[j].participants) ==>
      Members(convs[i].participants) != Members(convs[j].participants)
  }

  /** At most one conversation answers the (to, from) query. */
  ghost predicate AtMostOneDirect(convs: seq<Conversation>, to: UserId, from: UserId)
  {
    forall i, j :: 0 <= i < |convs| && 0 <= j < |convs| && IsDirect(convs[i], to, from) && IsDirect(convs[j], to, from) ==> i == j
  }

  /** `start_conversation`'s effect: the first conversation (in index order)
      answering the query, or else a new one with participants [to, from] and no
      messages. Returns the conversations afterwards and the chosen id. */
  function FindOrCreate(convs: seq<Conversation>, to: UserId, from: UserId): (r: (seq<Conversation>, ConversationId))
    ensures r.1 < |r.0| && IsDirect(r.0[r.1], to, from)
    ensures (exists i :: 0 <= i < |convs| && IsDirect(convs[i], to, from)) ==>
              r.0 == convs && forall j :: 0 <= j < r.1 ==> !IsDirect(convs[j], to, from)
    ensures (forall i :: 0 <= i < |convs| ==> !IsDirect(convs[i], to, from)) ==>
              r.0 == convs + [Conversation([to, from], [])] && r.1 == |convs|
  {
    match FirstWhere(convs, c => IsDirect(c, to, from))
    case Some(i) => (convs, i)
    case None => (convs + [Conversation([to, from], [])], |convs|)
  }

  /** The conversations after `text_message` has pushed `m` onto conversation `id`. */
  function Appended(convs: seq<Conversation>, id: ConversationId, m: Message): (r: seq<Conversation>)
    requires id < |convs|
    ensures |r| == |convs|
    ensures forall j :: 0 <= j < |r| ==> r[j].participants == convs[j].participants
    ensures r[id].messages == convs[id].messages + [m]
    ensures forall j :: 0 <= j < |r| && j != id ==> r[j] == convs[j]
  {
    convs[id := convs[id].(messages := convs[id].messages + [m])]
  }

  /** The conversations after one `text_message` per element of `ms`, in order, all to conversation `id`. */
  function AppendedAll(convs: seq<Conversation>, id: ConversationId, ms: seq<Message>): seq<Conversation>
    requires id < |convs|
    decreases |ms|
  {
    if ms == [] then convs else AppendedAll(Appended(convs, id, ms[0]), id, ms[1..])
  }

  /** The ids `get_direct_conversations` lists for `userId`: every conversation
      it takes part in, in index order. */
  function ConversationsOf(convs: seq<Conversation>, userId: UserId): (r: seq<ConversationId>)
    ensures forall i :: i in r <==> 0 <= i < |convs| && userId in convs[i].participants
    ensures forall a, b :: 0 <= a < b < |r| ==> r[a] < r[b]
  {
    AllWhere(convs, (c: Conversation) => userId in c.participants)
  }

  /** The messages `get_messages` hands back: those of the conversation, or null when there is none. */
  function MessagesOf(convs: seq<Conversation>, id: ConversationId): (r: Option<seq<Message>>)
    ensures r.Some? <==> id < |convs|
    ensures r.Some? ==> r.value == convs[id].messages
  {
    if id < |convs| then Some(convs[id].messages) else None
  }

  // ----- properties of the store operations -----

  /** Two users who are distinct have at most one conversation between them
      while the pair-uniqueness invariant holds. */
  lemma {:induction false} PairsUniqueGivesAtMostOne(convs: seq<Conversation>, to: UserId, from: UserId)
    requires PairsUnique(convs) && to != from
    ensures AtMostOneDirect(convs, to, from)
  {
    forall i, j | 0 <= i < |convs| && 0 <= j < |convs| && IsDirect(convs[i], to, from) && IsDirect(convs[j], to, from)
      ensures i == j
    {
      DirectMembers(convs[i], to, from);
      DirectMembers(convs[j], to, from);
    }
  }

  /** A conversation answering the query for two distinct users is a pair conversation with exactly those members. */
  lemma DirectMembers(c: Conversation, to: UserId, from: UserId)
    requires IsDirect(c, to, from) && to != from
    ensures IsPair(c.participants) && Members(c.participants) == {to, from}
  {
  }

  /** find-or-create never creates a second conversation for the pair it was asked about. */
  lemma {:induction false} FindOrCreateKeepsAtMostOne(convs: seq<Conversation>, to: UserId, from: UserId)
    requires AtMostOneDirect(convs, to, from)
    ensures AtMostOneDirect(FindOrCreate(convs, to, from).0, to, from)
  {
  }

  /** find-or-create keeps the pair-uniqueness invariant. */
  lemma {:induction false} FindOrCreateKeepsPairsUnique(convs: seq<Conversation>, to: UserId, from: UserId)
    requires PairsUnique(convs)
    ensures PairsUnique(FindOrCreate(convs, to, from).0)
  {
    var after := FindOrCreate(convs, to, from).0;
    if after != convs {
      var n := |convs|;
      assert after == convs + [Conversation([to, from], [])];
      if IsPair(after[n].participants) {
        forall i | 0 <= i < n && IsPair(after[i].participants)
          ensures Members(after[i].participants) != Members(after[n].participants)
        {
          assert to in Members(after[n].participants) && from in Members(after[n].participants);
        }
      }
    }
  }

  /** Starting the same conversation again, from either side, finds the one
      the first call returned and creates nothing. */
  lemma {:induction false} FindOrCreateIdempotent(convs: seq<Conversation>, to: UserId, from: UserId)
    ensures var (after, id) := FindOrCreate(convs, to, from);
            FindOrCreate(after, to, from) == (after, id) && FindOrCreate(after, from, to) == (after, id)
  {
    var (after, id) := FindOrCreate(convs, to, from);
    if after != convs {
      FirstWhereAppend(convs, Conversation([to, from], []), c => IsDirect(c, to, from));
    }
    FirstWhereAgree(after, c => IsDirect(c, to, from), c => IsDirect(c, from, to));
  }

  /** The conversation find-or-create returns is listed for both of its users. */
  lemma FindOrCreateListed(convs: seq<Conversation>, to: UserId, from: UserId)
    ensures var (after, id) := FindOrCreate(convs, to, from);
            id in ConversationsOf(after, to) && id in ConversationsOf(after, from)
  {
  }

  /** After N text messages to one conversation, its history is the old one
      followed by exactly those N messages in order; every other conversation
      is as it was. */
  lemma {:induction false} AppendedAllMessages(convs: seq<Conversation>, id: ConversationId, ms: seq<Message>)
    requires id < |convs|
    ensures |AppendedAll(convs, id, ms)| == |convs|
    ensures MessagesOf(AppendedAll(convs, id, ms), id) == Some(convs[id].messages + ms)
    ensures forall j :: 0 <= j < |convs| && j != id ==> AppendedAll(convs, id, ms)[j] == convs[j]
    decreases |ms|
  {
    if ms != [] {
      var next := Appended(convs, id, ms[0]);
      AppendedAllMessages(next, id, ms[1..]);
      assert AppendedAll(convs, id, ms) == AppendedAll(next, id, ms[1..]);
      assert ms == [ms[0]] + ms[1..];
      assert convs[id].messages + ms == next[id].messages + ms[1..];
    } else {
      assert convs[id].messages + ms == convs[id].messages;
    }
  }

  // ----- the handlers -----

  class Relay {
    var users: map<UserId, User>
    var requests: map<RequestId, FriendRequest>
    var conversations: seq<Conversation>
    var outbox: seq<Emit>
    var nextRequestId: nat

    ghost predicate Valid()
      reads this
    {
      (forall id :: id in requests ==> id < nextRequestId) && PairsUnique(conversations)
    }

    /** A relay over the given user records, with no requests, conversations or emits yet. */
    constructor (users: map<UserId, User>)
      ensures Valid()
      ensures this.users == users && requests == map[] && nextRequestId == 0 && conversations == [] && outbox == []
    {
      this.users := users;
      requests := map[];
      conversations := [];
      outbox := [];
      nextRequestId := 0;
    }

    /** A new connection: `userId` is the handshake's `user_id`, None when it is
        absent or empty. A known user is bound to the socket and marked Online. */
    method Connect(userId: Option<UserId>, socket: SocketId)
      requires Valid()
      modifies this
      ensures Valid()
      ensures requests == old(requests) && conversations == old(conversations)
      ensures outbox == old(outbox) && nextRequestId == old(nextRequestId)
      ensures userId.Some? && userId.value in old(users) ==>
                users == old(users)[userId.value := old(users)[userId.value].(socketId := Some(socket), status := Online)]
      ensures !(userId.Some? && userId.value in old(users)) ==> users == old(users)
    {
      if userId.Some? {
        var id := userId.value;
        if id in users {
          users := users[id := users[id].(socketId := Some(socket), status := Online)];
        }
      }
    }

    /** `friend_request`: records a request from `from` to `to` (nothing checks
        that they differ or exist), then notifies the recipient and the sender. */
    method SendFriendRequest(from: UserId, to: UserId) returns (outcome: Outcome)
      requires Valid()
      modifies this
      ensures Valid()
      ensures old(nextRequestId) !in old(requests)
      ensures requests == old(requests)[old(nextRequestId) := FriendRequest(from, to)]
      ensures users == old(users) && conversations == old(conversations)
      ensures to !in users ==> outcome == Crashed(NoSuchUser(to)) && outbox == old(outbox)
      ensures to in users && from !in users ==>
                outcome == Crashed(NoSuchUser(from)) &&
                outbox == old(outbox) + [Emit(users[to].socketId, Some("new_friend_request"), Notice("New Friend Request Received"))]
      ensures to in users && from in users ==>
                outcome == Completed &&
                outbox == old(outbox) + [Emit(users[to].socketId, Some("new_friend_request"), Notice("New Friend Request Received")),
                                         Emit(users[from].socketId, Some("request_sent"), Notice("Request sent successfully"))]
    {
      var toUser := if to in users then Some(users[to]) else None;
      var fromUser := if from in users then Some(users[from]) else None;
      requests := requests[nextRequestId := FriendRequest(from, to)];
      nextRequestId := nextRequestId + 1;
      if toUser.None? {
        return Crashed(NoSuchUser(to));
      }
      outbox := outbox + [Emit(toUser.value.socketId, Some("new_friend_request"), Notice("New Friend Request Received"))];
      if fromUser.None? {
        return Crashed(NoSuchUser(from));
      }
      outbox := outbox + [Emit(fromUser.value.socketId, Some("request_sent"), Notice("Request sent successfully"))];
      outcome := Completed;
    }

    /** `accept_request`: each party is pushed onto the other's friend list, the
        request is deleted and both parties are notified. A missing request,
        sender or recipient makes the handler throw before anything is saved. */
    method AcceptRequest(requestId: RequestId) returns (outcome: Outcome)
      requires Valid()
      modifies this
      ensures Valid()
      ensures conversations == old(conversations) && nextRequestId == old(nextRequestId)
      ensures requestId !in old(requests) ==>
                outcome == Crashed(NoSuchRequest(requestId)) &&
                users == old(users) && requests == old(requests) && outbox == old(outbox)
      ensures requestId in old(requests) && old(requests)[requestId].sender !in old(users) ==>
                outcome == Crashed(NoSuchUser(old(requests)[requestId].sender)) &&
                users == old(users) && requests == old(requests) && outbox == old(outbox)
      ensures requestId in old(requests) && old(requests)[requestId].sender in old(users)
              && old(requests)[requestId].recipient !in old(users) ==>
                outcome == Crashed(NoSuchUser(old(requests)[requestId].recipient)) &&
                users == old(users) && requests == old(requests) && outbox == old(outbox)
      ensures requestId in old(requests) && old(requests)[requestId].sender in old(users)
              && old(requests)[requestId].recipient in old(users) ==>
                var req := old(requests)[requestId];
                outcome == Completed &&
                users == Befriended(old(users), req) &&
                requests == old(requests) - {requestId} &&
                outbox == old(outbox) + [Emit(old(users)[req.sender].socketId, Some("request_accepted"), Notice("Friend Request Accepted")),
                                         Emit(old(users)[req.recipient].socketId, Some("request_accepted"), Notice("Friend Request Accepted"))]
    {
      if requestId !in requests {
        return Crashed(NoSuchRequest(requestId));
      }
      var req := requests[requestId];
      if req.sender !in users {
        return Crashed(NoSuchUser(req.sender));
      }
      if req.recipient !in users {
        return Crashed(NoSuchUser(req.recipient));
      }
      var sender := users[req.sender];
      var receiver := users[req.recipient];
      if sender.friends.None? {
        sender := sender.(friends := Some([]));
      }
      if receiver.friends.None? {
        receiver := receiver.(friends := Some([]));
      }
      sender := sender.(friends := Some(sender.friends.value + [req.recipient]));
      receiver := receiver.(friends := Some(receiver.friends.value + [req.sender]));
      users := users[req.recipient := receiver];
      users := users[req.sender := sender];
      requests := requests - {requestId};
      outbox := outbox + [Emit(sender.socketId, Some("request_accepted"), Notice("Friend Request Accepted"))];
      outbox := outbox + [Emit(receiver.socketId, Some("request_accepted"), Notice("Friend Request Accepted"))];
      outcome := Completed;
    }

    /** `get_direct_conversations`: the conversations `userId` takes part in, in index order. */
    function GetDirectConversations(userId: UserId): (r: seq<ConversationId>)
      reads this
      ensures forall i :: i in r <==> 0 <= i < |conversations| && userId in conversations[i].participants
      ensures forall a, b :: 0 <= a < b < |r| ==> r[a] < r[b]
    {
      ConversationsOf(conversations, userId)
    }

    /** `start_conversation`: finds the first conversation with exactly two
        participants including `to` and `from`, or creates one with
        participants [to, from], and emits it as `start_chat` to the calling socket. */
    method StartConversation(to: UserId, from: UserId, caller: SocketId) returns (id: ConversationId)
      requires Valid()
      modifies this
      ensures Valid()
      ensures (conversations, id) == FindOrCreate(old(conversations), to, from)
      ensures users == old(users) && requests == old(requests) && nextRequestId == old(nextRequestId)
      ensures id < |conversations|
      ensures outbox == old(outbox) + [Emit(Some(caller), Some("start_chat"), ConversationDoc(id, conversations[id]))]
    {
      FindOrCreateKeepsPairsUnique(conversations, to, from);
      var existing := AllWhere(conversations, c => IsDirect(c, to, from));
      if |existing| == 0 {
        conversations := conversations + [Conversation([to, from], [])];
        id := |conversations| - 1;
      } else {
        assert existing[0] in existing;
        id := existing[0];
      }
      outbox := outbox + [Emit(Some(caller), Some("start_chat"), ConversationDoc(id, conversations[id]))];
    }

    /** `get_messages`: the conversation's messages, or null when there is no such conversation. */
    function GetMessages(conversationId: ConversationId): (r: Option<seq<Message>>)
      reads this
      ensures r.Some? <==> conversationId < |conversations|
      ensures r.Some? ==> r.value == conversations[conversationId].messages
    {
      MessagesOf(conversations, conversationId)
    }

    /** `text_message`: appends the message, stamped `now`, to the conversation,
        then emits it (without an event name) to the recipient and the sender.
        A missing conversation throws before anything is stored; a missing user
        throws after the message is stored. */
    method TextMessage(to: UserId, from: UserId, text: string, conversationId: ConversationId, kind: string, now: int)
      returns (outcome: Outcome)
      requires Valid()
      modifies this
      ensures Valid()
      ensures users == old(users) && requests == old(requests) && nextRequestId == old(nextRequestId)
      ensures conversationId >= |old(conversations)| ==>
                outcome == Crashed(NoSuchConversation(conversationId)) &&
                conversations == old(conversations) && outbox == old(outbox)
      ensures conversationId < |old(conversations)| ==>
                conversations == Appended(old(conversations), conversationId, Message(to, from, kind, text, now))
      ensures conversationId < |old(conversations)| && to !in users ==>
                outcome == Crashed(NoSuchUser(to)) && outbox == old(outbox)
      ensures conversationId < |old(conversations)| && to in users && from !in users ==>
                outcome == Crashed(NoSuchUser(from)) &&
                outbox == old(outbox) + [Emit(users[to].socketId, None, ChatMessage(conversationId, Message(to, from, kind, text, now)))]
      ensures conversationId < |old(conversations)| && to in users && from in users ==>
                outcome == Completed &&
                outbox == old(outbox) + [Emit(users[to].socketId, None, ChatMessage(conversationId, Message(to, from, kind, text, now))),
                                         Emit(users[from].socketId, None, ChatMessage(conversationId, Message(to, from, kind, text, now)))]
    {
      var toUser := if to in users then Some(users[to]) else None;
      var fromUser := if from in users then Some(users[from]) else None;
      var message := Message(to, from, kind, text, now);
      if conversationId >= |conversations| {
        return Crashed(NoSuchConversation(conversationId));
      }
      var chat := conversations[conversationId];
      chat := chat.(messages := chat.messages + [message]);
      conversations := conversations[conversationId := chat];
      if toUser.None? {
        return Crashed(NoSuchUser(to));
      }
      outbox := outbox + [Emit(toUser.value.socketId, None, ChatMessage(conversationId, message))];
      if fromUser.None? {
        return Crashed(NoSuchUser(from));
      }
      outbox := outbox + [Emit(fromUser.value.socketId, None, ChatMessage(conversationId, message))];
      outcome := Completed;
    }

    /** `end`: a known user (when `user_id` is given) is marked Offline; its
        socket id and friends stay as they were. */
    method End(userId: Option<UserId>)
      requires Valid()
      modifies this
      ensures Valid()
      ensures requests == old(requests) && conversations == old(conversations)
      ensures outbox == old(outbox) && nextRequestId == old(nextRequestId)
      ensures userId.Some? && userId.value in old(users) ==>
                users == old(users)[userId.value := old(users)[userId.value].(status := Offline)]
      ensures !(userId.Some? && userId.value in old(users)) ==> users == old(users)
    {
      if userId.Some? {
        var id := userId.value;
        if id in users {
          users := users[id := users[id].(status := Offline)];
        }
      }
    }
  }

  /** A friend request between two connected users and its acceptance, twice. */
  method FriendshipScenario()
  {
    var relay := new Relay(map[1 := User(None, Offline, None), 2 := User(None, Offline, None)]);
    relay.Connect(Some(1), "socket-a");
    relay.Connect(Some(2), "socket-b");
    var sent := relay.SendFriendRequest(1, 2);
    assert sent == Completed;
    assert relay.requests == map[0 := FriendRequest(1, 2)];
    assert 1 in relay.users && 2 in relay.users;
    assert relay.outbox == [Emit(Some("socket-b"), Some("new_friend_request"), Notice("New Friend Request Received")),
                            Emit(Some("socket-a"), Some("request_sent"), Notice("Request sent successfully"))];
    var accepted := relay.AcceptRequest(0);
    assert accepted == Completed && relay.requests == map[];
    assert Friends(relay.users[1]) == [2] && Friends(relay.users[2]) == [1];
    var again := relay.AcceptRequest(0);
    assert again == Crashed(NoSuchRequest(0));
    assert Friends(relay.users[1]) == [2] && Friends(relay.users[2]) == [1];
    relay.End(Some(2));
    assert relay.users[2] == User(Some("socket-b"), Offline, Some([1]));
  }

  /** A conversation started twice, from either side. */
  method ConversationScenario()
  {
    var relay := new Relay(map[1 := User(Some("socket-a"), Online, None), 2 := User(Some("socket-b"), Online, None)]);
    FindOrCreateIdempotent([], 2, 1);
    var first := relay.StartConversation(2, 1, "socket-a");
    assert first == 0 && relay.conversations == [Conversation([2, 1], [])];
    var second := relay.StartConversation(1, 2, "socket-b");
    assert second == first && |relay.conversations| == 1;
  }

  /** A text message in an existing conversation between two online users. */
  method MessageScenario()
  {
    var relay := new Relay(map[1 := User(Some("socket-a"), Online, None), 2 := User(Some("socket-b"), Online, None)]);
    relay.conversations := [Conversation([2, 1], [])];
    var hi := Message(2, 1, "text", "hi", 1000);
    var delivered := relay.TextMessage(2, 1, "hi", 0, "text", 1000);
    assert delivered == Completed;
    assert relay.conversations[0].messages == [] + [hi] == [hi];
    assert relay.GetMessages(0) == Some(relay.conversations[0].messages);
    assert relay.outbox == [Emit(Some("socket-b"), None, ChatMessage(0, hi)), Emit(Some("socket-a"), None, ChatMessage(0, hi))];
  }
}
