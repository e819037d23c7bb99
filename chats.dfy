/** The chats and chat_messages tables. */
module ChatsSchemas {
  import opened Common

  const DefaultChatTitle: string := "New Chat"
  const ChatTitleMaxLength: nat := 255
  const ChatUserIdMaxLength: nat := 255
  const MessageIdMaxLength: nat := 255

  datatype ChatStatus = Complete | Streaming
  const DefaultChatStatus: ChatStatus := Complete

  datatype MessageRole = UserRole | AssistantRole | SystemRole

  datatype Chat = Chat(id: Uuid, title: Option<string>, userId: string, createdAt: nat, updatedAt: nat, status: ChatStatus)

  /** Message ids are chosen by the client, so they are plain strings, unique across all chats. */
  datatype ChatMessage = ChatMessage(id: string, chatId: Uuid, role: MessageRole, content: string, createdAt: nat)

  predicate ChatRowOk(c: Chat)
  {
    && (c.title.Some? ==> |c.title.value| <= ChatTitleMaxLength)
    && |c.userId| <= ChatUserIdMaxLength
  }
}

/** The chat router's procedures as transitions of the two tables. The caller's id comes
    from the authenticated context and is always present here. */
module ChatsSpec {
  import opened Common
  import opened ChatsSchemas

  datatype Tables = Tables(chats: map<Uuid, Chat>, messages: map<string, ChatMessage>)

  datatype Step<T> = Step(tables: Tables, result: Result<T>)

  ghost predicate Valid(t: Tables)
  {
    && (forall id :: id in t.chats ==> t.chats[id].id == id && ChatRowOk(t.chats[id]))
    && (forall id :: id in t.messages ==>
          t.messages[id].id == id && |id| <= MessageIdMaxLength && t.messages[id].chatId in t.chats)
  }

  const ChatNotFound: Error := Error(NotFound, "Chat not found")
  const NoAccess: Error := Error(Forbidden, "You don't have access to this chat")
  const DatabaseError: string := "database constraint violated"

  // ---- createChat ----

  /** The stored title: the supplied one when it is a non-empty string, else "New Chat". */
  function ChatTitle(title: Option<string>): (r: string)
    ensures r == DefaultChatTitle <==> !Truthy(title) || title.value == DefaultChatTitle
    ensures Truthy(title) ==> r == title.value
  {
    if Truthy(title) then title.value else DefaultChatTitle
  }

  function CreateChat(t: Tables, userId: string, title: Option<string>, chatId: Uuid, now: nat): Step<Chat>
  {
    var c := Chat(chatId, Some(ChatTitle(title)), userId, now, now, DefaultChatStatus);
    if chatId in t.chats || !ChatRowOk(c) then Step(t, Err(Error(InternalServerError, DatabaseError)))
    else Step(t.(chats := t.chats[chatId := c]), Ok(c))
  }

  // ---- queries ----

  ghost function MessageCreated(m: ChatMessage): int { m.createdAt }
  ghost function ChatUpdated(c: Chat): int { c.updatedAt }

  function MessagesOf(ms: map<string, ChatMessage>, chatId: Uuid): set<ChatMessage>
  {
    set id | id in ms && ms[id].chatId == chatId :: ms[id]
  }

  datatype ChatWithMessages = ChatWithMessages(chat: Chat, messages: seq<ChatMessage>)

  /** The caller's chat with its messages, oldest first. */
  ghost function GetChatById(t: Tables, userId: string, chatId: Uuid): (r: Result<ChatWithMessages>)
    ensures r.Ok? ==> (multiset(r.value.messages) == multiset(MessagesOf(t.messages, chatId))
                       && Ordered(r.value.messages, MessageCreated, false))
  {
    if chatId !in t.chats then Err(ChatNotFound)
    else if t.chats[chatId].userId != userId then Err(NoAccess)
    else Ok(ChatWithMessages(t.chats[chatId], SortBy(MessagesOf(t.messages, chatId), MessageCreated, false)))
  }

  function ChatsOf(t: Tables, userId: string): set<Chat>
  {
    set id | id in t.chats && t.chats[id].userId == userId :: t.chats[id]
  }

  /** The caller's chats, most recently updated first. */
  ghost function GetUserChats(t: Tables, userId: string): (r: seq<Chat>)
    ensures multiset(r) == multiset(ChatsOf(t, userId)) && Ordered(r, ChatUpdated, true)
  {
    SortBy(ChatsOf(t, userId), ChatUpdated, true)
  }

  // ---- updateChatStatus ----

  /** The update runs first; the ownership check only decides what the caller is told. */
  function UpdateChatStatus(t: Tables, userId: string, chatId: Uuid, status: ChatStatus, now: nat): Step<Chat>
  {
    if chatId !in t.chats then Step(t, Err(ChatNotFound))
    else
      var c := t.chats[chatId].(status := status, updatedAt := now);
      var t' := t.(chats := t.chats[chatId := c]);
      if c.userId != userId then Step(t', Err(NoAccess)) else Step(t', Ok(c))
  }

  // ---- saveMessages ----

  datatype MessageInput = MessageInput(id: string, role: MessageRole, content: string, createdAt: Option<nat>)

  function Row(chatId: Uuid, m: MessageInput, now: nat): ChatMessage
  {
    ChatMessage(m.id, chatId, m.role, m.content, if m.createdAt.Some? then m.createdAt.value else now)
  }

  /** The map after inserting the rows built from `batch`. */
  function WithBatch(ms: map<string, ChatMessage>, chatId: Uuid, batch: seq<MessageInput>, now: nat): map<string, ChatMessage>
    decreases |batch|
  {
    if batch == [] then ms else WithBatch(ms[batch[0].id := Row(chatId, batch[0], now)], chatId, batch[1..], now)
  }

  predicate DistinctIds(batch: seq<MessageInput>)
  {
    forall i, j :: 0 <= i < j < |batch| ==> batch[i].id != batch[j].id
  }

  predicate InBatch(batch: seq<MessageInput>, id: string)
  {
    exists i :: 0 <= i < |batch| && batch[i].id == id
  }

  /** The one multi-row insert succeeds: no id is repeated, taken or too long. */
  predicate BatchInsertOk(ms: map<string, ChatMessage>, batch: seq<MessageInput>)
  {
    && DistinctIds(batch)
    && forall i :: 0 <= i < |batch| ==> batch[i].id !in ms && |batch[i].id| <= MessageIdMaxLength
  }

  function WithoutChat(ms: map<string, ChatMessage>, chatId: Uuid): map<string, ChatMessage>
  {
    map id | id in ms && ms[id].chatId != chatId :: ms[id]
  }

  /** Replace the chat's messages by the batch, then mark the chat complete. The three
      statements are not in a transaction: when the insert fails the chat's old messages
      are already deleted. */
  function SaveMessages(t: Tables, userId: string, chatId: Uuid, batch: seq<MessageInput>, now: nat): Step<bool>
  {
    if chatId !in t.chats then Step(t, Err(ChatNotFound))
    else if t.chats[chatId].userId != userId then Step(t, Err(NoAccess))
    else
      var kept := WithoutChat(t.messages, chatId);
      if |batch| > 0 && !BatchInsertOk(kept, batch) then
        Step(t.(messages := kept), Err(Error(InternalServerError, DatabaseError)))
      else
        var ms := if |batch| > 0 then WithBatch(kept, chatId, batch, now) else kept;
        Step(Tables(t.chats[chatId := t.chats[chatId].(updatedAt := now, status := Complete)], ms), Ok(true))
  }

  // ---- addMessage ----

  datatype NewMessage = NewMessage(id: string, role: MessageRole, content: string)

  function AddMessage(t: Tables, userId: string, chatId: Uuid, m: NewMessage, now: nat): Step<bool>
  {
    if chatId !in t.chats then Step(t, Err(ChatNotFound))
    else if t.chats[chatId].userId != userId then Step(t, Err(NoAccess))
    else if m.id in t.messages || |m.id| > MessageIdMaxLength then Step(t, Err(Error(InternalServerError, DatabaseError)))
    else
      Step(Tables(t.chats[chatId := t.chats[chatId].(updatedAt := now)],
                  t.messages[m.id := ChatMessage(m.id, chatId, m.role, m.content, now)]), Ok(true))
  }

  // ---- Properties ----

  /** What a batch insert leaves in the map: every batch row under its id, every other row
      as it was. */
  lemma {:induction false} WithBatchContents(ms: map<string, ChatMessage>, chatId: Uuid, batch: seq<MessageInput>, now: nat)
    requires DistinctIds(batch)
    ensures var r := WithBatch(ms, chatId, batch, now);
      && (forall id :: id in r <==> id in ms || InBatch(batch, id))
      && (forall i :: 0 <= i < |batch| ==> r[batch[i].id] == Row(chatId, batch[i], now))
      && (forall id :: id in ms && !InBatch(batch, id) ==> r[id] == ms[id])
    decreases |batch|
  {
    if batch != [] {
      var ms' := ms[batch[0].id := Row(chatId, batch[0], now)];
      var rest := batch[1..];
      assert DistinctIds(rest) by {
        forall i, j | 0 <= i < j < |rest| ensures rest[i].id != rest[j].id {
          assert rest[i] == batch[i + 1] && rest[j] == batch[j + 1];
        }
      }
      WithBatchContents(ms', chatId, rest, now);
      var r := WithBatch(ms, chatId, batch, now);
      assert r == WithBatch(ms', chatId, rest, now);
      forall id ensures InBatch(batch, id) <==> id == batch[0].id || InBatch(rest, id) {
        if InBatch(batch, id) && id != batch[0].id {
          var i :| 0 <= i < |batch| && batch[i].id == id;
          assert rest[i - 1].id == id;
        }
        if InBatch(rest, id) {
          var i :| 0 <= i < |rest| && rest[i].id == id;
          assert batch[i + 1].id == id;
        }
      }
      forall i | 0 <= i < |batch| ensures r[batch[i].id] == Row(chatId, batch[i], now) {
        if i == 0 {
          assert !InBatch(rest, batch[0].id);
        } else {
          assert batch[i] == rest[i - 1];
        }
      }
    }
  }

  /** saveMessages on an owned chat makes the chat's messages exactly the supplied list,
      leaves every other chat's messages alone and marks the chat complete. */
  lemma {:induction false} SaveMessagesReplaces(t: Tables, userId: string, chatId: Uuid, batch: seq<MessageInput>, now: nat)
    requires SaveMessages(t, userId, chatId, batch, now).result.Ok?
    ensures var t' := SaveMessages(t, userId, chatId, batch, now).tables;
      && (forall id :: id in t'.messages && t'.messages[id].chatId == chatId <==> InBatch(batch, id))
      && (forall i :: 0 <= i < |batch| ==> batch[i].id in t'.messages && t'.messages[batch[i].id] == Row(chatId, batch[i], now))
      && (forall id :: id in t.messages && t.messages[id].chatId != chatId ==> id in t'.messages && t'.messages[id] == t.messages[id])
      && t'.chats[chatId].status == Complete && t'.chats[chatId].updatedAt == now
  {
    var t' := SaveMessages(t, userId, chatId, batch, now).tables;
    var kept := WithoutChat(t.messages, chatId);
    if |batch| > 0 {
      WithBatchContents(kept, chatId, batch, now);
      forall id | InBatch(batch, id) ensures id in t'.messages && t'.messages[id].chatId == chatId {
        var i :| 0 <= i < |batch| && batch[i].id == id;
      }
      forall id | id in t.messages && t.messages[id].chatId != chatId
        ensures id in t'.messages && t'.messages[id] == t.messages[id]
      {
      }
    }
  }

  /** The delete is not undone: when the insert fails, the chat has lost its messages. */
  lemma SaveMessagesFailureLosesMessages(t: Tables, userId: string, chatId: Uuid, batch: seq<MessageInput>, now: nat)
    requires chatId in t.chats && t.chats[chatId].userId == userId
    requires |batch| > 0 && !BatchInsertOk(WithoutChat(t.messages, chatId), batch)
    ensures var s := SaveMessages(t, userId, chatId, batch, now);
      && s.result == Err(Error(InternalServerError, DatabaseError))
      && MessagesOf(s.tables.messages, chatId) == {}
      && s.tables.chats == t.chats
  {
  }

  /** addMessage on an owned chat adds exactly one message and leaves the others untouched. */
  lemma AddMessageAppends(t: Tables, userId: string, chatId: Uuid, m: NewMessage, now: nat)
    requires AddMessage(t, userId, chatId, m, now).result.Ok?
    ensures var t' := AddMessage(t, userId, chatId, m, now).tables;
      && m.id !in t.messages
      && t'.messages.Keys == t.messages.Keys + {m.id}
      && (forall id :: id in t.messages ==> t'.messages[id] == t.messages[id])
      && MessagesOf(t'.messages, chatId) == MessagesOf(t.messages, chatId) + {ChatMessage(m.id, chatId, m.role, m.content, now)}
  {
    var t' := AddMessage(t, userId, chatId, m, now).tables;
    var x := ChatMessage(m.id, chatId, m.role, m.content, now);
    assert x in MessagesOf(t'.messages, chatId) by { assert t'.messages[m.id] == x; }
  }

  /** A FORBIDDEN answer from updateChatStatus does not undo the write: another user's
      chat gets the new status. */
  lemma UpdateChatStatusWritesBeforeCheck(t: Tables, userId: string, chatId: Uuid, status: ChatStatus, now: nat)
    requires chatId in t.chats && t.chats[chatId].userId != userId
    ensures var s := UpdateChatStatus(t, userId, chatId, status, now);
      s.result == Err(NoAccess) && s.tables.chats[chatId].status == status && s.tables.chats[chatId].updatedAt == now
  {
  }

  /** Only the owner reads a chat; the chat that createChat returns is the caller's and is
      listed for them with the resolved title. */
  lemma {:induction false} CreatedChatIsOwned(t: Tables, userId: string, title: Option<string>, chatId: Uuid, now: nat, other: string)
    requires CreateChat(t, userId, title, chatId, now).result.Ok?
    requires other != userId
    ensures var s := CreateChat(t, userId, title, chatId, now);
      && s.result.value.title == Some(if Truthy(title) then title.value else DefaultChatTitle)
      && s.result.value in multiset(GetUserChats(s.tables, userId))
      && GetChatById(s.tables, userId, chatId).Ok?
      && GetChatById(s.tables, other, chatId) == Err(NoAccess)
  {
    var s := CreateChat(t, userId, title, chatId, now);
    assert s.result.value in ChatsOf(s.tables, userId) by { assert s.tables.chats[chatId] == s.result.value; }
  }

  /** Every procedure keeps the constraints. */
  lemma ChatUpdatesKeepValid(t: Tables, userId: string, chatId: Uuid, title: Option<string>, status: ChatStatus,
                             m: NewMessage, now: nat)
    requires Valid(t)
    ensures Valid(CreateChat(t, userId, title, chatId, now).tables)
    ensures Valid(UpdateChatStatus(t, userId, chatId, status, now).tables)
    ensures Valid(AddMessage(t, userId, chatId, m, now).tables)
  {
  }

  lemma {:induction false} SaveMessagesKeepsValid(t: Tables, userId: string, chatId: Uuid, batch: seq<MessageInput>, now: nat)
    requires Valid(t)
    ensures Valid(SaveMessages(t, userId, chatId, batch, now).tables)
  {
    var s := SaveMessages(t, userId, chatId, batch, now);
    if chatId in t.chats && t.chats[chatId].userId == userId {
      var kept := WithoutChat(t.messages, chatId);
      if |batch| > 0 && BatchInsertOk(kept, batch) {
        WithBatchContents(kept, chatId, batch, now);
        forall id | id in s.tables.messages
          ensures s.tables.messages[id].id == id && |id| <= MessageIdMaxLength && s.tables.messages[id].chatId in s.tables.chats
        {
          if InBatch(batch, id) {
            var i :| 0 <= i < |batch| && batch[i].id == id;
          }
        }
      }
    }
  }
}

/** The chat router as a service whose fields are its two tables. */
module ChatsRouter {
  import opened Common
  import opened ChatsSchemas
  import Spec = ChatsSpec

  class ChatService {
    var chats: map<Uuid, Chat>
    var messages: map<string, ChatMessage>

    function Db(): Spec.Tables
      reads this
    {
      Spec.Tables(chats, messages)
    }

    ghost predicate Valid()
      reads this
    {
      Spec.Valid(Db())
    }

    constructor (initial: Spec.Tables)
      requires Spec.Valid(initial)
      ensures Valid() && Db() == initial
    {
      chats := initial.chats;
      messages := initial.messages;
    }

    method CreateChat(userId: string, title: Option<string>, chatId: Uuid, now: nat) returns (r: Result<Chat>)
      requires Valid()
      modifies this
      ensures Valid()
      ensures Db() == Spec.CreateChat(old(Db()), userId, title, chatId, now).tables
      ensures r == Spec.CreateChat(old(Db()), userId, title, chatId, now).result
    {
      Spec.ChatUpdatesKeepValid(Db(), userId, chatId, title, Complete, Spec.NewMessage("", UserRole, ""), now);
      var c := Chat(chatId, Some(Spec.ChatTitle(title)), userId, now, now, DefaultChatStatus);
      if chatId in chats || !ChatRowOk(c) {
        return Err(Error(InternalServerError, Spec.DatabaseError));
      }
      chats := chats[chatId := c];
      r := Ok(c);
    }

    /** Write first, check ownership afterwards. */
    method UpdateChatStatus(userId: string, chatId: Uuid, status: ChatStatus, now: nat) returns (r: Result<Chat>)
      requires Valid()
      modifies this
      ensures Valid()
      ensures Db() == Spec.UpdateChatStatus(old(Db()), userId, chatId, status, now).tables
      ensures r == Spec.UpdateChatStatus(old(Db()), userId, chatId, status, now).result
    {
      Spec.ChatUpdatesKeepValid(Db(), userId, chatId, None, status, Spec.NewMessage("", UserRole, ""), now);
      if chatId !in chats {
        return Err(Spec.ChatNotFound);
      }
      var updated := chats[chatId].(status := status, updatedAt := now);
      chats := chats[chatId := updated];
      if updated.userId != userId {
        return Err(Spec.NoAccess);
      }
      r := Ok(updated);
    }

    /** Delete the chat's messages, insert the batch, then mark the chat complete; the
        statements run one after another without a transaction. */
    method SaveMessages(userId: string, chatId: Uuid, batch: seq<Spec.MessageInput>, now: nat) returns (r: Result<bool>)
      requires Valid()
      modifies this
      ensures Valid()
      ensures Db() == Spec.SaveMessages(old(Db()), userId, chatId, batch, now).tables
      ensures r == Spec.SaveMessages(old(Db()), userId, chatId, batch, now).result
    {
      Spec.SaveMessagesKeepsValid(Db(), userId, chatId, batch, now);
      if chatId !in chats {
        return Err(Spec.ChatNotFound);
      }
      if chats[chatId].userId != userId {
        return Err(Spec.NoAccess);
      }
      messages := Spec.WithoutChat(messages, chatId);
      if |batch| > 0 {
        if !Spec.BatchInsertOk(messages, batch) {
          return Err(Error(InternalServerError, Spec.DatabaseError));
        }
        messages := Spec.WithBatch(messages, chatId, batch, now);
      }
      chats := chats[chatId := chats[chatId].(updatedAt := now, status := Complete)];
      r := Ok(true);
    }

    method AddMessage(userId: string, chatId: Uuid, m: Spec.NewMessage, now: nat) returns (r: Result<bool>)
      requires Valid()
      modifies this
      ensures Valid()
      ensures Db() == Spec.AddMessage(old(Db()), userId, chatId, m, now).tables
      ensures r == Spec.AddMessage(old(Db()), userId, chatId, m, now).result
    {
      Spec.ChatUpdatesKeepValid(Db(), userId, chatId, None, Complete, m, now);
      if chatId !in chats {
        return Err(Spec.ChatNotFound);
      }
      if chats[chatId].userId != userId {
        return Err(Spec.NoAccess);
      }
      if m.id in messages || |m.id| > MessageIdMaxLength {
        return Err(Error(InternalServerError, Spec.DatabaseError));
      }
      messages := messages[m.id := ChatMessage(m.id, chatId, m.role, m.content, now)];
      chats := chats[chatId := chats[chatId].(updatedAt := now)];
      r := Ok(true);
    }
  }
}
