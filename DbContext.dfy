/**
 * SimpleChatDbContext as the services use it: the four tables, the identity
 * column of each keyed table, and the operations the services perform on it,
 * each one a pending change followed by `SaveChangesAsync`.
 */
module DbContext {
  import opened Primitives
  import opened Store

  /**
   * An `int IDENTITY(1,1)` column: `next` is the value the next insert receives,
   * and every stored key is positive and below it.
   */
  predicate IdentitySeed(keys: set<Int32>, next: int)
  {
    1 <= next <= MaxInt32 + 1 && forall id :: id in keys ==> 1 <= id as int < next
  }

  /** The identity value an insert takes, or the overflow `SaveChanges` raises once the column is exhausted. */
  function NextIdentity(next: int): (r: Result<Int32, DbError>)
    requires 1 <= next <= MaxInt32 + 1
    ensures r.Err? <==> next > MaxInt32
    ensures r.Ok? ==> r.value as int == next && r.value > 0
  {
    if next > MaxInt32 then Err(IdentityOverflow) else Ok(next as Int32)
  }

  class SimpleChatDbContext {
    var tables: Tables
    var nextUserId: int
    var nextChatId: int
    var nextMessageId: int

    ghost predicate Valid()
      reads this
    {
      && Consistent(tables)
      && IdentitySeed(tables.users.Keys, nextUserId)
      && IdentitySeed(tables.chats.Keys, nextChatId)
      && IdentitySeed(tables.messages.Keys, nextMessageId)
    }

    /** A freshly created database: empty tables, every identity column at 1. */
    constructor ()
      ensures Valid()
      ensures tables == Tables(map[], map[], map[], {})
    {
      tables := Tables(map[], map[], map[], {});
      nextUserId, nextChatId, nextMessageId := 1, 1, 1;
    }

    /** `User.FindAsync(id)`: the user stored under this key, if any. */
    function FindUser(id: Int32): (u: Option<User>)
      reads this
      requires Valid()
      ensures u.Some? <==> id in tables.users
      ensures u.Some? ==> u.value == tables.users[id] && u.value.id == id
    {
      if id in tables.users then Some(tables.users[id]) else None
    }

    /** `Chat.FindAsync(id)`: the chat stored under this key, if any. */
    function FindChat(id: Int32): (c: Option<Chat>)
      reads this
      requires Valid()
      ensures c.Some? <==> id in tables.chats
      ensures c.Some? ==> c.value == tables.chats[id] && c.value.id == id && c.value.createdById in tables.users
    {
      if id in tables.chats then Some(tables.chats[id]) else None
    }

    /** `Message.FindAsync(id)`: the message stored under this key, if any. */
    function FindMessage(id: Int32): (m: Option<Message>)
      reads this
      requires Valid()
      ensures m.Some? <==> id in tables.messages
      ensures m.Some? ==> && m.value == tables.messages[id] && m.value.id == id
                          && m.value.chatId in tables.chats && m.value.userId in tables.users
    {
      if id in tables.messages then Some(tables.messages[id]) else None
    }

    /** `User.Add(user)` and `SaveChangesAsync`: the new row takes the next identity value. */
    method AddUser(userName: string) returns (r: Result<Int32, DbError>)
      requires Valid()
      modifies this
      ensures Valid()
      ensures old(nextUserId) > MaxInt32 ==> r == Err(IdentityOverflow)
      ensures old(nextUserId) <= MaxInt32 ==> (r.Ok? <==> Utf16Length(userName) <= UserNameMaxLength)
      ensures r.Err? ==> r.error != ForeignKeyViolation && tables == old(tables)
      ensures r.Ok? ==> && r.value > 0 && r.value !in old(tables.users)
                        && tables == old(tables).(users := old(tables.users)[r.value := User(r.value, userName)])
      ensures r.Ok? ==> r.value as int == old(nextUserId) && nextUserId == old(nextUserId) + 1
      ensures r.Err? ==> nextUserId == old(nextUserId)
      ensures nextChatId == old(nextChatId) && nextMessageId == old(nextMessageId)
    {
      var id := NextIdentity(nextUserId);
      if id.Err? {
        return Err(id.error);
      }
      var saved := PutUser(tables, User(id.value, userName));
      if saved.Err? {
        return Err(saved.error);
      }
      tables := saved.value;
      nextUserId := nextUserId + 1;
      r := Ok(id.value);
    }

    /** `Chat.Add(chat)` and `SaveChangesAsync`. */
    method AddChat(name: string, createdById: Int32) returns (r: Result<Int32, DbError>)
      requires Valid()
      modifies this
      ensures Valid()
      ensures old(nextChatId) > MaxInt32 ==> r == Err(IdentityOverflow)
      ensures old(nextChatId) <= MaxInt32 ==>
        (r.Ok? <==> Utf16Length(name) <= ChatNameMaxLength && createdById in old(tables.users))
      ensures r.Err? ==> tables == old(tables)
      ensures r.Ok? ==> && r.value > 0 && r.value !in old(tables.chats)
                        && tables == old(tables).(chats := old(tables.chats)[r.value := Chat(r.value, name, createdById)])
      ensures r.Ok? ==> r.value as int == old(nextChatId) && nextChatId == old(nextChatId) + 1
      ensures r.Err? ==> nextChatId == old(nextChatId)
      ensures nextUserId == old(nextUserId) && nextMessageId == old(nextMessageId)
    {
      var id := NextIdentity(nextChatId);
      if id.Err? {
        return Err(id.error);
      }
      var saved := PutChat(tables, Chat(id.value, name, createdById));
      if saved.Err? {
        return Err(saved.error);
      }
      tables := saved.value;
      nextChatId := nextChatId + 1;
      r := Ok(id.value);
    }

    /** `Message.Add(message)` and `SaveChangesAsync`. */
    method AddMessage(text: string, chatId: Int32, userId: Int32) returns (r: Result<Int32, DbError>)
      requires Valid()
      modifies this
      ensures Valid()
      ensures old(nextMessageId) > MaxInt32 ==> r == Err(IdentityOverflow)
      ensures old(nextMessageId) <= MaxInt32 ==>
        (r.Ok? <==> && Utf16Length(text) <= MessageTextMaxLength
                    && chatId in old(tables.chats) && userId in old(tables.users))
      ensures r.Err? ==> tables == old(tables)
      ensures r.Ok? ==> && r.value > 0 && r.value !in old(tables.messages)
                        && tables == old(tables).(messages := old(tables.messages)[r.value := Message(r.value, text, chatId, userId)])
      ensures r.Ok? ==> r.value as int == old(nextMessageId) && nextMessageId == old(nextMessageId) + 1
      ensures r.Err? ==> nextMessageId == old(nextMessageId)
      ensures nextUserId == old(nextUserId) && nextChatId == old(nextChatId)
    {
      var id := NextIdentity(nextMessageId);
      if id.Err? {
        return Err(id.error);
      }
      var saved := PutMessage(tables, Message(id.value, text, chatId, userId));
      if saved.Err? {
        return Err(saved.error);
      }
      tables := saved.value;
      nextMessageId := nextMessageId + 1;
      r := Ok(id.value);
    }

    /** `SaveChangesAsync` after the fields of a tracked user were overwritten. */
    method SaveUser(user: User) returns (r: Option<DbError>)
      requires Valid() && user.id in tables.users
      modifies this
      ensures Valid()
      ensures r.None? <==> Utf16Length(user.userName) <= UserNameMaxLength
      ensures r.Some? ==> tables == old(tables)
      ensures r.None? ==> tables == old(tables).(users := old(tables.users)[user.id := user])
      ensures nextUserId == old(nextUserId) && nextChatId == old(nextChatId) && nextMessageId == old(nextMessageId)
    {
      var saved := PutUser(tables, user);
      if saved.Err? {
        return Some(saved.error);
      }
      tables := saved.value;
      r := None;
    }

    /** `SaveChangesAsync` after the fields of a tracked chat were overwritten. */
    method SaveChat(chat: Chat) returns (r: Option<DbError>)
      requires Valid() && chat.id in tables.chats
      modifies this
      ensures Valid()
      ensures r.None? <==> Utf16Length(chat.name) <= ChatNameMaxLength && chat.createdById in old(tables.users)
      ensures r.Some? ==> tables == old(tables)
      ensures r.None? ==> tables == old(tables).(chats := old(tables.chats)[chat.id := chat])
      ensures nextUserId == old(nextUserId) && nextChatId == old(nextChatId) && nextMessageId == old(nextMessageId)
    {
      var saved := PutChat(tables, chat);
      if saved.Err? {
        return Some(saved.error);
      }
      tables := saved.value;
      r := None;
    }

    /** `SaveChangesAsync` after the fields of a tracked message were overwritten. */
    method SaveMessage(message: Message) returns (r: Option<DbError>)
      requires Valid() && message.id in tables.messages
      modifies this
      ensures Valid()
      ensures r.None? <==>
        && Utf16Length(message.text) <= MessageTextMaxLength
        && message.chatId in old(tables.chats) && message.userId in old(tables.users)
      ensures r.Some? ==> tables == old(tables)
      ensures r.None? ==> tables == old(tables).(messages := old(tables.messages)[message.id := message])
      ensures nextUserId == old(nextUserId) && nextChatId == old(nextChatId) && nextMessageId == old(nextMessageId)
    {
      var saved := PutMessage(tables, message);
      if saved.Err? {
        return Some(saved.error);
      }
      tables := saved.value;
      r := None;
    }

    /** `User.Remove(user)` and `SaveChangesAsync`: refused while the user is referenced (Restrict). */
    method RemoveUser(id: Int32) returns (r: Option<DbError>)
      requires Valid() && id in tables.users
      modifies this
      ensures Valid()
      ensures r.Some? <==> Referenced(old(tables), id)
      ensures r.Some? ==> r.value == ForeignKeyViolation && tables == old(tables)
      ensures r.None? ==> tables == DeleteUser(old(tables), id).value
      ensures nextUserId == old(nextUserId) && nextChatId == old(nextChatId) && nextMessageId == old(nextMessageId)
    {
      var deleted := DeleteUser(tables, id);
      if deleted.Err? {
        return Some(deleted.error);
      }
      DeleteUserConsistent(tables, id);
      tables := deleted.value;
      r := None;
    }

    /** `Chat.Remove(chat)` and `SaveChangesAsync`: the chat's messages and memberships cascade. */
    method RemoveChat(id: Int32)
      requires Valid() && id in tables.chats
      modifies this
      ensures Valid()
      ensures tables == DeleteChat(old(tables), id)
      ensures nextUserId == old(nextUserId) && nextChatId == old(nextChatId) && nextMessageId == old(nextMessageId)
    {
      DeleteChatConsistent(tables, id);
      tables := DeleteChat(tables, id);
    }

    /** `Message.Remove(message)` and `SaveChangesAsync`. */
    method RemoveMessage(id: Int32)
      requires Valid() && id in tables.messages
      modifies this
      ensures Valid()
      ensures tables == DeleteMessage(old(tables), id)
      ensures nextUserId == old(nextUserId) && nextChatId == old(nextChatId) && nextMessageId == old(nextMessageId)
    {
      tables := DeleteMessage(tables, id);
    }
  }
}
