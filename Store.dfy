/**
 * The relational store behind the DbContext: the four tables of the entity
 * configurations, the constraints those configurations declare, and what the
 * database does when a change is saved (insert or update of a row, delete with
 * Cascade and Restrict behaviour).
 */
module Store {
  import opened Primitives

  /** `HasMaxLength` of `UserName`, `Chat.Name` and `Message.Text`. */
  const UserNameMaxLength: nat := 100
  const ChatNameMaxLength: nat := 100
  const MessageTextMaxLength: nat := 500

  /** A `User` row. `UserName` is required, so it is a string and never null. */
  datatype User = User(id: Int32, userName: string)

  /** A `Chat` row; `createdById` is the owner's user id. */
  datatype Chat = Chat(id: Int32, name: string, createdById: Int32)

  /** A `Message` row, posted in `chatId` by `userId`. */
  datatype Message = Message(id: Int32, text: string, chatId: Int32, userId: Int32)

  /** A `UserChat` row: the membership of a user in a chat. */
  datatype UserChat = UserChat(userId: Int32, chatId: Int32)

  /**
   * The tables. Users, chats and messages are keyed by their `Id`; memberships
   * are keyed by the pair itself, so a set holds at most one row per pair.
   */
  datatype Tables = Tables(
    users: map<Int32, User>,
    chats: map<Int32, Chat>,
    messages: map<Int32, Message>,
    userChats: set<UserChat>)

  /** What `SaveChanges` can raise for a change the database refuses. */
  datatype DbError =
    | StringTruncated       // a value longer than its column's maximum length
    | ForeignKeyViolation   // a row referring to a missing row, or a Restrict delete
    | IdentityOverflow      // the `int` identity column has no value left

  /** UserConfiguration: `Id` is the key and `UserName` fits its column. */
  predicate UserConfigured(t: Tables)
  {
    forall id :: id in t.users ==>
      t.users[id].id == id && Utf16Length(t.users[id].userName) <= UserNameMaxLength
  }

  /** ChatConfiguration: `Id` is the key, `Name` fits, and the owner exists. */
  predicate ChatConfigured(t: Tables)
  {
    forall id :: id in t.chats ==>
      && t.chats[id].id == id
      && Utf16Length(t.chats[id].name) <= ChatNameMaxLength
      && t.chats[id].createdById in t.users
  }

  /** MessageConfiguration: `Id` is the key, `Text` fits, and the chat and the author exist. */
  predicate MessageConfigured(t: Tables)
  {
    forall id :: id in t.messages ==>
      && t.messages[id].id == id
      && Utf16Length(t.messages[id].text) <= MessageTextMaxLength
      && t.messages[id].chatId in t.chats
      && t.messages[id].userId in t.users
  }

  /** UserChatConfiguration: the user and the chat of every membership exist. */
  predicate UserChatConfigured(t: Tables)
  {
    forall uc :: uc in t.userChats ==> uc.userId in t.users && uc.chatId in t.chats
  }

  /** Every constraint of the four configurations: keys, lengths and referential integrity. */
  predicate Consistent(t: Tables)
  {
    UserConfigured(t) && ChatConfigured(t) && MessageConfigured(t) && UserChatConfigured(t)
  }

  /** `User.AnyAsync(e => e.Id == id)`: is there a user row with this id? */
  function AnyUser(t: Tables, id: Int32): (b: bool)
    ensures UserConfigured(t) ==> (b <==> id in t.users)
  {
    exists u :: u in t.users.Values && u.id == id
  }

  /** `Chat.AnyAsync(e => e.Id == id)`: is there a chat row with this id? */
  function AnyChat(t: Tables, id: Int32): (b: bool)
    ensures ChatConfigured(t) ==> (b <==> id in t.chats)
  {
    exists c :: c in t.chats.Values && c.id == id
  }

  /** `Message.AnyAsync(e => e.Id == id)`: is there a message row with this id? */
  function AnyMessage(t: Tables, id: Int32): (b: bool)
    ensures MessageConfigured(t) ==> (b <==> id in t.messages)
  {
    exists m :: m in t.messages.Values && m.id == id
  }

  /** `UserChat.AnyAsync(uc => uc.ChatId == chatId && uc.UserId == userId)`. */
  function AnyMembership(t: Tables, chatId: Int32, userId: Int32): (b: bool)
    ensures b <==> UserChat(userId, chatId) in t.userChats
  {
    exists uc :: uc in t.userChats && uc.chatId == chatId && uc.userId == userId
  }

  /**
   * Saving a user row (an insert or an update of `u.id`): refused when the name
   * does not fit its column.
   */
  function PutUser(t: Tables, u: User): (r: Result<Tables, DbError>)
    ensures r.Ok? <==> Utf16Length(u.userName) <= UserNameMaxLength
    ensures r.Ok? ==> r.value.users == t.users[u.id := u]
    ensures r.Ok? ==> r.value.chats == t.chats && r.value.messages == t.messages && r.value.userChats == t.userChats
    ensures r.Ok? && Consistent(t) ==> Consistent(r.value)
  {
    if Utf16Length(u.userName) > UserNameMaxLength then Err(StringTruncated)
    else Ok(t.(users := t.users[u.id := u]))
  }

  /**
   * Saving a chat row: refused when the name does not fit or the owner is not
   * a stored user.
   */
  function PutChat(t: Tables, c: Chat): (r: Result<Tables, DbError>)
    ensures r.Ok? <==> Utf16Length(c.name) <= ChatNameMaxLength && c.createdById in t.users
    ensures r.Ok? ==> r.value.chats == t.chats[c.id := c]
    ensures r.Ok? ==> r.value.users == t.users && r.value.messages == t.messages && r.value.userChats == t.userChats
    ensures r.Ok? && Consistent(t) ==> Consistent(r.value)
  {
    if Utf16Length(c.name) > ChatNameMaxLength then Err(StringTruncated)
    else if c.createdById !in t.users then Err(ForeignKeyViolation)
    else Ok(t.(chats := t.chats[c.id := c]))
  }

  /**
   * Saving a message row: refused when the text does not fit, or when its chat
   * or its author is not stored.
   */
  function PutMessage(t: Tables, m: Message): (r: Result<Tables, DbError>)
    ensures r.Ok? <==>
      Utf16Length(m.text) <= MessageTextMaxLength && m.chatId in t.chats && m.userId in t.users
    ensures r.Ok? ==> r.value.messages == t.messages[m.id := m]
    ensures r.Ok? ==> r.value.users == t.users && r.value.chats == t.chats && r.value.userChats == t.userChats
    ensures r.Ok? && Consistent(t) ==> Consistent(r.value)
  {
    if Utf16Length(m.text) > MessageTextMaxLength then Err(StringTruncated)
    else if m.chatId !in t.chats || m.userId !in t.users then Err(ForeignKeyViolation)
    else Ok(t.(messages := t.messages[m.id := m]))
  }

  /**
   * Deleting a chat. Messages and memberships of the chat go with it (both
   * relations are Cascade); users are untouched.
   */
  function DeleteChat(t: Tables, id: Int32): Tables
    requires id in t.chats
  {
    Tables(
      t.users,
      t.chats - {id},
      map mid | mid in t.messages && t.messages[mid].chatId != id :: t.messages[mid],
      set uc | uc in t.userChats && uc.chatId != id)
  }

  /**
   * Deleting a chat removes exactly that chat, its messages and its memberships,
   * and keeps every other row as it was.
   */
  lemma DeleteChatRemoves(t: Tables, id: Int32)
    requires id in t.chats
    ensures var r := DeleteChat(t, id);
      && id !in r.chats
      && r.users == t.users
      && (forall cid :: cid in r.chats <==> cid in t.chats && cid != id)
      && (forall cid :: cid in r.chats ==> r.chats[cid] == t.chats[cid])
      && (forall mid :: mid in r.messages <==> mid in t.messages && t.messages[mid].chatId != id)
      && (forall mid :: mid in r.messages ==> r.messages[mid] == t.messages[mid])
      && (forall uc :: uc in r.userChats <==> uc in t.userChats && uc.chatId != id)
  {
  }

  /** A chat delete keeps every constraint: nothing is left pointing at the deleted chat. */
  lemma DeleteChatConsistent(t: Tables, id: Int32)
    requires id in t.chats && Consistent(t)
    ensures Consistent(DeleteChat(t, id))
  {
    var r := DeleteChat(t, id);
    assert UserConfigured(r);
    assert ChatConfigured(r);
    assert MessageConfigured(r) by {
      forall mid | mid in r.messages
        ensures r.messages[mid].chatId in r.chats
      {
        assert r.messages[mid] == t.messages[mid];
      }
    }
    assert UserChatConfigured(r);
  }

  /** Does a chat or a message still refer to this user through a Restrict relation? */
  predicate Referenced(t: Tables, id: Int32)
  {
    || (exists cid :: cid in t.chats && t.chats[cid].createdById == id)
    || (exists mid :: mid in t.messages && t.messages[mid].userId == id)
  }

  /**
   * Deleting a user. Owned chats (ChatConfiguration, UserConfiguration) and
   * authored messages (MessageConfiguration) are Restrict, so the database
   * refuses while any exists; memberships (UserChatConfiguration) are Cascade.
   */
  function DeleteUser(t: Tables, id: Int32): (r: Result<Tables, DbError>)
    requires id in t.users
    ensures r.Err? <==> Referenced(t, id)
  {
    if Referenced(t, id) then Err(ForeignKeyViolation)
    else Ok(Tables(t.users - {id}, t.chats, t.messages, set uc | uc in t.userChats && uc.userId != id))
  }

  /** A user delete the database accepts keeps every constraint: no chat, message or membership refers to the user. */
  lemma DeleteUserConsistent(t: Tables, id: Int32)
    requires id in t.users && Consistent(t) && !Referenced(t, id)
    ensures DeleteUser(t, id).Ok? && Consistent(DeleteUser(t, id).value)
  {
    var r := DeleteUser(t, id).value;
    assert UserConfigured(r);
    assert ChatConfigured(r) by {
      forall cid | cid in r.chats
        ensures r.chats[cid].createdById in r.users
      {
        assert t.chats[cid].createdById != id;
      }
    }
    assert MessageConfigured(r) by {
      forall mid | mid in r.messages
        ensures r.messages[mid].userId in r.users
      {
        assert t.messages[mid].userId != id;
      }
    }
    assert UserChatConfigured(r);
  }

  /** A user delete the database accepts removes that user and their memberships, and nothing else. */
  lemma DeleteUserRemoves(t: Tables, id: Int32)
    requires id in t.users && !Referenced(t, id)
    ensures DeleteUser(t, id).Ok?
    ensures var r := DeleteUser(t, id).value;
      && (forall uid :: uid in r.users <==> uid in t.users && uid != id)
      && (forall uid :: uid in r.users ==> r.users[uid] == t.users[uid])
      && r.chats == t.chats && r.messages == t.messages
      && (forall uc :: uc in r.userChats <==> uc in t.userChats && uc.userId != id)
  {
  }

  /** Deleting a message removes that row only; no relation points at messages. */
  function DeleteMessage(t: Tables, id: Int32): (r: Tables)
    requires id in t.messages
    ensures Consistent(t) ==> Consistent(r)
  {
    t.(messages := t.messages - {id})
  }

  /**
   * Inserting a chat under a fresh key and deleting it again restores the
   * tables: in consistent tables nothing can refer to a key that is not stored,
   * so the cascade removes no other row.
   */
  lemma {:induction false} InsertDeleteChat(t: Tables, c: Chat)
    requires Consistent(t) && c.id !in t.chats && PutChat(t, c).Ok?
    ensures c.id in PutChat(t, c).value.chats
    ensures DeleteChat(PutChat(t, c).value, c.id) == t
  {
    var r := DeleteChat(PutChat(t, c).value, c.id);
    assert r.chats == t.chats;
    assert r.messages == t.messages by {
      forall mid | mid in t.messages
        ensures t.messages[mid].chatId != c.id
      {
        assert t.messages[mid].chatId in t.chats;
      }
    }
    assert r.userChats == t.userChats by {
      forall uc | uc in t.userChats
        ensures uc.chatId != c.id
      {
        assert uc.chatId in t.chats;
      }
    }
  }

  /** Inserting a user under a fresh key and deleting it again restores the tables. */
  lemma {:induction false} InsertDeleteUser(t: Tables, u: User)
    requires Consistent(t) && u.id !in t.users && PutUser(t, u).Ok?
    ensures u.id in PutUser(t, u).value.users
    ensures DeleteUser(PutUser(t, u).value, u.id) == Ok(t)
  {
    var s := PutUser(t, u).value;
    assert !Referenced(s, u.id) by {
      forall cid | cid in s.chats
        ensures s.chats[cid].createdById != u.id
      {
        assert t.chats[cid].createdById in t.users;
      }
      forall mid | mid in s.messages
        ensures s.messages[mid].userId != u.id
      {
        assert t.messages[mid].userId in t.users;
      }
    }
    var r := DeleteUser(s, u.id).value;
    assert r.users == t.users;
    assert r.userChats == t.userChats by {
      forall uc | uc in t.userChats
        ensures uc.userId != u.id
      {
        assert uc.userId in t.users;
      }
    }
  }

  /** Inserting a message under a fresh key and deleting it again restores the tables. */
  lemma {:induction false} InsertDeleteMessage(t: Tables, m: Message)
    requires m.id !in t.messages && PutMessage(t, m).Ok?
    ensures m.id in PutMessage(t, m).value.messages
    ensures DeleteMessage(PutMessage(t, m).value, m.id) == t
  {
    assert PutMessage(t, m).value.messages - {m.id} == t.messages;
  }

  /**
   * Whatever the order of a chat delete and a user delete the database accepts,
   * the tables end the same: the two deletes commute.
   */
  lemma DeletesCommute(t: Tables, chatId: Int32, userId: Int32)
    requires chatId in t.chats && userId in t.users && !Referenced(t, userId)
    ensures DeleteUser(DeleteChat(t, chatId), userId).Ok?
    ensures chatId in DeleteUser(t, userId).value.chats
    ensures DeleteChat(DeleteUser(t, userId).value, chatId) == DeleteUser(DeleteChat(t, chatId), userId).value
  {
    var afterChat := DeleteChat(t, chatId);
    assert !Referenced(afterChat, userId);
    var a := DeleteChat(DeleteUser(t, userId).value, chatId);
    var b := DeleteUser(afterChat, userId).value;
    assert a.userChats == b.userChats;
  }
}
