/** The structural rule sets for chat requests: CreateChatValidator, UpdateChatValidator and AddUserToChatValidator. */
module ChatValidators {
  import opened Primitives
  import opened Failures
  import opened Rules
  import opened Requests

  const NameMaxLength: nat := 100

  const BlankName := ValidationFailure(Name, ChatNameRequired)
  const LongName := ValidationFailure(Name, ChatNameTooLong)
  const ZeroOwnerId := ValidationFailure(OwnerId, CreatorIdRequired)
  const NonPositiveOwnerId := ValidationFailure(OwnerId, CreatorIdNotPositive)
  const ZeroChatId := ValidationFailure(Id, ChatIdRequired)
  const NonPositiveChatId := ValidationFailure(Id, ChatIdNotPositive)
  const ZeroUserId := ValidationFailure(UserId, UserIdRequired)
  const NonPositiveUserId := ValidationFailure(UserId, UserIdNotPositive)

  /** CreateChatValidator: a Name chain and an OwnerId chain, all rules evaluated. */
  function CreateChat(request: CreateChatRequest): (errors: seq<ValidationFailure>)
    ensures forall f :: f in errors <==>
      || (f == BlankName && IsNullOrWhiteSpace(request.name))
      || (f == LongName && request.name.Some? && Utf16Length(request.name.value) > NameMaxLength)
      || (f == ZeroOwnerId && request.ownerId == 0)
      || (f == NonPositiveOwnerId && request.ownerId <= 0)
  {
    var name := TextChain(request.name, NameMaxLength, BlankName, LongName);
    var owner := IdChain(request.ownerId, ZeroOwnerId, NonPositiveOwnerId);
    assert forall f :: f in name + owner <==> f in name || f in owner;
    name + owner
  }

  /** CreateChatValidator accepts exactly a valid name with a positive owner id. */
  lemma CreateChatAccepts(request: CreateChatRequest)
    ensures CreateChat(request) == [] <==> ValidText(request.name, NameMaxLength) && request.ownerId > 0
  {
    var errors := CreateChat(request);
    if errors != [] {
      assert errors[0] in errors;
    }
  }

  /** UpdateChatValidator: only the Name chain; the id is not inspected. */
  function UpdateChat(request: UpdateChatRequest): (errors: seq<ValidationFailure>)
    ensures forall f :: f in errors <==>
      || (f == BlankName && IsNullOrWhiteSpace(request.name))
      || (f == LongName && request.name.Some? && Utf16Length(request.name.value) > NameMaxLength)
  {
    TextChain(request.name, NameMaxLength, BlankName, LongName)
  }

  /** UpdateChatValidator accepts exactly a valid name. */
  lemma UpdateChatAccepts(request: UpdateChatRequest)
    ensures UpdateChat(request) == [] <==> ValidText(request.name, NameMaxLength)
  {
    var errors := UpdateChat(request);
    if errors != [] {
      assert errors[0] in errors;
    }
  }

  /** AddUserToChatValidator: an Id chain (the chat) and a UserId chain, all rules evaluated. */
  function AddUserToChat(request: AddUserToChatRequest): (errors: seq<ValidationFailure>)
    ensures forall f :: f in errors <==>
      || (f == ZeroChatId && request.id == 0)
      || (f == NonPositiveChatId && request.id <= 0)
      || (f == ZeroUserId && request.userId == 0)
      || (f == NonPositiveUserId && request.userId <= 0)
  {
    var chat := IdChain(request.id, ZeroChatId, NonPositiveChatId);
    var user := IdChain(request.userId, ZeroUserId, NonPositiveUserId);
    assert forall f :: f in chat + user <==> f in chat || f in user;
    chat + user
  }

  /** AddUserToChatValidator accepts exactly positive chat and user ids. */
  lemma AddUserToChatAccepts(request: AddUserToChatRequest)
    ensures AddUserToChat(request) == [] <==> request.id > 0 && request.userId > 0
  {
    var errors := AddUserToChat(request);
    if errors != [] {
      assert errors[0] in errors;
    }
  }
}
