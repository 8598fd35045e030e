/**
 * ChatValidationService: the structural rule set first, and when it passes, the
 * store checks, each adding its own failure.
 */
module ChatValidation {
  import opened Primitives
  import opened Failures
  import opened Rules
  import opened Requests
  import opened Store
  import opened DbContext
  import ChatValidators

  const CreatorMissing := ValidationFailure(CreatedById, CreatorIdMissing)
  const ChatMissing := ValidationFailure(Id, ChatIdMissing)
  const UserMissing := ValidationFailure(UserId, MemberUserIdMissing)
  const AlreadyAMember := ValidationFailure(UserId, AlreadyMember)
  const NotAMember := ValidationFailure(UserId, NotMember)

  /** The result of `ValidateAsync(CreateChatRequest)` against the tables `t`. */
  function CreateChatFailures(t: Tables, request: CreateChatRequest): (errors: seq<ValidationFailure>)
    ensures ChatValidators.CreateChat(request) != [] ==> errors == ChatValidators.CreateChat(request)
    ensures ChatValidators.CreateChat(request) == [] ==>
      forall f :: f in errors <==> f == CreatorMissing && !AnyUser(t, request.ownerId)
  {
    var structural := ChatValidators.CreateChat(request);
    if !IsValid(structural) then structural
    else if !AnyUser(t, request.ownerId) then [CreatorMissing]
    else []
  }

  /** The result of `ValidateAsync(UpdateChatRequest)`. */
  function UpdateChatFailures(t: Tables, request: UpdateChatRequest): (errors: seq<ValidationFailure>)
    ensures ChatValidators.UpdateChat(request) != [] ==> errors == ChatValidators.UpdateChat(request)
    ensures ChatValidators.UpdateChat(request) == [] ==>
      forall f :: f in errors <==> f == ChatMissing && !AnyChat(t, request.id)
  {
    var structural := ChatValidators.UpdateChat(request);
    if !IsValid(structural) then structural
    else if !AnyChat(t, request.id) then [ChatMissing]
    else []
  }

  /** The result of `ValidateAsync(AddUserToChatRequest)`: all three store checks run. */
  function AddUserToChatFailures(t: Tables, request: AddUserToChatRequest): (errors: seq<ValidationFailure>)
    ensures ChatValidators.AddUserToChat(request) != [] ==> errors == ChatValidators.AddUserToChat(request)
    ensures ChatValidators.AddUserToChat(request) == [] ==>
      forall f :: f in errors <==>
        || (f == ChatMissing && !AnyChat(t, request.id))
        || (f == UserMissing && !AnyUser(t, request.userId))
        || (f == AlreadyAMember && AnyMembership(t, request.id, request.userId))
  {
    var structural := ChatValidators.AddUserToChat(request);
    if !IsValid(structural) then structural
    else
      Rule(AnyChat(t, request.id), ChatMissing)
      + Rule(AnyUser(t, request.userId), UserMissing)
      + Rule(!AnyMembership(t, request.id, request.userId), AlreadyAMember)
  }

  /**
   * The result of `ValidateAsync(RemoveUserFromChatRequest)`, where `structural`
   * is what the registered RemoveUserFromChatValidator returned.
   */
  function RemoveUserFromChatFailures(t: Tables, structural: seq<ValidationFailure>, request: RemoveUserFromChatRequest)
    : (errors: seq<ValidationFailure>)
    ensures structural != [] ==> errors == structural
    ensures structural == [] ==>
      forall f :: f in errors <==>
        || (f == ChatMissing && !AnyChat(t, request.id))
        || (f == UserMissing && !AnyUser(t, request.userId))
        || (f == NotAMember && !AnyMembership(t, request.id, request.userId))
  {
    if !IsValid(structural) then structural
    else
      Rule(AnyChat(t, request.id), ChatMissing)
      + Rule(AnyUser(t, request.userId), UserMissing)
      + Rule(AnyMembership(t, request.id, request.userId), NotAMember)
  }

  /** A chat can be created exactly when the name is valid and the owner is a stored user. */
  lemma CreateChatAccepted(t: Tables, request: CreateChatRequest)
    requires Consistent(t)
    ensures CreateChatFailures(t, request) == [] <==>
      ValidText(request.name, ChatValidators.NameMaxLength) && request.ownerId > 0 && request.ownerId in t.users
  {
    ChatValidators.CreateChatAccepts(request);
  }

  /** A structurally valid create request whose owner is not stored fails with the one creator failure. */
  lemma CreateChatMissingOwner(t: Tables, request: CreateChatRequest)
    requires Consistent(t) && ChatValidators.CreateChat(request) == [] && request.ownerId !in t.users
    ensures CreateChatFailures(t, request) == [CreatorMissing]
  {
  }

  /** A chat can be renamed exactly when the name is valid and the chat is stored. */
  lemma UpdateChatAccepted(t: Tables, request: UpdateChatRequest)
    requires Consistent(t)
    ensures UpdateChatFailures(t, request) == [] <==>
      ValidText(request.name, ChatValidators.NameMaxLength) && request.id in t.chats
  {
    ChatValidators.UpdateChatAccepts(request);
  }

  /**
   * Past the structural rules, a user can be added exactly when the chat and the
   * user are stored and the user is not yet a member.
   */
  lemma AddUserToChatAccepted(t: Tables, request: AddUserToChatRequest)
    requires Consistent(t)
    ensures AddUserToChatFailures(t, request) == [] <==>
      && request.id > 0 && request.userId > 0
      && request.id in t.chats && request.userId in t.users
      && UserChat(request.userId, request.id) !in t.userChats
  {
    ChatValidators.AddUserToChatAccepts(request);
    var errors := AddUserToChatFailures(t, request);
    if errors != [] {
      assert errors[0] in errors;
    }
  }

  /**
   * Past the structural rules, a user can be removed exactly when the chat and
   * the user are stored and the user is a member.
   */
  lemma RemoveUserFromChatAccepted(t: Tables, structural: seq<ValidationFailure>, request: RemoveUserFromChatRequest)
    requires Consistent(t)
    ensures RemoveUserFromChatFailures(t, structural, request) == [] <==>
      && structural == []
      && request.id in t.chats && request.userId in t.users
      && UserChat(request.userId, request.id) in t.userChats
  {
    var errors := RemoveUserFromChatFailures(t, structural, request);
    if errors != [] {
      assert errors[0] in errors;
    }
  }

  /**
   * For a stored chat and a stored user, and requests that pass their structural
   * rules, exactly one of the Add and the Remove membership validations passes.
   */
  lemma MembershipChecksExclusive(t: Tables, chatId: Int32, userId: Int32, structural: seq<ValidationFailure>)
    requires Consistent(t) && chatId > 0 && userId > 0 && chatId in t.chats && userId in t.users && structural == []
    ensures (AddUserToChatFailures(t, AddUserToChatRequest(chatId, userId)) == [])
        != (RemoveUserFromChatFailures(t, structural, RemoveUserFromChatRequest(chatId, userId)) == [])
  {
    AddUserToChatAccepted(t, AddUserToChatRequest(chatId, userId));
    RemoveUserFromChatAccepted(t, structural, RemoveUserFromChatRequest(chatId, userId));
  }

  /**
   * ChatValidationService. It only reads the context. The RemoveUserFromChatValidator
   * it is given is not part of this model, so it is a function the service is built with.
   */
  class ChatValidationService {
    const context: SimpleChatDbContext
    const removeUserFromChatValidator: RemoveUserFromChatRequest -> seq<ValidationFailure>

    constructor (context: SimpleChatDbContext, removeUserFromChatValidator: RemoveUserFromChatRequest -> seq<ValidationFailure>)
      ensures this.context == context && this.removeUserFromChatValidator == removeUserFromChatValidator
    {
      this.context := context;
      this.removeUserFromChatValidator := removeUserFromChatValidator;
    }

    /** `ValidateAsync(CreateChatRequest)`. */
    method ValidateCreateChat(request: CreateChatRequest) returns (errors: seq<ValidationFailure>)
      requires context.Valid()
      ensures errors == CreateChatFailures(context.tables, request)
    {
      errors := ChatValidators.CreateChat(request);
      if !IsValid(errors) {
        return;
      }
      if !AnyUser(context.tables, request.ownerId) {
        errors := errors + [CreatorMissing];
      }
    }

    /** `ValidateAsync(UpdateChatRequest)`. */
    method ValidateUpdateChat(request: UpdateChatRequest) returns (errors: seq<ValidationFailure>)
      requires context.Valid()
      ensures errors == UpdateChatFailures(context.tables, request)
    {
      errors := ChatValidators.UpdateChat(request);
      if !IsValid(errors) {
        return;
      }
      if !AnyChat(context.tables, request.id) {
        errors := errors + [ChatMissing];
      }
    }

    /** `ValidateAsync(AddUserToChatRequest)`. */
    method ValidateAddUserToChat(request: AddUserToChatRequest) returns (errors: seq<ValidationFailure>)
      requires context.Valid()
      ensures errors == AddUserToChatFailures(context.tables, request)
    {
      errors := ChatValidators.AddUserToChat(request);
      if !IsValid(errors) {
        return;
      }
      if !AnyChat(context.tables, request.id) {
        errors := errors + [ChatMissing];
      }
      if !AnyUser(context.tables, request.userId) {
        errors := errors + [UserMissing];
      }
      if AnyMembership(context.tables, request.id, request.userId) {
        errors := errors + [AlreadyAMember];
      }
    }

    /** `ValidateAsync(RemoveUserFromChatRequest)`. */
    method ValidateRemoveUserFromChat(request: RemoveUserFromChatRequest) returns (errors: seq<ValidationFailure>)
      requires context.Valid()
      ensures errors == RemoveUserFromChatFailures(context.tables, removeUserFromChatValidator(request), request)
    {
      errors := removeUserFromChatValidator(request);
      if !IsValid(errors) {
        return;
      }
      if !AnyChat(context.tables, request.id) {
        errors := errors + [ChatMissing];
      }
      if !AnyUser(context.tables, request.userId) {
        errors := errors + [UserMissing];
      }
      if !AnyMembership(context.tables, request.id, request.userId) {
        errors := errors + [NotAMember];
      }
    }
  }
}
