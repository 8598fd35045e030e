/**
 * ChatService: validate, raise with every failure, look the chat up again,
 * then change the store. Membership requests are validated and looked up, but
 * their change is not written in the service, so they leave the store as it was.
 */
module ChatServices {
  import opened Primitives
  import opened Failures
  import opened Requests
  import opened Store
  import opened DbContext
  import opened ServiceErrors
  import opened ChatValidation

  class ChatService {
    const context: SimpleChatDbContext
    const validationService: ChatValidationService

    constructor (context: SimpleChatDbContext, validationService: ChatValidationService)
      requires validationService.context == context
      ensures this.context == context && this.validationService == validationService
      ensures Wired()
    {
      this.context := context;
      this.validationService := validationService;
    }

    /** The service and its validation service work on the same context. */
    predicate Wired()
    {
      validationService.context == context
    }

    /** `GetAllAsync`: exactly the stored chats, each with a stored owner. */
    method GetAll() returns (chats: set<Chat>)
      requires context.Valid()
      ensures forall c :: c in chats <==> exists id :: id in context.tables.chats && context.tables.chats[id] == c
      ensures forall c :: c in chats ==> c.createdById in context.tables.users
    {
      chats := context.tables.chats.Values;
    }

    /** `GetByIdAsync`: the stored chat, or "not found". */
    method GetById(id: Int32) returns (r: Result<Chat, ServiceError>)
      requires context.Valid()
      ensures r.Ok? <==> id in context.tables.chats
      ensures r.Ok? ==> r.value == context.tables.chats[id] && r.value.id == id
      ensures r.Err? ==> r.error == NotFound(ChatEntity, id)
    {
      var chat := context.FindChat(id);
      match chat {
        case None =>
          return Err(NotFound(ChatEntity, id));
        case Some(c) =>
          return Ok(c);
      }
    }

    /**
     * `CreateAsync`: a failing validation raises every failure and changes
     * nothing; otherwise one chat is added under a fresh id, and no membership
     * of the owner is created. The only refusal left to the database is an
     * exhausted identity column.
     */
    method Create(request: CreateChatRequest) returns (r: Result<Int32, ServiceError>)
      requires context.Valid() && Wired()
      modifies context
      ensures context.Valid()
      ensures var errors := CreateChatFailures(old(context.tables), request);
        errors != [] ==> r == Err(ValidationError(errors)) && context.tables == old(context.tables)
      ensures CreateChatFailures(old(context.tables), request) == [] ==>
        || (r == Err(StorageFailure(IdentityOverflow)) && context.tables == old(context.tables))
        || (&& r.Ok? && r.value > 0 && r.value !in old(context.tables.chats) && request.name.Some?
            && context.tables == old(context.tables).(chats := old(context.tables.chats)[r.value :=
                 Chat(r.value, request.name.value, request.ownerId)]))
      ensures CreateChatFailures(old(context.tables), request) == [] ==> (r.Ok? <==> old(context.nextChatId) <= MaxInt32)
      ensures r.Ok? ==> r.value as int == old(context.nextChatId) && context.nextChatId == old(context.nextChatId) + 1
      ensures r.Err? ==> context.nextChatId == old(context.nextChatId)
      ensures context.nextUserId == old(context.nextUserId) && context.nextMessageId == old(context.nextMessageId)
    {
      var errors := validationService.ValidateCreateChat(request);
      if !Failures.IsValid(errors) {
        return Err(ValidationError(errors));
      }
      CreateChatAccepted(context.tables, request);
      var id := context.AddChat(request.name.value, request.ownerId);
      match id {
        case Err(e) =>
          return Err(StorageFailure(e));
        case Ok(chatId) =>
          return Ok(chatId);
      }
    }

    /**
     * `UpdateAsync`: a failing validation raises every failure; otherwise the
     * chat's name is overwritten and nothing else changes. Validation has
     * already found the chat, so the second "not found" check cannot fire.
     */
    method Update(request: UpdateChatRequest) returns (r: Result<(), ServiceError>)
      requires context.Valid() && Wired()
      modifies context
      ensures context.Valid()
      ensures var errors := UpdateChatFailures(old(context.tables), request);
        errors != [] ==> r == Err(ValidationError(errors)) && context.tables == old(context.tables)
      ensures UpdateChatFailures(old(context.tables), request) == [] ==>
        && r == Ok(()) && request.id in old(context.tables.chats) && request.name.Some?
        && context.tables == old(context.tables).(chats := old(context.tables.chats)[request.id :=
             old(context.tables.chats[request.id]).(name := request.name.value)])
      ensures context.nextUserId == old(context.nextUserId) && context.nextChatId == old(context.nextChatId)
        && context.nextMessageId == old(context.nextMessageId)
    {
      var errors := validationService.ValidateUpdateChat(request);
      if !Failures.IsValid(errors) {
        return Err(ValidationError(errors));
      }
      UpdateChatAccepted(context.tables, request);
      var chat := context.FindChat(request.id);
      match chat {
        case None =>
          assert false;
        case Some(c) =>
          var saved := context.SaveChat(c.(name := request.name.value));
          match saved {
            case Some(e) =>
              assert false;
            case None =>
              return Ok(());
          }
      }
    }

    /**
     * `DeleteAsync`: "not found" for an absent id; otherwise the chat, its
     * messages and its memberships are removed. Nothing but the id is
     * consulted, so no caller has to own the chat.
     */
    method Delete(id: Int32) returns (r: Result<(), ServiceError>)
      requires context.Valid()
      modifies context
      ensures context.Valid()
      ensures id !in old(context.tables.chats) ==> r == Err(NotFound(ChatEntity, id)) && context.tables == old(context.tables)
      ensures id in old(context.tables.chats) ==> r == Ok(()) && context.tables == DeleteChat(old(context.tables), id)
      ensures id !in context.tables.chats
      ensures context.nextUserId == old(context.nextUserId) && context.nextChatId == old(context.nextChatId)
        && context.nextMessageId == old(context.nextMessageId)
    {
      var chat := context.FindChat(id);
      match chat {
        case None =>
          return Err(NotFound(ChatEntity, id));
        case Some(c) =>
          context.RemoveChat(id);
          DeleteChatRemoves(old(context.tables), id);
          return Ok(());
      }
    }

    /**
     * `AddUserToChatRequestAsync`: a failing validation raises every failure;
     * otherwise the call succeeds without storing the membership. It cannot
     * change the store: it has no write access to the context.
     */
    method AddUserToChat(request: AddUserToChatRequest) returns (r: Result<(), ServiceError>)
      requires context.Valid() && Wired()
      ensures var errors := AddUserToChatFailures(context.tables, request);
        && (errors != [] ==> r == Err(ValidationError(errors)))
        && (errors == [] ==> r == Ok(()))
    {
      var errors := validationService.ValidateAddUserToChat(request);
      if !Failures.IsValid(errors) {
        return Err(ValidationError(errors));
      }
      AddUserToChatAccepted(context.tables, request);
      var chat := context.FindChat(request.id);
      match chat {
        case None =>
          assert false;
        case Some(c) =>
          return Ok(());
      }
    }

    /**
     * `RemoveUserFromChatRequestAsync`: a failing validation raises every
     * failure; otherwise the call succeeds and the membership stays stored, since the
     * method has no write access to the context.
     */
    method RemoveUserFromChat(request: RemoveUserFromChatRequest) returns (r: Result<(), ServiceError>)
      requires context.Valid() && Wired()
      ensures var errors := RemoveUserFromChatFailures(
          context.tables, validationService.removeUserFromChatValidator(request), request);
        && (errors != [] ==> r == Err(ValidationError(errors)))
        && (errors == [] ==> r == Ok(()))
    {
      var errors := validationService.ValidateRemoveUserFromChat(request);
      if !Failures.IsValid(errors) {
        return Err(ValidationError(errors));
      }
      RemoveUserFromChatAccepted(context.tables, validationService.removeUserFromChatValidator(request), request);
      var chat := context.FindChat(request.id);
      match chat {
        case None =>
          assert false;
        case Some(c) =>
          return Ok(());
      }
    }
  }
}
