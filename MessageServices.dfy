/** MessageService: validate, raise with every failure, look the message up again, then change the store. */
module MessageServices {
  import opened Primitives
  import Failures
  import opened Requests
  import opened Store
  import opened DbContext
  import opened ServiceErrors
  import opened MessageValidation

  class MessageService {
    const context: SimpleChatDbContext
    const validationService: MessageValidationService

    constructor (context: SimpleChatDbContext, validationService: MessageValidationService)
      requires validationService.context == context
      ensures this.context == context && this.validationService == validationService
      ensures Wired()
    {
      this.context := context;
      this.validationService := validationService;
    }

    /** The service and its validation service work on the same context. */
    predicate Wired()
    {
      validationService.context == context
    }

    /** `GetAllAsync`: exactly the stored messages, each with a stored chat and a stored author. */
    method GetAll() returns (messages: set<Message>)
      requires context.Valid()
      ensures forall m :: m in messages <==> exists id :: id in context.tables.messages && context.tables.messages[id] == m
      ensures forall m :: m in messages ==> m.chatId in context.tables.chats && m.userId in context.tables.users
    {
      messages := context.tables.messages.Values;
    }

    /** `GetByIdAsync`: the stored message, or "not found". */
    method GetById(id: Int32) returns (r: Result<Message, ServiceError>)
      requires context.Valid()
      ensures r.Ok? <==> id in context.tables.messages
      ensures r.Ok? ==> r.value == context.tables.messages[id] && r.value.id == id
      ensures r.Err? ==> r.error == NotFound(MessageEntity, id)
    {
      var message := context.FindMessage(id);
      match message {
        case None =>
          return Err(NotFound(MessageEntity, id));
        case Some(m) =>
          return Ok(m);
      }
    }

    /**
     * `CreateAsync`: a failing validation raises every failure and changes
     * nothing; otherwise one message is added under a fresh id, in a stored
     * chat and by a stored user. The only refusal left to the database is an
     * exhausted identity column.
     */
    method Create(request: CreateMessageRequest) returns (r: Result<Int32, ServiceError>)
      requires context.Valid() && Wired()
      modifies context
      ensures context.Valid()
      ensures var errors := CreateMessageFailures(old(context.tables), request);
        errors != [] ==> r == Err(ValidationError(errors)) && context.tables == old(context.tables)
      ensures CreateMessageFailures(old(context.tables), request) == [] ==>
        || (r == Err(StorageFailure(IdentityOverflow)) && context.tables == old(context.tables))
        || (&& r.Ok? && r.value > 0 && r.value !in old(context.tables.messages) && request.text.Some?
            && request.chatId in context.tables.chats && request.userId in context.tables.users
            && context.tables == old(context.tables).(messages := old(context.tables.messages)[r.value :=
                 Message(r.value, request.text.value, request.chatId, request.userId)]))
      ensures CreateMessageFailures(old(context.tables), request) == [] ==> (r.Ok? <==> old(context.nextMessageId) <= MaxInt32)
      ensures r.Ok? ==> r.value as int == old(context.nextMessageId) && context.nextMessageId == old(context.nextMessageId) + 1
      ensures r.Err? ==> context.nextMessageId == old(context.nextMessageId)
      ensures context.nextUserId == old(context.nextUserId) && context.nextChatId == old(context.nextChatId)
    {
      var errors := validationService.ValidateCreateMessage(request);
      if !Failures.IsValid(errors) {
        return Err(ValidationError(errors));
      }
      CreateMessageAccepted(context.tables, request);
      var id := context.AddMessage(request.text.value, request.chatId, request.userId);
      match id {
        case Err(e) =>
          return Err(StorageFailure(e));
        case Ok(messageId) =>
          return Ok(messageId);
      }
    }

    /**
     * `UpdateAsync`: a failing validation raises every failure; otherwise only
     * the message's text is overwritten, and its chat and author are kept.
     * Validation has already found the message, so the second "not found"
     * check cannot fire.
     */
    method Update(request: UpdateMessageRequest) returns (r: Result<(), ServiceError>)
      requires context.Valid() && Wired()
      modifies context
      ensures context.Valid()
      ensures var errors := UpdateMessageFailures(old(context.tables), request);
        errors != [] ==> r == Err(ValidationError(errors)) && context.tables == old(context.tables)
      ensures UpdateMessageFailures(old(context.tables), request) == [] ==>
        && r == Ok(()) && request.id in old(context.tables.messages) && request.text.Some?
        && context.tables == old(context.tables).(messages := old(context.tables.messages)[request.id :=
             old(context.tables.messages[request.id]).(text := request.text.value)])
      ensures context.nextUserId == old(context.nextUserId) && context.nextChatId == old(context.nextChatId)
        && context.nextMessageId == old(context.nextMessageId)
    {
      var errors := validationService.ValidateUpdateMessage(request);
      if !Failures.IsValid(errors) {
        return Err(ValidationError(errors));
      }
      UpdateMessageAccepted(context.tables, request);
      var message := context.FindMessage(request.id);
      match message {
        case None =>
          assert false;
        case Some(m) =>
          var saved := context.SaveMessage(m.(text := request.text.value));
          match saved {
            case Some(e) =>
              assert false;
            case None =>
              return Ok(());
          }
      }
    }

    /** `DeleteAsync`: "not found" for an absent id; otherwise exactly that message is removed. */
    method Delete(id: Int32) returns (r: Result<(), ServiceError>)
      requires context.Valid()
      modifies context
      ensures context.Valid()
      ensures id !in old(context.tables.messages) ==>
        r == Err(NotFound(MessageEntity, id)) && context.tables == old(context.tables)
      ensures id in old(context.tables.messages) ==>
        r == Ok(()) && context.tables == old(context.tables).(messages := old(context.tables.messages) - {id})
      ensures context.nextUserId == old(context.nextUserId) && context.nextChatId == old(context.nextChatId)
        && context.nextMessageId == old(context.nextMessageId)
    {
      var message := context.FindMessage(id);
      match message {
        case None =>
          return Err(NotFound(MessageEntity, id));
        case Some(m) =>
          context.RemoveMessage(id);
          return Ok(());
      }
    }
  }
}
