/**
 * MessageValidationService: the structural rule set first, and when it passes,
 * the store checks, each adding its own failure.
 */
module MessageValidation {
  import opened Primitives
  import opened Failures
  import opened Rules
  import opened Requests
  import opened Store
  import opened DbContext
  import MessageValidators

  const ChatMissing := ValidationFailure(ChatId, ChatIdMissing)
  const AuthorMissing := ValidationFailure(UserId, UserIdMissing)
  const MessageMissing := ValidationFailure(Id, MessageIdMissing)

  /** The result of `ValidateAsync(CreateMessageRequest)` against the tables `t`: both store checks run. */
  function CreateMessageFailures(t: Tables, request: CreateMessageRequest): (errors: seq<ValidationFailure>)
    ensures MessageValidators.CreateMessage(request) != [] ==> errors == MessageValidators.CreateMessage(request)
    ensures MessageValidators.CreateMessage(request) == [] ==>
      forall f :: f in errors <==>
        || (f == ChatMissing && !AnyChat(t, request.chatId))
        || (f == AuthorMissing && !AnyUser(t, request.userId))
  {
    var structural := MessageValidators.CreateMessage(request);
    if !IsValid(structural) then structural
    else Rule(AnyChat(t, request.chatId), ChatMissing) + Rule(AnyUser(t, request.userId), AuthorMissing)
  }

  /** The result of `ValidateAsync(UpdateMessageRequest)`. */
  function UpdateMessageFailures(t: Tables, request: UpdateMessageRequest): (errors: seq<ValidationFailure>)
    ensures MessageValidators.UpdateMessage(request) != [] ==> errors == MessageValidators.UpdateMessage(request)
    ensures MessageValidators.UpdateMessage(request) == [] ==>
      forall f :: f in errors <==> f == MessageMissing && !AnyMessage(t, request.id)
  {
    var structural := MessageValidators.UpdateMessage(request);
    if !IsValid(structural) then structural
    else if !AnyMessage(t, request.id) then [MessageMissing]
    else []
  }

  /**
   * A message can be posted exactly when its text is valid and its chat and its
   * author are stored; the author need not be a member of the chat.
   */
  lemma CreateMessageAccepted(t: Tables, request: CreateMessageRequest)
    requires Consistent(t)
    ensures CreateMessageFailures(t, request) == [] <==>
      && ValidText(request.text, MessageValidators.TextMaxLength)
      && request.chatId > 0 && request.userId > 0
      && request.chatId in t.chats && request.userId in t.users
  {
    MessageValidators.CreateMessageAccepts(request);
    var errors := CreateMessageFailures(t, request);
    if errors != [] {
      assert errors[0] in errors;
    }
  }

  /** The memberships do not take part in validating a new message. */
  lemma CreateMessageIgnoresMembership(t: Tables, userChats: set<UserChat>, request: CreateMessageRequest)
    ensures CreateMessageFailures(t.(userChats := userChats), request) == CreateMessageFailures(t, request)
  {
    var u := t.(userChats := userChats);
    assert AnyChat(u, request.chatId) == AnyChat(t, request.chatId);
    assert AnyUser(u, request.userId) == AnyUser(t, request.userId);
  }

  /** A message can be edited exactly when the new text is valid and the message is stored. */
  lemma UpdateMessageAccepted(t: Tables, request: UpdateMessageRequest)
    requires Consistent(t)
    ensures UpdateMessageFailures(t, request) == [] <==>
      ValidText(request.text, MessageValidators.TextMaxLength) && request.id in t.messages
  {
    MessageValidators.UpdateMessageAccepts(request);
  }

  /** MessageValidationService. It only reads the context. */
  class MessageValidationService {
    const context: SimpleChatDbContext

    constructor (context: SimpleChatDbContext)
      ensures this.context == context
    {
      this.context := context;
    }

    /** `ValidateAsync(CreateMessageRequest)`. */
    method ValidateCreateMessage(request: CreateMessageRequest) returns (errors: seq<ValidationFailure>)
      requires context.Valid()
      ensures errors == CreateMessageFailures(context.tables, request)
    {
      errors := MessageValidators.CreateMessage(request);
      if !IsValid(errors) {
        return;
      }
      if !AnyChat(context.tables, request.chatId) {
        errors := errors + [ChatMissing];
      }
      if !AnyUser(context.tables, request.userId) {
        errors := errors + [AuthorMissing];
      }
    }

    /** `ValidateAsync(UpdateMessageRequest)`. */
    method ValidateUpdateMessage(request: UpdateMessageRequest) returns (errors: seq<ValidationFailure>)
      requires context.Valid()
      ensures errors == UpdateMessageFailures(context.tables, request)
    {
      errors := MessageValidators.UpdateMessage(request);
      if !IsValid(errors) {
        return;
      }
      if !AnyMessage(context.tables, request.id) {
        errors := errors + [MessageMissing];
      }
    }
  }
}
