/** The structural rule sets for message requests: CreateMessageValidator and UpdateMessageValidator. */
module MessageValidators {
  import opened Primitives
  import opened Failures
  import opened Rules
  import opened Requests

  const TextMaxLength: nat := 500

  const BlankText := ValidationFailure(Text, TextRequired)
  const LongText := ValidationFailure(Text, TextTooLong)
  const ZeroChatId := ValidationFailure(ChatId, ChatIdRequired)
  const NonPositiveChatId := ValidationFailure(ChatId, ChatIdNotPositive)
  const ZeroUserId := ValidationFailure(UserId, UserIdRequired)
  const NonPositiveUserId := ValidationFailure(UserId, UserIdNotPositive)

  /**
   * CreateMessageValidator: a Text chain, a ChatId chain and a UserId chain, in
   * declaration order. Every rule is evaluated.
   */
  function CreateMessage(request: CreateMessageRequest): seq<ValidationFailure>
  {
    TextChain(request.text, TextMaxLength, BlankText, LongText)
    + IdChain(request.chatId, ZeroChatId, NonPositiveChatId)
    + IdChain(request.userId, ZeroUserId, NonPositiveUserId)
  }

  /**
   * The failures CreateMessageValidator reports, exactly: each rule's failure
   * appears precisely when that rule fails, so a blank text over 500 units or an
   * id of 0 reports two failures for the one field.
   */
  lemma CreateMessageExact(request: CreateMessageRequest)
    ensures forall f :: f in CreateMessage(request) <==>
      || (f == BlankText && IsNullOrWhiteSpace(request.text))
      || (f == LongText && request.text.Some? && Utf16Length(request.text.value) > TextMaxLength)
      || (f == ZeroChatId && request.chatId == 0)
      || (f == NonPositiveChatId && request.chatId <= 0)
      || (f == ZeroUserId && request.userId == 0)
      || (f == NonPositiveUserId && request.userId <= 0)
  {
  }

  /** CreateMessageValidator accepts exactly a valid text with positive chat and user ids. */
  lemma CreateMessageAccepts(request: CreateMessageRequest)
    ensures CreateMessage(request) == [] <==>
      ValidText(request.text, TextMaxLength) && request.chatId > 0 && request.userId > 0
  {
    var errors := CreateMessage(request);
    if errors != [] {
      assert errors[0] in errors;
    }
  }

  /** UpdateMessageValidator: only the Text chain; the id is not inspected. */
  function UpdateMessage(request: UpdateMessageRequest): (errors: seq<ValidationFailure>)
    ensures forall f :: f in errors <==>
      || (f == BlankText && IsNullOrWhiteSpace(request.text))
      || (f == LongText && request.text.Some? && Utf16Length(request.text.value) > TextMaxLength)
  {
    TextChain(request.text, TextMaxLength, BlankText, LongText)
  }

  /** UpdateMessageValidator accepts exactly a valid text. */
  lemma UpdateMessageAccepts(request: UpdateMessageRequest)
    ensures UpdateMessage(request) == [] <==> ValidText(request.text, TextMaxLength)
  {
    var errors := UpdateMessage(request);
    if errors != [] {
      assert errors[0] in errors;
    }
  }
}
