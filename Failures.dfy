/**
 * The validation failures the application reports. Each failure names a request
 * property and a message; both are finite sets of texts, so they are enumerations
 * here, and PropertyName and MessageText give the texts the application sends.
 */
module Failures {

  /** The request properties a failure is reported against (the C# `nameof`). */
  datatype Property =
    | Id | Name | OwnerId | CreatedById | UserId | ChatId | Text | UserName
      /** a property of a rule set this model does not interpret */
    | OtherProperty(name: string)

  /** The messages of the rule sets (`WithMessage`) and of the validation services. */
  datatype Message =
    | ChatNameRequired | ChatNameTooLong
    | CreatorIdRequired | CreatorIdNotPositive | CreatorIdMissing
    | ChatIdRequired | ChatIdNotPositive | ChatIdMissing
    | UserIdRequired | UserIdNotPositive | MemberUserIdMissing | UserIdMissing
    | AlreadyMember | NotMember
    | TextRequired | TextTooLong | MessageIdMissing
    | UserNameRequired | UserNameTooLong
      /** a message of a rule set this model does not interpret */
    | OtherMessage(text: string)

  /** `FluentValidation.Results.ValidationFailure`: a property and its message. */
  datatype ValidationFailure = ValidationFailure(property: Property, message: Message)

  /** The property's name as the failure carries it. */
  function PropertyName(p: Property): string
  {
    match p
    case Id => "Id"
    case Name => "Name"
    case OwnerId => "OwnerId"
    case CreatedById => "CreatedById"
    case UserId => "UserId"
    case ChatId => "ChatId"
    case Text => "Text"
    case UserName => "UserName"
    case OtherProperty(name) => name
  }

  /** The message text as the failure carries it. */
  function MessageText(m: Message): string
  {
    match m
    case ChatNameRequired => "Chat name is required."
    case ChatNameTooLong => "Chat name cannot be longer than 100 characters."
    case CreatorIdRequired => "Creator Id is required."
    case CreatorIdNotPositive => "Creator Id must be a positive number."
    case CreatorIdMissing => "Creator Id does not exist."
    case ChatIdRequired => "Chat Id is required."
    case ChatIdNotPositive => "Chat Id must be a positive number."
    case ChatIdMissing => "Chat Id does not exist."
    case UserIdRequired => "User Id is required."
    case UserIdNotPositive => "User Id must be a positive number."
    case MemberUserIdMissing => "UserId does not exist."
    case UserIdMissing => "User Id does not exist."
    case AlreadyMember => "User is already a member of this chat."
    case NotMember => "The user is not a member of the chat"
    case TextRequired => "Text is required."
    case TextTooLong => "Text cannot be longer than 500 characters."
    case MessageIdMissing => "Message Id does not exist."
    case UserNameRequired => "UserName is required."
    case UserNameTooLong => "UserName cannot be longer than 100 characters."
    case OtherMessage(text) => text
  }

  /** `ValidationResult.IsValid`: no failure. */
  predicate IsValid(errors: seq<ValidationFailure>)
  {
    |errors| == 0
  }
}
