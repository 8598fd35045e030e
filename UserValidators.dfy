/** The structural rule sets for user requests: CreateUserValidator and UpdateUserValidator. */
module UserValidators {
  import opened Primitives
  import opened Failures
  import opened Rules
  import opened Requests

  const UserNameMaxLength: nat := 100

  const BlankUserName := ValidationFailure(UserName, UserNameRequired)
  const LongUserName := ValidationFailure(UserName, UserNameTooLong)

  /** CreateUserValidator: the UserName chain; the user name is the request's only field. */
  function CreateUser(request: CreateUserRequest): (errors: seq<ValidationFailure>)
    ensures forall f :: f in errors <==>
      || (f == BlankUserName && IsNullOrWhiteSpace(request.userName))
      || (f == LongUserName && request.userName.Some? && Utf16Length(request.userName.value) > UserNameMaxLength)
  {
    TextChain(request.userName, UserNameMaxLength, BlankUserName, LongUserName)
  }

  /** CreateUserValidator accepts exactly a valid user name. */
  lemma CreateUserAccepts(request: CreateUserRequest)
    ensures CreateUser(request) == [] <==> ValidText(request.userName, UserNameMaxLength)
  {
    var errors := CreateUser(request);
    if errors != [] {
      assert errors[0] in errors;
    }
  }

  /** UpdateUserValidator: the UserName chain; the id is left to the validation service. */
  function UpdateUser(request: UpdateUserRequest): (errors: seq<ValidationFailure>)
    ensures forall f :: f in errors <==>
      || (f == BlankUserName && IsNullOrWhiteSpace(request.userName))
      || (f == LongUserName && request.userName.Some? && Utf16Length(request.userName.value) > UserNameMaxLength)
  {
    TextChain(request.userName, UserNameMaxLength, BlankUserName, LongUserName)
  }

  /** UpdateUserValidator accepts exactly a valid user name. */
  lemma UpdateUserAccepts(request: UpdateUserRequest)
    ensures UpdateUser(request) == [] <==> ValidText(request.userName, UserNameMaxLength)
  {
    var errors := UpdateUser(request);
    if errors != [] {
      assert errors[0] in errors;
    }
  }
}
