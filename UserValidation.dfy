/**
 * UserValidationService: creating a user is checked by the structural rule set
 * alone; updating one also checks that the user is stored.
 */
module UserValidation {
  import opened Primitives
  import opened Failures
  import opened Rules
  import opened Requests
  import opened Store
  import opened DbContext
  import UserValidators

  const UserMissing := ValidationFailure(Id, UserIdMissing)

  /** The result of `ValidateAsync(UpdateUserRequest)` against the tables `t`. */
  function UpdateUserFailures(t: Tables, request: UpdateUserRequest): (errors: seq<ValidationFailure>)
    ensures UserValidators.UpdateUser(request) != [] ==> errors == UserValidators.UpdateUser(request)
    ensures UserValidators.UpdateUser(request) == [] ==>
      forall f :: f in errors <==> f == UserMissing && !AnyUser(t, request.id)
  {
    var structural := UserValidators.UpdateUser(request);
    if !IsValid(structural) then structural
    else if !AnyUser(t, request.id) then [UserMissing]
    else []
  }

  /** A user can be renamed exactly when the new name is valid and the user is stored. */
  lemma UpdateUserAccepted(t: Tables, request: UpdateUserRequest)
    requires Consistent(t)
    ensures UpdateUserFailures(t, request) == [] <==>
      ValidText(request.userName, UserValidators.UserNameMaxLength) && request.id in t.users
  {
    UserValidators.UpdateUserAccepts(request);
  }

  /** UserValidationService. It only reads the context. */
  class UserValidationService {
    const context: SimpleChatDbContext

    constructor (context: SimpleChatDbContext)
      ensures this.context == context
    {
      this.context := context;
    }

    /**
     * `ValidateAsync(CreateUserRequest)`: the structural result as it is. The
     * store is not consulted, so a name already in use is accepted.
     */
    method ValidateCreateUser(request: CreateUserRequest) returns (errors: seq<ValidationFailure>)
      ensures errors == UserValidators.CreateUser(request)
      ensures errors == [] <==> ValidText(request.userName, UserValidators.UserNameMaxLength)
    {
      errors := UserValidators.CreateUser(request);
      UserValidators.CreateUserAccepts(request);
    }

    /** `ValidateAsync(UpdateUserRequest)`. */
    method ValidateUpdateUser(request: UpdateUserRequest) returns (errors: seq<ValidationFailure>)
      requires context.Valid()
      ensures errors == UpdateUserFailures(context.tables, request)
    {
      errors := UserValidators.UpdateUser(request);
      if !IsValid(errors) {
        return;
      }
      if !AnyUser(context.tables, request.id) {
        errors := errors + [UserMissing];
      }
    }
  }
}
