/** UserService: validate, raise with every failure, look the user up again, then change the store. */
module UserServices {
  import opened Primitives
  import opened Failures
  import opened Rules
  import opened Requests
  import opened Store
  import opened DbContext
  import opened ServiceErrors
  import opened UserValidation
  import UserValidators

  class UserService {
    const context: SimpleChatDbContext
    const validationService: UserValidationService

    constructor (context: SimpleChatDbContext, validationService: UserValidationService)
      requires validationService.context == context
      ensures this.context == context && this.validationService == validationService
      ensures Wired()
    {
      this.context := context;
      this.validationService := validationService;
    }

    /** The service and its validation service work on the same context. */
    predicate Wired()
    {
      validationService.context == context
    }

    /** `GetAllAsync`: exactly the stored users. */
    method GetAll() returns (users: set<User>)
      requires context.Valid()
      ensures forall u :: u in users <==> exists id :: id in context.tables.users && context.tables.users[id] == u
      ensures forall u :: u in users ==> Utf16Length(u.userName) <= UserNameMaxLength
    {
      users := context.tables.users.Values;
    }

    /** `GetByIdAsync`: the stored user, or "not found". */
    method GetById(id: Int32) returns (r: Result<User, ServiceError>)
      requires context.Valid()
      ensures r.Ok? <==> id in context.tables.users
      ensures r.Ok? ==> r.value == context.tables.users[id] && r.value.id == id
      ensures r.Err? ==> r.error == NotFound(UserEntity, id)
    {
      var user := context.FindUser(id);
      match user {
        case None =>
          return Err(NotFound(UserEntity, id));
        case Some(u) =>
          return Ok(u);
      }
    }

    /**
     * `CreateAsync`: a failing validation raises every failure and changes
     * nothing; otherwise one user is added under a fresh id, whether or not
     * another user has the same name. The only refusal left to the database is
     * an exhausted identity column.
     */
    method Create(request: CreateUserRequest) returns (r: Result<Int32, ServiceError>)
      requires context.Valid()
      modifies context
      ensures context.Valid()
      ensures var errors := UserValidators.CreateUser(request);
        errors != [] ==> r == Err(ValidationError(errors)) && context.tables == old(context.tables)
      ensures ValidText(request.userName, UserValidators.UserNameMaxLength) ==>
        || (r == Err(StorageFailure(IdentityOverflow)) && context.tables == old(context.tables))
        || (&& r.Ok? && r.value > 0 && r.value !in old(context.tables.users)
            && context.tables == old(context.tables).(users := old(context.tables.users)[r.value :=
                 User(r.value, request.userName.value)]))
      ensures ValidText(request.userName, UserValidators.UserNameMaxLength) ==> (r.Ok? <==> old(context.nextUserId) <= MaxInt32)
      ensures r.Ok? ==> r.value as int == old(context.nextUserId) && context.nextUserId == old(context.nextUserId) + 1
      ensures r.Err? ==> context.nextUserId == old(context.nextUserId)
      ensures context.nextChatId == old(context.nextChatId) && context.nextMessageId == old(context.nextMessageId)
    {
      var errors := validationService.ValidateCreateUser(request);
      if !Failures.IsValid(errors) {
        return Err(ValidationError(errors));
      }
      var id := context.AddUser(request.userName.value);
      match id {
        case Err(e) =>
          return Err(StorageFailure(e));
        case Ok(userId) =>
          return Ok(userId);
      }
    }

    /**
     * `UpdateAsync`: a failing validation raises every failure; otherwise only
     * the user's name is overwritten. Validation has already found the user,
     * so the second "not found" check cannot fire.
     */
    method Update(request: UpdateUserRequest) returns (r: Result<(), ServiceError>)
      requires context.Valid() && Wired()
      modifies context
      ensures context.Valid()
      ensures var errors := UpdateUserFailures(old(context.tables), request);
        errors != [] ==> r == Err(ValidationError(errors)) && context.tables == old(context.tables)
      ensures UpdateUserFailures(old(context.tables), request) == [] ==>
        && r == Ok(()) && request.id in old(context.tables.users) && request.userName.Some?
        && context.tables == old(context.tables).(users := old(context.tables.users)[request.id :=
             User(request.id, request.userName.value)])
      ensures context.nextUserId == old(context.nextUserId) && context.nextChatId == old(context.nextChatId)
        && context.nextMessageId == old(context.nextMessageId)
    {
      var errors := validationService.ValidateUpdateUser(request);
      if !Failures.IsValid(errors) {
        return Err(ValidationError(errors));
      }
      UpdateUserAccepted(context.tables, request);
      var user := context.FindUser(request.id);
      match user {
        case None =>
          assert false;
        case Some(u) =>
          var saved := context.SaveUser(u.(userName := request.userName.value));
          match saved {
            case Some(e) =>
              assert false;
            case None =>
              return Ok(());
          }
      }
    }

    /**
     * `DeleteAsync`: "not found" for an absent id; refused by the database
     * while the user owns a chat or authored a message (Restrict); otherwise
     * the user and their memberships are removed.
     */
    method Delete(id: Int32) returns (r: Result<(), ServiceError>)
      requires context.Valid()
      modifies context
      ensures context.Valid()
      ensures id !in old(context.tables.users) ==>
        r == Err(NotFound(UserEntity, id)) && context.tables == old(context.tables)
      ensures id in old(context.tables.users) && Referenced(old(context.tables), id) ==>
        r == Err(StorageFailure(ForeignKeyViolation)) && context.tables == old(context.tables)
      ensures id in old(context.tables.users) && !Referenced(old(context.tables), id) ==>
        r == Ok(()) && context.tables == DeleteUser(old(context.tables), id).value
      ensures context.nextUserId == old(context.nextUserId) && context.nextChatId == old(context.nextChatId)
        && context.nextMessageId == old(context.nextMessageId)
    {
      var user := context.FindUser(id);
      match user {
        case None =>
          return Err(NotFound(UserEntity, id));
        case Some(u) =>
          var deleted := context.RemoveUser(id);
          match deleted {
            case Some(e) =>
              return Err(StorageFailure(e));
            case None =>
              return Ok(());
          }
      }
    }
  }
}
