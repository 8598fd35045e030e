# SimpleChatApp core, modelled in Dafny

This project models the sequential core of the SimpleChatApp backend:

- the relational store behind `SimpleChatDbContext`, with the constraints its entity configurations declare;
- the FluentValidation rule sets for chat, message and user requests;
- the three validation services, which run the structural rules first and, only if those pass, the store checks;
- `ChatService`, `MessageService` and `UserService`, which validate, look the entity up again, and then change the store.

Thrown exceptions are values of `ServiceErrors.ServiceError`:
- `ValidationError` carries every failure;
- `NotFound` names the entity and the id;
- `StorageFailure` is a change the database refused.

The module layout follows the source:

| module | file |
|---|---|
| `Primitives` | the C# `int` (`Int32`), `Option`, `Result`, and .NET `string.Length` counted in UTF-16 code units |
| `Failures` | `ValidationFailure` as a property and a message. Both are enumerations; `PropertyName` and `MessageText` give the exact texts |
| `Rules` | the FluentValidation built-ins `NotEmpty`, `MaximumLength` and `GreaterThan`, plus the two rule chains every validator is made of |
| `Requests` | the request records; nullable strings are `Option<string>` |
| `ChatValidators`, `MessageValidators`, `UserValidators` | the seven structural validators, as pure functions |
| `Store` | the rows, the four tables, the configuration predicates, the `AnyAsync` queries, and the effect of saving an insert, an update or a delete |
| `DbContext` | the class `SimpleChatDbContext`: the tables, one identity column per keyed table, `FindAsync`, and Add/Save/Remove followed by `SaveChangesAsync` |
| `ChatValidation`, `MessageValidation`, `UserValidation` | for each `ValidateAsync`: a reference function on the tables, its lemmas, and the service class whose methods are proved equal to it |
| `ServiceErrors` | the exceptions |
| `ChatServices`, `MessageServices`, `UserServices` | the service classes |

`Store.Consistent` is the referential-integrity invariant. It says:
- every key matches its row's `Id`;
- every stored string fits its column;
- every chat owner exists;
- every message's chat and author exist;
- every membership's user and chat exist.

`DbContext.SimpleChatDbContext` is the context every service and validation service receives as `ISimpleChatDbContext`; the interface exposes exactly its four tables and `SaveChangesAsync`. `SimpleChatDbContext.Valid()` adds the identity columns to the invariant. Every key is positive and below the column's next value, so each insert receives a fresh id. Every service method requires `Valid()` and either keeps it or, for read-only methods, cannot change the store at all.

The model follows the code as written:

- `ChatService.CreateAsync` stores the chat and no owner membership.
- `ChatService.DeleteAsync` takes only the chat id and checks no ownership.
- `AddUserToChatRequestAsync` and `RemoveUserFromChatRequestAsync` validate and look the chat up, but store nothing, because their bodies are TODOs.
- `CreateChatValidator` reads the owner field as `OwnerId`, while `ChatValidationService` and `Chat` call it `CreatedById`. The model has one field, `ownerId`. Its structural failures name property `OwnerId`; the store check's failure names `CreatedById`.
- The chat id of a membership request is its `Id`.
- Once the structural rules pass, a validation service runs every store check and reports every failure together.
- `MessageConfiguration` makes the author relation Restrict, as `ChatConfiguration` does the owner relation. A user who owns a chat or has written a message cannot be deleted.
- `RemoveUserFromChatValidator` is registered but its rules are not part of this model. `ChatValidationService` receives it as a function.

Some properties follow from the validation services:
- The second "not found" check in each `UpdateAsync`, `AddUserToChatRequestAsync` and `RemoveUserFromChatRequestAsync` cannot fire in a sequential run, because validation has just established that the entity exists. Those branches are proved unreachable.
- After a successful validation, an insert can still fail only on an exhausted identity column; an update cannot fail.

## Model

| member | source | states |
|---|---|---|
| `Primitives.Utf16Length` | BusinessLogic/Validation/Validators/Chat/CreateChatValidator.cs:13-14 | the length `MaximumLength` and `nvarchar(n)` bound: between one and two units per character, and zero only for the empty string |
| `Rules.TextChain` | BusinessLogic/Validation/Validators/Chat/CreateChatValidator.cs:10-14 | a `NotEmpty().MaximumLength(max)` chain fails with its first message exactly when the string is null or white space, and with its second exactly when a non-null string is longer than `max`; both can fail together |
| `Rules.IdChain` | BusinessLogic/Validation/Validators/Chat/CreateChatValidator.cs:16-20 | a `NotEmpty().GreaterThan(0)` chain fails with its first message exactly when the id is 0, and with its second exactly when it is at most 0, so 0 gets both |
| `ChatValidators.CreateChat` | BusinessLogic/Validation/Validators/Chat/CreateChatValidator.cs:10-20 | the failures present are exactly "Chat name is required." for a null or blank name, the length failure for a name over 100 units, "Creator Id is required." for owner 0, and "Creator Id must be a positive number." for an owner at most 0 |
| `ChatValidators.CreateChatAccepts` | BusinessLogic/Validation/Validators/Chat/CreateChatValidator.cs:10-20 | no failure exactly when the name is non-blank, at most 100 units long, and the owner id is positive |
| `ChatValidators.UpdateChat` | BusinessLogic/Validation/Validators/Chat/UpdateChatValidator.cs:10-14 | the failures are exactly the two name failures under their conditions; the id plays no part |
| `ChatValidators.UpdateChatAccepts` | BusinessLogic/Validation/Validators/Chat/UpdateChatValidator.cs:10-14 | no failure exactly when the name is non-blank and at most 100 units long |
| `ChatValidators.AddUserToChat` | BusinessLogic/Validation/Validators/Chat/AddUserToChatValidator.cs:10-20 | the failures are exactly the two chat-`Id` failures and the two `UserId` failures under their conditions, reported together |
| `ChatValidators.AddUserToChatAccepts` | BusinessLogic/Validation/Validators/Chat/AddUserToChatValidator.cs:10-20 | no failure exactly when the chat id and the user id are both positive |
| `MessageValidators.CreateMessageExact` | BusinessLogic/Validation/Validators/Message/CreateMessageValidator.cs:10-26 | the failures present are exactly the text failures ("Text is required." when blank, the length failure over 500 units) and the `ChatId` and `UserId` failures under their conditions |
| `MessageValidators.CreateMessageAccepts` | BusinessLogic/Validation/Validators/Message/CreateMessageValidator.cs:10-26 | no failure exactly when the text is non-blank, at most 500 units long, and both ids are positive |
| `MessageValidators.UpdateMessage` | BusinessLogic/Validation/Validators/Message/UpdateMessageValidator.cs:10-14 | the failures are exactly the two text failures under their conditions; the id plays no part |
| `MessageValidators.UpdateMessageAccepts` | BusinessLogic/Validation/Validators/Message/UpdateMessageValidator.cs:10-14 | no failure exactly when the text is non-blank and at most 500 units long |
| `UserValidators.CreateUser` | BusinessLogic/Validation/Validators/User/CreateUserValidator.cs:10-14 | the failures are exactly "UserName is required." for a null or blank name and the length failure over 100 units |
| `UserValidators.CreateUserAccepts` | BusinessLogic/Validation/Validators/User/CreateUserValidator.cs:10-14 | no failure exactly when the user name is non-blank and at most 100 units long |
| `UserValidators.UpdateUser` | BusinessLogic/Validation/Validators/User/UpdateUserValidator.cs:10-14 | the failures are exactly the two user-name failures; the id is not inspected |
| `UserValidators.UpdateUserAccepts` | BusinessLogic/Validation/Validators/User/UpdateUserValidator.cs:10-14 | no failure exactly when the user name is non-blank and at most 100 units long |
| `Rules.IsWhiteSpace` | BusinessLogic/Validation/Validators/Chat/CreateChatValidator.cs:11 | holds exactly for the characters .NET `char.IsWhiteSpace` accepts: the Unicode space, line and paragraph separators, U+0009 to U+000D, U+0085 and U+00A0 |
| `Rules.IsNullOrWhiteSpace` | BusinessLogic/Validation/Validators/Chat/CreateChatValidator.cs:11-12 | holds exactly when the string is null or every character is white space, the empty string included: the values `NotEmpty()` rejects |
| `Store.UserConfigured` | DataAccess/EntityTypeConfigurations/UserConfiguration.cs:13-17 | holds exactly when every user is stored under its own `Id` and its name fits 100 units |
| `Store.ChatConfigured` | DataAccess/EntityTypeConfigurations/ChatConfiguration.cs:13-22 | holds exactly when every chat is stored under its own `Id`, its name fits 100 units, and its owner is a stored user |
| `Store.MessageConfigured` | DataAccess/EntityTypeConfigurations/MessageConfiguration.cs:13-27 | holds exactly when every message is stored under its own `Id`, its text fits 500 units, and its chat and author are stored |
| `Store.UserChatConfigured` | DataAccess/EntityTypeConfigurations/UserChatConfiguration.cs:13-23 | holds exactly when the user and the chat of every membership are stored; the composite key makes the table a set of pairs |
| `Store.Consistent` | DataAccess/SimpleChatDbContext.cs:19-25 | holds exactly when all four configurations hold: the referential-integrity invariant of the database |
| `Store.AnyUser` | BusinessLogic/Validation/Services/ChatValidationService.cs:125-128 | in tables whose user keys match their rows, some user row has the id exactly when the id is a key; the same query is `UserIdExists` in the message and user validation services |
| `Store.AnyChat` | BusinessLogic/Validation/Services/ChatValidationService.cs:120-123 | some chat row has the id exactly when the id is a chat key; the same query is `ChatIdExists` in MessageValidationService |
| `Store.AnyMessage` | BusinessLogic/Validation/Services/MessageValidationService.cs:75-78 | some message row has the id exactly when the id is a message key |
| `Store.AnyMembership` | BusinessLogic/Validation/Services/ChatValidationService.cs:130-133 | a membership row matches the chat and the user exactly when that pair is in the composite-keyed table |
| `Store.PutUser` | DataAccess/EntityTypeConfigurations/UserConfiguration.cs:13-17 | saving a user row succeeds exactly when the name fits 100 units; the row is stored under its id, the other three tables are unchanged, and every constraint keeps holding |
| `Store.PutChat` | DataAccess/EntityTypeConfigurations/ChatConfiguration.cs:13-22 | saving a chat row succeeds exactly when the name fits 100 units and the owner is a stored user; the row is stored under its id, the other three tables are unchanged, and every constraint keeps holding |
| `Store.PutMessage` | DataAccess/EntityTypeConfigurations/MessageConfiguration.cs:13-27 | saving a message row succeeds exactly when the text fits 500 units and its chat and author are stored; the other three tables are unchanged, and every constraint keeps holding |
| `Store.DeleteChat` | DataAccess/EntityTypeConfigurations/ChatConfiguration.cs:24-32 | the tables after a chat delete: the chat, every message with its `ChatId` and every membership with its `ChatId` are gone (Cascade); users are untouched |
| `Store.DeleteChatRemoves` | DataAccess/EntityTypeConfigurations/ChatConfiguration.cs:24-32 | deleting a chat removes exactly that chat, every message with its `ChatId` and every membership with its `ChatId`, and leaves every other row unchanged |
| `Store.DeleteChatConsistent` | DataAccess/EntityTypeConfigurations/ChatConfiguration.cs:24-32 | after the cascade no message or membership refers to the deleted chat: every constraint keeps holding |
| `Store.Referenced` | DataAccess/EntityTypeConfigurations/UserConfiguration.cs:19-22 | holds exactly when a chat has the user as owner or a message has the user as author: the two Restrict relations (also MessageConfiguration.cs:24-27) |
| `Store.DeleteUser` | DataAccess/EntityTypeConfigurations/UserConfiguration.cs:19-27 | deleting a user is refused exactly when the user owns a chat or authored a message (Restrict) |
| `Store.DeleteUserConsistent` | DataAccess/EntityTypeConfigurations/UserConfiguration.cs:19-27 | an accepted user delete keeps every constraint |
| `Store.DeleteUserRemoves` | DataAccess/EntityTypeConfigurations/UserConfiguration.cs:24-27 | an accepted user delete removes exactly that user and every membership with their `UserId`; chats and messages are unchanged |
| `Store.DeleteMessage` | BusinessLogic/Services/MessageService.cs:134-135 | deleting a message keeps every constraint, since no relation refers to messages |
| `Store.InsertDeleteChat` | DataAccess/EntityTypeConfigurations/ChatConfiguration.cs:13-32 | in consistent tables, saving a chat under a fresh key and then deleting it restores the tables exactly: the cascade finds no message or membership of a new chat |
| `Store.InsertDeleteUser` | DataAccess/EntityTypeConfigurations/UserConfiguration.cs:13-27 | in consistent tables, a user saved under a fresh key is not referenced, so deleting it is accepted and restores the tables exactly |
| `Store.InsertDeleteMessage` | DataAccess/EntityTypeConfigurations/MessageConfiguration.cs:13-27 | saving a message under a fresh key and then deleting it restores the tables exactly |
| `Store.DeletesCommute` | DataAccess/EntityTypeConfigurations/UserChatConfiguration.cs:15-23 | a chat delete and an accepted user delete can run in either order, and both orders end in the same tables |
| `DbContext.NextIdentity` | DataAccess/Entities/Chat.cs:5 | an `int` identity column yields its next value, which is positive, or overflows once that value exceeds the `int` range |
| `DbContext.SimpleChatDbContext.Valid` | DataAccess/SimpleChatDbContext.cs:8-25 | holds exactly when the tables are consistent and every user, chat and message key is positive and below its identity column's next value, which is at most one past the `int` range |
| `DbContext.SimpleChatDbContext.constructor` | DataAccess/DbInitializer.cs:5-14 | a new database has empty tables (the seed step stores nothing) and satisfies the invariant |
| `DbContext.SimpleChatDbContext.FindUser` | BusinessLogic/Services/UserService.cs:102 | `FindAsync` returns the row stored under the key, whose `Id` is that key, or nothing when the key is absent |
| `DbContext.SimpleChatDbContext.FindChat` | BusinessLogic/Services/ChatService.cs:102 | `FindAsync` returns the chat under the key, whose owner is a stored user, or nothing |
| `DbContext.SimpleChatDbContext.FindMessage` | BusinessLogic/Services/MessageService.cs:102 | `FindAsync` returns the message under the key, whose chat and author are stored, or nothing |
| `DbContext.SimpleChatDbContext.AddUser` | BusinessLogic/Services/UserService.cs:76-78 | the insert fails on an exhausted identity column or an overlong name and then changes nothing; otherwise exactly one user is added under the column's next value, which is positive and fresh, and the user column advances by one; the chat and message columns never move |
| `DbContext.SimpleChatDbContext.AddChat` | BusinessLogic/Services/ChatService.cs:76-78 | the insert fails on overflow, an overlong name or a missing owner, changing nothing; otherwise exactly one chat is added under the chat column's next value, which advances by one; the user and message columns never move |
| `DbContext.SimpleChatDbContext.AddMessage` | BusinessLogic/Services/MessageService.cs:76-78 | the insert fails on overflow, an overlong text, or a missing chat or author, changing nothing; otherwise exactly one message is added under the message column's next value, which advances by one; the user and chat columns never move |
| `DbContext.SimpleChatDbContext.SaveUser` | BusinessLogic/Services/UserService.cs:110-112 | saving an overwritten user succeeds exactly when the name fits, and replaces only that row; no identity column moves |
| `DbContext.SimpleChatDbContext.SaveChat` | BusinessLogic/Services/ChatService.cs:110-112 | saving an overwritten chat succeeds exactly when the name fits and the owner is stored, and replaces only that row; no identity column moves |
| `DbContext.SimpleChatDbContext.SaveMessage` | BusinessLogic/Services/MessageService.cs:110-112 | saving an overwritten message succeeds exactly when the text fits and its chat and author are stored, and replaces only that row; no identity column moves |
| `DbContext.SimpleChatDbContext.RemoveUser` | BusinessLogic/Services/UserService.cs:134-135 | removing a user is refused with a foreign-key violation, changing nothing, exactly when the user is still referenced; otherwise the store becomes the user delete of the old store; no identity column moves |
| `DbContext.SimpleChatDbContext.RemoveChat` | BusinessLogic/Services/ChatService.cs:134-135 | removing a chat leaves the cascade delete of the old store and keeps the invariant; no identity column moves |
| `DbContext.SimpleChatDbContext.RemoveMessage` | BusinessLogic/Services/MessageService.cs:134-135 | removing a message deletes that row and keeps the invariant; no identity column moves |
| `ChatValidation.CreateChatFailures` | BusinessLogic/Validation/Services/ChatValidationService.cs:32-47 | structural failures are returned as they are; past them, the only possible failure is `CreatedById` "Creator Id does not exist.", present exactly when no user has the owner id |
| `ChatValidation.CreateChatAccepted` | BusinessLogic/Validation/Services/ChatValidationService.cs:32-47 | a create request is accepted exactly when the name is valid, the owner id is positive and the owner is a stored user |
| `ChatValidation.CreateChatMissingOwner` | BusinessLogic/Validation/Services/ChatValidationService.cs:41-44 | a structurally valid request with an unknown owner yields exactly one failure, the creator one |
| `ChatValidation.UpdateChatFailures` | BusinessLogic/Validation/Services/ChatValidationService.cs:49-64 | structural failures as they are; past them, "Chat Id does not exist." exactly when the chat is absent |
| `ChatValidation.UpdateChatAccepted` | BusinessLogic/Validation/Services/ChatValidationService.cs:49-64 | an update request is accepted exactly when the name is valid and the chat is stored |
| `ChatValidation.AddUserToChatFailures` | BusinessLogic/Validation/Services/ChatValidationService.cs:66-91 | structural failures as they are; past them, the failures are exactly: chat missing, user missing, and "User is already a member of this chat." when the pair is stored, all reported together |
| `ChatValidation.AddUserToChatAccepted` | BusinessLogic/Validation/Services/ChatValidationService.cs:75-90 | an add request is accepted exactly when both ids are positive, the chat and the user are stored, and the membership is not |
| `ChatValidation.RemoveUserFromChatFailures` | BusinessLogic/Validation/Services/ChatValidationService.cs:93-118 | the registered validator's failures as they are; past them, exactly: chat missing, user missing, and "The user is not a member of the chat" when the pair is absent |
| `ChatValidation.RemoveUserFromChatAccepted` | BusinessLogic/Validation/Services/ChatValidationService.cs:102-117 | a remove request is accepted exactly when its structural check passes and the chat, the user and the membership are all stored |
| `ChatValidation.MembershipChecksExclusive` | BusinessLogic/Validation/Services/ChatValidationService.cs:85-115 | for a stored chat and user with structurally valid requests, exactly one of the add and remove validations passes |
| `ChatValidation.ChatValidationService.constructor` | BusinessLogic/Validation/Services/ChatValidationService.cs:18-30 | the service keeps the context and the remove validator it is given |
| `ChatValidation.ChatValidationService.ValidateCreateChat` | BusinessLogic/Validation/Services/ChatValidationService.cs:32-47 | the failures built step by step are `CreateChatFailures` of the current tables; it only reads the tables |
| `ChatValidation.ChatValidationService.ValidateUpdateChat` | BusinessLogic/Validation/Services/ChatValidationService.cs:49-64 | the failures built step by step are `UpdateChatFailures` of the current tables |
| `ChatValidation.ChatValidationService.ValidateAddUserToChat` | BusinessLogic/Validation/Services/ChatValidationService.cs:66-91 | the failures built step by step are `AddUserToChatFailures` of the current tables |
| `ChatValidation.ChatValidationService.ValidateRemoveUserFromChat` | BusinessLogic/Validation/Services/ChatValidationService.cs:93-118 | the failures built step by step are `RemoveUserFromChatFailures` of the tables and the registered validator's result |
| `MessageValidation.CreateMessageFailures` | BusinessLogic/Validation/Services/MessageValidationService.cs:26-46 | structural failures as they are; past them, exactly `ChatId` "Chat Id does not exist." when the chat is absent and `UserId` "User Id does not exist." when the author is absent, both together when both are |
| `MessageValidation.CreateMessageAccepted` | BusinessLogic/Validation/Services/MessageValidationService.cs:26-46 | a message is accepted exactly when its text is valid, both ids are positive, and its chat and author are stored |
| `MessageValidation.CreateMessageIgnoresMembership` | BusinessLogic/Validation/Services/MessageValidationService.cs:35-43 | the result is the same whatever the memberships are, so the author need not be a member of the chat |
| `MessageValidation.UpdateMessageFailures` | BusinessLogic/Validation/Services/MessageValidationService.cs:48-63 | structural failures as they are; past them, "Message Id does not exist." exactly when the message is absent |
| `MessageValidation.UpdateMessageAccepted` | BusinessLogic/Validation/Services/MessageValidationService.cs:48-63 | an edit is accepted exactly when the text is valid and the message is stored |
| `MessageValidation.MessageValidationService.constructor` | BusinessLogic/Validation/Services/MessageValidationService.cs:16-24 | the service keeps the context it is given |
| `MessageValidation.MessageValidationService.ValidateCreateMessage` | BusinessLogic/Validation/Services/MessageValidationService.cs:26-46 | the failures built step by step are `CreateMessageFailures` of the current tables |
| `MessageValidation.MessageValidationService.ValidateUpdateMessage` | BusinessLogic/Validation/Services/MessageValidationService.cs:48-63 | the failures built step by step are `UpdateMessageFailures` of the current tables |
| `UserValidation.UpdateUserFailures` | BusinessLogic/Validation/Services/UserValidationService.cs:33-48 | structural failures as they are; past them, "User Id does not exist." exactly when the user is absent |
| `UserValidation.UpdateUserAccepted` | BusinessLogic/Validation/Services/UserValidationService.cs:33-48 | a rename is accepted exactly when the name is valid and the user is stored |
| `UserValidation.UserValidationService.constructor` | BusinessLogic/Validation/Services/UserValidationService.cs:16-24 | the service keeps the context it is given |
| `UserValidation.UserValidationService.ValidateCreateUser` | BusinessLogic/Validation/Services/UserValidationService.cs:26-31 | the result is the structural result, with no store query, and is empty exactly when the name is valid, so duplicate names pass |
| `UserValidation.UserValidationService.ValidateUpdateUser` | BusinessLogic/Validation/Services/UserValidationService.cs:33-48 | the failures built step by step are `UpdateUserFailures` of the current tables |
| `ChatServices.ChatService.constructor` | BusinessLogic/Services/ChatService.cs:21-27 | the service and its validation service share one context |
| `ChatServices.ChatService.GetAll` | BusinessLogic/Services/ChatService.cs:29-41 | exactly the stored chats, each with a stored owner |
| `ChatServices.ChatService.GetById` | BusinessLogic/Services/ChatService.cs:43-61 | the stored chat under the id, or "not found" exactly when it is absent; the store is unchanged |
| `ChatServices.ChatService.Create` | BusinessLogic/Services/ChatService.cs:63-89 | failing validation raises every failure and changes nothing; a valid request succeeds exactly when the chat identity column is not exhausted, adding exactly one chat under its next value with the request's name and owner and no membership, and otherwise raises the overflow and changes nothing; only the chat column moves, and only on success |
| `ChatServices.ChatService.Update` | BusinessLogic/Services/ChatService.cs:91-121 | failing validation raises every failure and changes nothing; otherwise only the chat's name changes; "not found" cannot occur; no identity column moves |
| `ChatServices.ChatService.Delete` | BusinessLogic/Services/ChatService.cs:123-144 | "not found" and no change for an absent id; otherwise the cascade delete of the chat, after which the id is absent, so a later `GetById` fails; nothing but the id is consulted; no identity column moves |
| `ChatServices.ChatService.AddUserToChat` | BusinessLogic/Services/ChatService.cs:146-173 | raises every validation failure, otherwise succeeds; it has no write access, so the membership is not stored |
| `ChatServices.ChatService.RemoveUserFromChat` | BusinessLogic/Services/ChatService.cs:175-202 | raises every validation failure, otherwise succeeds; the membership stays |
| `MessageServices.MessageService.constructor` | BusinessLogic/Services/MessageService.cs:21-27 | the service and its validation service share one context |
| `MessageServices.MessageService.GetAll` | BusinessLogic/Services/MessageService.cs:29-41 | exactly the stored messages, each with a stored chat and author |
| `MessageServices.MessageService.GetById` | BusinessLogic/Services/MessageService.cs:43-61 | the stored message under the id, or "not found" exactly when it is absent |
| `MessageServices.MessageService.Create` | BusinessLogic/Services/MessageService.cs:63-89 | failing validation raises every failure and changes nothing; a valid request succeeds exactly when the message identity column is not exhausted, adding exactly one message under its next value in a stored chat by a stored user; otherwise the overflow changes nothing; only the message column moves, and only on success |
| `MessageServices.MessageService.Update` | BusinessLogic/Services/MessageService.cs:91-121 | failing validation raises every failure; otherwise only the message's text changes, keeping its chat and author; "not found" cannot occur; no identity column moves |
| `MessageServices.MessageService.Delete` | BusinessLogic/Services/MessageService.cs:123-144 | "not found" and no change for an absent id; otherwise exactly that message is removed; no identity column moves |
| `UserServices.UserService.constructor` | BusinessLogic/Services/UserService.cs:21-27 | the service and its validation service share one context |
| `UserServices.UserService.GetAll` | BusinessLogic/Services/UserService.cs:29-41 | exactly the stored users, each name within its column |
| `UserServices.UserService.GetById` | BusinessLogic/Services/UserService.cs:43-61 | the stored user under the id, or "not found" exactly when it is absent |
| `UserServices.UserService.Create` | BusinessLogic/Services/UserService.cs:63-89 | failing validation raises every failure; a valid name, even one already in use, succeeds exactly when the user identity column is not exhausted, adding exactly one user under its next value; otherwise the overflow changes nothing; only the user column moves, and only on success |
| `UserServices.UserService.Update` | BusinessLogic/Services/UserService.cs:91-121 | failing validation raises every failure; otherwise only the user's name changes; "not found" cannot occur; no identity column moves |
| `UserServices.UserService.Delete` | BusinessLogic/Services/UserService.cs:123-144 | "not found" for an absent id; a storage failure, changing nothing, while the user owns a chat or authored a message; otherwise the user and their memberships are removed; no identity column moves |

## Left out

- ASP.NET controllers, `Program.cs`, dependency-injection wiring and Swagger. They are transport and hosting, and the controllers call service methods the services do not have.
- The SignalR hub and notifications. The hub is not part of this model.
- AutoMapper profiles and DTOs. They are used only to know which fields a create or update copies.
- Logging, `async`/`await`, `CancellationToken`, and the catch-log-rethrow blocks. Every operation is one atomic step.
- Races between validation and `SaveChangesAsync`. Operations run one after another.
- The `catch` in the list operations that returns `null`. The model's reads cannot fail.
- The `ICRUD` and service interfaces, and the integration tests. Their signatures or expectations disagree with the implementations.
- Lone UTF-16 surrogates. Request strings are sequences of Unicode scalar values, so a .NET string holding an unpaired surrogate has no counterpart in the model.
- `RemoveUserFromChatValidator`. Its rules are not part of this model, so its result is an uninterpreted function given to `ChatValidationService`.
- The text of a `NotFound` exception (`"Chat with Id: {id} not found."`). It is the entity and the id; the model does not format integers.
- The order of the list returned by `ToListAsync`. The list operations return the set of stored rows.
- Identity values lost to refused inserts. SQL Server may skip such values; the model advances an identity column only when a row is stored. Ids remain fresh and positive either way.
- Which of several database errors is raised when one change breaks more than one constraint. The model reports truncation before a foreign-key violation.
- `MessageValidators.CreateMessage`: the function carries no contract of its own. Its exact failures are stated by `MessageValidators.CreateMessageExact`, and acceptance by `MessageValidators.CreateMessageAccepts`.
