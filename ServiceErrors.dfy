/** The exceptions the services raise, as values. */
module ServiceErrors {
  import opened Primitives
  import opened Failures
  import opened Store

  /** The entity named in a "not found" message. */
  datatype Entity = ChatEntity | MessageEntity | UserEntity

  datatype ServiceError =
      /** `ValidationException(validationResult.Errors)`: every failure of the validation result. */
    | ValidationError(failures: seq<ValidationFailure>)
      /** `Exception($"{entity} with Id: {id} not found.")` */
    | NotFound(entity: Entity, id: Int32)
      /** the exception `SaveChangesAsync` raises when the database refuses the change */
    | StorageFailure(error: DbError)
}
