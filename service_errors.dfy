/** The exceptions the backend services end with, as values. */
module ServiceErrors {
  datatype ServiceError =
    | ResourceNotFound(message: string)    // ResourceNotFoundException
    | DuplicateResource(message: string)   // DuplicateResourceException
    | IncorrectResultSize                  // a single-result query that matched several rows
    | NullPointer                          // a method called on a null reference
    | DataIntegrityViolation               // the database refused a NULL in a NOT NULL column
}
