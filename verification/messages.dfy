/**
 Every message the service sends. Messages are values, built from the thing they are about and,
 where the text quotes something, the quoted value; `Text` gives the exact wording. The rule
 tables, the checks and the handlers produce `Message` values, and the same `Message` always
 gives the same text.
 */
module Messages {
  /** The three collections, by the noun their messages use. */
  datatype Entity = OrderEntity | ProductEntity | UserEntity

  /** What a string rule is about: it decides the rule's type, empty and pattern messages. */
  datatype Subject =
    | ProductIdItem | UserIdItem | OrderDate
    | ProductName
    | UserName | UserLastName | UserEmail

  datatype Message =
    // Rule-table violations (`error.details[0].message`).
    | Required(key: string)
    | NotArray(key: string)
    | TooShort(key: string)
    | NotString(subject: Subject)
    | EmptyString(subject: Subject)
    | Mismatch(subject: Subject, value: string)
    | NotAllowed(key: string)
    // The controller checks.
    | InvalidId(entity: Entity, id: string)
    | NotFound(entity: Entity, id: string)
    | MissingReference(entity: Entity, id: string)
    | InvalidDateQuery
    | InvalidProductQuery
    | InvalidUserQuery
    | NoneStored(entity: Entity)
    // Store errors: the two unique indexes and anything else the store throws.
    | ProductAlreadyInserted
    | EmailAlreadyRegistered
    | StoreFailure(text: string)

  /** The noun of `isIDValid` and the not-found checks. */
  function Noun(e: Entity): string {
    match e
    case OrderEntity => "order"
    case ProductEntity => "product"
    case UserEntity => "user"
  }

  /** `model.modelName`, as `isIdExists` prints it. */
  function ModelName(e: Entity): string {
    match e
    case OrderEntity => "Order"
    case ProductEntity => "Product"
    case UserEntity => "User"
  }

  /** How the type and empty messages name their subject. */
  function SubjectName(s: Subject): string {
    match s
    case ProductIdItem => "Product ID"
    case UserIdItem => "User ID"
    case OrderDate => "Date"
    case ProductName => "Product's name"
    case UserName => "User's name"
    case UserLastName => "User's last name"
    case UserEmail => "User's email"
  }

  /** The pattern message of each subject; the id messages quote the offending value. */
  function MismatchText(s: Subject, value: string): string {
    match s
    case ProductIdItem => "Invalid format for the product's ID: '" + value + "'."
    case UserIdItem => "Invalid format for the user's ID: '" + value + "'."
    case OrderDate => "Date must be in the format YYYY-MM-DD."
    case UserName => "Invalid format for user's name. Length must be between 2 and 25 characters."
    case UserLastName => "Invalid format for user's last name. Length must be between 2 and 25 characters."
    case UserEmail => "Please enter a valid email."
    // The product name has no pattern, so it never reports a mismatch.
    case ProductName => ""
  }

  /** The text sent for each message. */
  function Text(m: Message): string {
    match m
    case Required(key) => "Path '" + key + "' is required."
    case NotArray(key) => "Path '" + key + "' must be an array."
    case TooShort(key) => "Path '" + key + "' must contain at least one element."
    case NotString(s) => SubjectName(s) + " must be a string."
    case EmptyString(s) => SubjectName(s) + " cannot be an empty string."
    case Mismatch(s, value) => MismatchText(s, value)
    case NotAllowed(key) => "Path not allowed: " + key + ". Please remove it."
    case InvalidId(e, id) => "Invalid format for the " + Noun(e) + "'s ID: " + id + "."
    case NotFound(e, id) => "Cannot find any " + Noun(e) + " with this id : " + id
    case MissingReference(e, id) => ModelName(e) + "'s ID " + id + " doesn't exists."
    case InvalidDateQuery => "Invalid date in query. Date must be in the format YYYY-MM-DD."
    case InvalidProductQuery => "Invalid product ID in query."
    case InvalidUserQuery => "Invalid user ID in query."
    case NoneStored(e) => "There isn't any " + Noun(e) + "."
    case ProductAlreadyInserted => "This product has already been inserted."
    case EmailAlreadyRegistered => "This email is already registered. Please retry."
    case StoreFailure(text) => text
  }
}
