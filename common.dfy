/** Shared vocabulary of the two controllers: document identifiers, optional
    request fields, and the error replies the handlers send. */
module Common {

  /** A document identifier as it arrives in a request (an ObjectId string). */
  type Id = string

  datatype Option<+T> = None | Some(value: T)

  /** The two collections, so that an error can say which lookup failed. */
  datatype Kind = StoryKind | UserKind

  /** The error replies of the controllers, one per distinct reply. */
  datatype Error =
    | MissingField                   // a required request field is absent or empty (400)
    | InvalidIdentifier(kind: Kind)  // the id is not a well-formed ObjectId (400)
    | NotFound(kind: Kind)           // well-formed id, but no such document (400)
    | DuplicateUsername              // the username is held by another user (409)
    | NoData                         // a story update with neither content nor comment (400)
    | InvalidComment                 // a comment without user or without content (400)
    | NoneFound(kind: Kind)          // a listing query matched nothing (400)

  datatype Result<+T> = Ok(value: T) | Err(error: Error)

  /** JavaScript truthiness of an optional string field: absent and "" are falsy. */
  predicate Truthy(s: Option<string>)
  {
    s.Some? && s.value != ""
  }
}
