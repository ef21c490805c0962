/** The values the server's handlers exchange: user documents and JSON responses. */
module Http {
  import opened Wrappers

  /** A document of the `User` collection. */
  datatype UserRecord = UserRecord(id: string, name: Option<string>, email: string, password: string)

  /** A JSON response body: an object of string fields, or a user document. */
  datatype Body = Messages(fields: map<string, string>) | UserDoc(user: UserRecord)

  /** What `res.status(s).json(b)` sends; `res.json(b)` alone sends status 200. */
  datatype Response = Response(status: nat, body: Body)
}
