/** The one protocol boundary: every remote call is an `execute_kw` with
    seven positional arguments. The transport itself is not modelled; a
    request is the tuple that would be handed to it. */
module Dispatch {
  import opened PyValues

  /** What a client holds after authenticating: the database name, the user
      id returned by the handshake, and the API token. */
  datatype Session = Session(db: string, uid: int, token: string)

  /** `(database, user_id, token, model, methodName, args, kwargs)`. */
  datatype Wire = Wire(db: string, uid: int, token: string, model: string, methodName: string,
                       args: seq<Value>, kwargs: map<string, Value>)

  /** The wire tuple for a call: the session's three items, then the call's
      four, none of them altered. */
  function WireOf(s: Session, model: string, methodName: string, args: seq<Value>, kwargs: map<string, Value>): (w: Wire)
    ensures w.db == s.db && w.uid == s.uid && w.token == s.token
    ensures w.model == model && w.methodName == methodName && w.args == args && w.kwargs == kwargs
  {
    Wire(s.db, s.uid, s.token, model, methodName, args, kwargs)
  }
}
