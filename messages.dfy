/** What a handler of the example services returns: a dictionary from
    topics to values that the dialog framework publishes. A handler that
    returns nothing publishes nothing. */
module Messages {
  /** A topic named by a string, or the framework's end-of-dialog topic. */
  datatype Topic = Named(name: string) | DialogEnd

  datatype Payload = IntVal(i: int) | StrVal(s: string) | BoolVal(b: bool)

  type Publication = map<Topic, Payload>
}
