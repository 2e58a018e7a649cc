/** The message value the broker hands to its subscribers (message.go). */
module Messages {

  /** A message published on `topic`. The Go payload is an `interface{}`; every
      producer in the broker passes a string, so the model uses a string. */
  datatype Message = Message(topic: string, payload: string)

}
