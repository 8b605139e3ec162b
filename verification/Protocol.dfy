/** What travels on the stream towards the server. */
module Protocol {

  type Byte = b: int | 0 <= b < 256

  /** SLURequest: the configuration, the two events and audio. */
  datatype Request = Config | StartEvent | StopEvent | Audio(bytes: seq<Byte>)
}
