/** What the gateway sends to the workers. */
module Messages {

  /** The message carrying one slice to a worker. */
  datatype Message = Message(job: string, sliceId: nat, data: seq<real>)
}
