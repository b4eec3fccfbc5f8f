/** Types shared by the servers and the upstream factories. */
module Base {
  import opened Packets

  datatype Option<+T> = None | Some(value: T)

  /** What a request callback receives: an error code (zero is no error) and a transport, given by
      the local address it reports, or a null pointer. */
  datatype Outcome = Outcome(error: nat, transport: Option<Address>)
}
