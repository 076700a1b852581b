/** Outcome codes shared by the components. */
module Status {
  datatype Status = Ok | NotFound | InvalidArgument | ResourceExhausted | Internal
}
