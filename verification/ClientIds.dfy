/** Client identifiers: eight bytes in the program, compared only for equality here. */
module ClientIds {
  datatype ClientID = ClientID(value: nat)

  /** What an identifier is before anything is stored in it. */
  const ZERO_ID := ClientID(0)
}
