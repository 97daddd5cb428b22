/** Dotted addresses, as the controller builds them from four numbers. The
    numbers are not limited to 255: the code that increments them never checks. */
module Addresses {
  datatype Ip = Ip(n0: nat, n1: nat, n2: nat, n3: nat)
}
