/** The sizes that the server's parts agree on. */
module Defs {
  /** The longest command line, terminator included. */
  const MAX_COMMAND_LINE := 4096
  /** The buffer of a data transfer. */
  const DATA_BUFSIZE := 65536
  /** The longest string on a channel between processes: a transfer buffer with every byte doubled. */
  const PRIVSOCK_MAXSTR := DATA_BUFSIZE * 2
  /** The first port that is not reserved for privileged programs. */
  const PORT_RESERVED := 1024
  /** The turns that matching one name may take. */
  const MATCHITERS_MAX := 1000
}
