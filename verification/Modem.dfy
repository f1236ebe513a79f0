/** What the rest of the program learns about a command it sent. */
module Modem {
  /** The modem said yes; it said no; or there was no answer, whatever the modem did. */
  datatype Answer = Accepted | Refused | Lost
}
