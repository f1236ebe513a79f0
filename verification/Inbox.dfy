/** Received messages as the program keeps them after reading a listing or decoding a PDU. */
module Inbox {
  import opened Common

  datatype Storage = ME | SM

  /** The reference of a concatenation header: 8-bit (element 0) or 16-bit (element 8). */
  datatype Reference = Ref8(octet: nat) | Ref16(high: nat, low: nat)

  datatype Concat = Concat(reference: Reference, total: nat, sequence: nat)

  datatype Entry = Entry(
    sender: string,
    date: string,
    text: string,
    indices: seq<int>,
    concat: Option<Concat>,
    pdu: bool,
    storage: Storage)

  /** `indices[0]` as an unsigned number; `None` stands for a missing or negative index. */
  function FirstIndex(e: Entry): Option<nat> {
    if e.indices != [] && e.indices[0] >= 0 then Some(e.indices[0]) else None
  }

  /** The concatenation key: the sender together with the reference. */
  function ConcatKey(e: Entry): Option<(string, Reference)> {
    match e.concat
    case None => None
    case Some(c) => Some((e.sender, c.reference))
  }

  function Total(e: Entry): Option<nat> {
    match e.concat
    case None => None
    case Some(c) => Some(c.total)
  }

  function Sequence(e: Entry): Option<nat> {
    match e.concat
    case None => None
    case Some(c) => Some(c.sequence)
  }
}
