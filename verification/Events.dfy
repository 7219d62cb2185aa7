// The unified event and the positions of the replication stream.
module Events {
  import opened Prelude

  // Postgres log sequence number: a position in the write-ahead log.
  type LSN = nat

  // Unset is the empty operation string of a zero Event.
  datatype Operation = Unset | Insert | Update | Delete

  // A nil payload is None.
  datatype Event = Event(id: string, source: string, operation: Operation, eventType: string,
                         payload: Option<string>, headers: map<string, string>)

  // The zero value of the Go struct: what the handler returns when there is nothing to hand over.
  const NO_EVENT := Event("", "", Unset, "", None, map[])
}
