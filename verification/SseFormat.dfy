/** What both readers of the event stream have in common: the fields of one event. */
module SseFormat {

  /** The three fields of a pending or dispatched event, empty when unset. */
  datatype Fields = Fields(id: string, name: string, data: string)

  const NO_FIELDS := Fields("", "", "")

  /** A blank line ends the stream instead of dispatching: `[DONE]` data or a `done` event. */
  predicate IsDoneMarker(f: Fields) {
    f.data == "[DONE]" || f.name == "done"
  }

  /** A blank line hands this event to the consumer. */
  predicate Dispatchable(f: Fields) {
    !IsDoneMarker(f) && f.data != ""
  }
}
