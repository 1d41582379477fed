/** The host's state store, seen only through the calls the adapter makes on
    it: every call is recorded as one action of an ordered trace. A call's
    completion callback is recorded after the call that owns it. */
module Store {
  import opened JsRuntime

  /** The object definitions the adapter writes: a `folder` with a name and
      role "", or a read/write `state` with role "state" and a value type. */
  datatype ObjectDef =
    | Folder(name: string)
    | StateObject(name: string, valueType: string)

  datatype Action =
    | SetObject(id: string, obj: ObjectDef)          // this.setObject
    | SetState(id: string, val: Value, ack: bool)    // this.setState, id relative to the namespace
    | SetForeignObject(id: string, obj: ObjectDef)   // this.setForeignObject
    | SetForeignState(id: string, val: Value, ack: bool)  // this.setForeignState
    | Warn(message: string)                          // this.log.warn

  /** A state as delivered by the store: its value and acknowledgement flag. */
  datatype State = State(val: Value, ack: bool)

  /** The reply to `getForeignState`: an error, or a state that may be absent. */
  datatype Fetched = FetchFailed | FetchedState(state: Option<State>)

  /** One configured input key; an empty name stands for a missing one. */
  datatype InputKey = InputKey(name: string)
}
