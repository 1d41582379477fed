/** The adapter object: the ledger of input keys it keeps in a field, the
    trace of store calls it has issued, and its handlers, each proved to
    issue exactly the calls the functions of module Sync describe. */
module Adapter {
  import opened JsRuntime
  import opened JsStrings
  import opened Store
  import opened Sync

  /** Appending is associative (used to extend the ledger and the trace). */
  lemma AppendAssoc<T>(a: seq<T>, b: seq<T>, c: seq<T>)
    ensures a + b + c == a + (b + c)
  {
  }

  class Json2object {
    /** The JavaScript built-ins the handlers call. */
    const rt: Builtins
    /** The configured `outSuffix`; "" when it is not configured. */
    const outSuffix: string
    /** The input keys registered by `onReady`, in registration order. */
    var listOfNodes: seq<string>
    /** Every store call issued so far, in order. */
    var trace: seq<Action>

    constructor (rt: Builtins, outSuffix: string)
      ensures this.rt == rt && this.outSuffix == outSuffix
      ensures listOfNodes == [] && trace == []
    {
      this.rt := rt;
      this.outSuffix := outSuffix;
      listOfNodes := [];
      trace := [];
    }

    /** `onReady`: registers every configured key with a truthy name and, once
        its value has been fetched from `store`, synchronises a truthy value
        forward. */
    method OnReady(inputKeys: seq<InputKey>, store: string -> Fetched)
      modifies this`listOfNodes, this`trace
      ensures listOfNodes == old(listOfNodes) + Names(inputKeys)
      ensures trace == old(trace) + ReadyActions(rt, inputKeys, store)
    {
      for i := 0 to |inputKeys|
        invariant listOfNodes == old(listOfNodes) + Names(inputKeys[..i])
        invariant trace == old(trace) + ReadyActions(rt, inputKeys[..i], store)
      {
        var key := inputKeys[i];
        RegisterInputKey(key, store);
        ReadyStep(rt, inputKeys, i, store);
        AppendAssoc(old(listOfNodes), Names(inputKeys[..i]), if key.name != "" then [key.name] else []);
        AppendAssoc(old(trace), ReadyActions(rt, inputKeys[..i], store), ReadyEntryActions(rt, key, store));
      }
      assert inputKeys[..|inputKeys|] == inputKeys;
    }

    /** The `forEach` callback of `onReady` for one configured key: a truthy
        name is appended to `listOfNodes`; a failed fetch logs a warning; a
        truthy fetched value is synchronised forward. */
    method RegisterInputKey(key: InputKey, store: string -> Fetched)
      modifies this`listOfNodes, this`trace
      ensures listOfNodes == old(listOfNodes) + (if key.name != "" then [key.name] else [])
      ensures trace == old(trace) + ReadyEntryActions(rt, key, store)
    {
      var name := key.name;
      if name != "" {
        listOfNodes := listOfNodes + [name];
        var fetched := store(name);
        if fetched.FetchFailed? {
          trace := trace + [Warn(FetchErrorMessage)];
        } else if fetched.state.Some? && Truthy(fetched.state.value.val) {
          var outcome := CreateObjectAndState(name, rt.text(fetched.state.value.val));
        }
      }
    }

    /** `initObjectPath`: one folder object per dotted segment of the full
        key, at the segment's cumulative path. Calling it again issues the
        same folders again. */
    method InitObjectPath(id: string)
      modifies this`trace
      ensures trace == old(trace) + FolderActions(id)
    {
      var completeKey := Namespace + id;
      var parts := Split(completeKey);
      var currentPath := "";
      for i := 0 to |parts|
        invariant i == 0 ==> currentPath == ""
        invariant i > 0 ==> currentPath != "" && currentPath == Join(parts[..i])
        invariant trace == old(trace) + Folders(parts[..i])
      {
        var part := parts[i];
        if i > 0 {
          assert parts[..i + 1] == parts[..i] + [part];
          JoinSnoc(parts[..i], part);
        }
        currentPath := if currentPath != "" then currentPath + "." + part else part;
        assert Folders(parts[..i + 1]) == Folders(parts[..i]) + [SetObject(currentPath, Folder(part))] by {
          assert parts[..i + 1][..i] == parts[..i];
        }
        AppendAssoc(old(trace), Folders(parts[..i]), [SetObject(currentPath, Folder(part))]);
        trace := trace + [SetObject(currentPath, Folder(part))];
      }
      assert parts[..|parts|] == parts;
    }

    /** `createObjectAndState`: parses the text; on failure logs one warning;
        otherwise, for each entry in order, creates the typed state object
        and then sets its acknowledged value. */
    method CreateObjectAndState(id: string, text: string) returns (outcome: SyncOutcome)
      modifies this`trace
      ensures outcome == ForwardOutcome(rt, text)
      ensures trace == old(trace) + ForwardActions(rt, id, text)
    {
      var parsed := rt.parse(text);
      if parsed.None? {
        trace := trace + [Warn(InvalidJsonMessage(id, text))];
        return InvalidJson;
      }
      var entries := Entries(parsed.value);
      if entries.None? {
        return NotIterable;
      }
      var es := entries.value;
      for i := 0 to |es|
        invariant trace == old(trace) + SyncEntries(rt, id, es[..i])
      {
        var key, value := es[i].0, es[i].1;
        ghost var done := SyncEntries(rt, id, es[..i]);
        ghost var next := EntryActions(rt, id, key, value);
        assert SyncEntries(rt, id, es[..i + 1]) == done + next by {
          assert es[..i + 1][..i] == es[..i];
        }
        AppendAssoc(old(trace), done, next);
        var completeKey := Namespace + id;
        trace := trace + [SetObject(completeKey + "." + key, StateObject(key, ConvertType(value)))];
        var val := if TypeOf(value) == "object" then Str(rt.stringify(value)) else value;
        trace := trace + [SetState(id + "." + key, val, true)];
        assert trace == old(trace) + done + next;
      }
      assert es[..|es|] == es;
      outcome := Synced;
    }

    /** `onStateChange`: routes a change to forward synchronisation or to the
        write-back of a one-field JSON object. */
    method OnStateChange(id: string, state: Option<State>)
      modifies this`trace
      ensures trace == old(trace) + StateChangeActions(rt, outSuffix, listOfNodes, id, state)
    {
      if state.Some? {
        var st := state.value;
        if id in listOfNodes && Truthy(st.val) {
          var outcome := CreateObjectAndState(id, rt.text(st.val));
        } else {
          if st.ack {
            return;
          }
          var jsonKey := JsonKey(id);
          var foreignKey := ReplaceFirst(ReplaceFirst(id, Namespace, ""), "." + jsonKey, "");
          var obj := Obj([(jsonKey, st.val)]);
          if outSuffix != "" {
            foreignKey := foreignKey + "." + outSuffix;
            trace := trace + [SetForeignObject(foreignKey, StateObject(outSuffix, "string"))];
            trace := trace + [SetForeignState(foreignKey, Str(rt.stringify(obj)), false)];
          } else {
            trace := trace + [SetForeignState(foreignKey, Str(rt.stringify(obj)), false)];
          }
        }
      }
    }
  }
}
