/** The decision logic of the json2object adapter, as functions from the
    inputs of each handler to the store actions it issues, with the
    properties those handlers promise. The class in module Adapter runs the
    same steps imperatively and is proved to issue exactly these actions. */
module Sync {
  import opened JsRuntime
  import opened JsStrings
  import opened Store

  const AdapterName: string := "json2object"

  /** The adapter's own namespace: the prefix of instance 0. */
  const Namespace: string := AdapterName + ".0."

  /** The message logged when the value of an input key is not JSON. */
  function InvalidJsonMessage(id: string, text: string): string
  {
    "invalid json format on: " + id + " detected: " + text
  }

  /** The message logged when the value of an input key cannot be fetched. */
  const FetchErrorMessage: string := "error getting state"

  // ---------------------------------------------------------------------
  // Type classifier

  /** `convertType`: the metadata type of a state, chosen by `typeof`. */
  function ConvertType(v: Value): (t: string)
    ensures t == "string" <==> v.Str?
    ensures t == "number" <==> v.Num? || v.BigInt?
    ensures t == "boolean" <==> v.Bool?
    ensures t == "object" <==> v.Null? || v.Arr? || v.Obj?
    ensures t == "mixed" <==> v.Undefined? || v.Sym? || v.Func?
    ensures t != "array" && t != "file"
  {
    var tag := TypeOf(v);
    if tag == "string" then "string"
    else if tag == "bigint" || tag == "number" then "number"
    else if tag == "boolean" then "boolean"
    else if tag == "array" then "array"
    else if tag == "object" then "object"
    else if tag == "file" then "file"
    else "mixed"
  }

  /** The value a generated state receives: the JSON text for anything whose
      `typeof` is "object", the value itself otherwise. */
  function StoredValue(rt: Builtins, v: Value): (r: Value)
    ensures v.Null? || v.Arr? || v.Obj? ==> r == Str(rt.stringify(v))
    ensures !(v.Null? || v.Arr? || v.Obj?) ==> r == v
  {
    if TypeOf(v) == "object" then Str(rt.stringify(v)) else v
  }

  // ---------------------------------------------------------------------
  // Path builder

  /** One folder object per segment of `parts`, at the segment's
      cumulative path, in order. */
  function Folders(parts: seq<string>): (folders: seq<Action>)
    ensures |folders| == |parts|
    ensures forall i :: 0 <= i < |folders| ==> folders[i].SetObject?
  {
    if parts == [] then []
    else Folders(parts[..|parts| - 1]) + [SetObject(Join(parts), Folder(parts[|parts| - 1]))]
  }

  /** The folder objects `initObjectPath(id)` creates, in order. */
  function FolderActions(id: string): seq<Action>
  {
    Folders(Split(Namespace + id))
  }

  /** The full key of an input key starts with the segments of the namespace. */
  lemma NamespaceSegments(id: string)
    ensures Split(Namespace + id) == [AdapterName, "0"] + Split(id)
  {
    var tail := "0" + "." + id;
    assert Namespace + id == AdapterName + "." + tail;
    SplitDotted(AdapterName, tail);
    SplitDotted("0", id);
  }

  /** Folder `i` is segment `i`, at the path joining segments 0 to `i`. */
  lemma {:induction false} FolderAt(parts: seq<string>, i: nat)
    requires i < |parts|
    ensures Folders(parts)[i] == SetObject(Join(parts[..i + 1]), Folder(parts[i]))
    decreases |parts|
  {
    var n := |parts| - 1;
    if i < n {
      var init := parts[..n];
      FolderAt(init, i);
      assert init[..i + 1] == parts[..i + 1];
    } else {
      assert parts[..i + 1] == parts;
    }
  }

  /** Every folder is its segment at its cumulative path. */
  lemma FoldersAt(parts: seq<string>)
    ensures forall i :: 0 <= i < |parts| ==>
      Folders(parts)[i] == SetObject(Join(parts[..i + 1]), Folder(parts[i]))
  {
    forall i | 0 <= i < |parts|
      ensures Folders(parts)[i] == SetObject(Join(parts[..i + 1]), Folder(parts[i]))
    {
      FolderAt(parts, i);
    }
  }

  /** One folder per segment of the full key, named by its segment; the
      first two segments are the adapter's name and the instance number. */
  lemma FolderActionsNamed(id: string)
    ensures Split(Namespace + id) == [AdapterName, "0"] + Split(id)
    ensures |FolderActions(id)| == |Split(Namespace + id)|
    ensures forall i :: 0 <= i < |FolderActions(id)| ==>
      FolderActions(id)[i].SetObject? && FolderActions(id)[i].obj == Folder(Split(Namespace + id)[i])
  {
    NamespaceSegments(id);
    FoldersAt(Split(Namespace + id));
  }

  /** The first folder is the adapter's name and the last is the full key. */
  lemma FolderActionsEnds(id: string)
    ensures |FolderActions(id)| >= 3
    ensures FolderActions(id)[0].id == AdapterName
    ensures FolderActions(id)[|FolderActions(id)| - 1].id == Namespace + id
  {
    var key := Namespace + id;
    var parts := Split(key);
    FoldersAt(parts);
    assert parts[0] == AdapterName && |parts| >= 3 by {
      NamespaceSegments(id);
    }
    assert parts[..1] == [parts[0]];
    assert FolderActions(id)[|parts| - 1].id == Join(parts) by {
      assert parts[..|parts|] == parts;
    }
    JoinSplit(key);
  }

  /** Each folder path, followed by a dot, is a prefix of every later one. */
  lemma FoldersNested(parts: seq<string>)
    ensures forall i, j :: 0 <= i < j < |Folders(parts)| ==>
      Folders(parts)[i].id + "." <= Folders(parts)[j].id
  {
    var folders := Folders(parts);
    forall i, j | 0 <= i < j < |folders| ensures folders[i].id + "." <= folders[j].id {
      FolderAt(parts, i);
      FolderAt(parts, j);
      JoinPrefix(parts, i + 1, j + 1);
    }
  }

  /** The folders of a full key nest: each path, followed by a dot, is a
      prefix of every later one. */
  lemma FolderActionsNested(id: string)
    ensures forall i, j :: 0 <= i < j < |FolderActions(id)| ==>
      FolderActions(id)[i].id + "." <= FolderActions(id)[j].id
  {
    FoldersNested(Split(Namespace + id));
  }

  // ---------------------------------------------------------------------
  // Forward synchronisation

  /** The two calls issued for one entry: the state object, then, in its
      callback, the acknowledged value. */
  function EntryActions(rt: Builtins, id: string, key: string, v: Value): seq<Action>
  {
    [SetObject(Namespace + id + "." + key, StateObject(key, ConvertType(v))),
     SetState(id + "." + key, StoredValue(rt, v), true)]
  }

  /** The concatenation of `f(x)` over `xs`, in order. */
  function FlatMap<T, A>(f: T -> seq<A>, xs: seq<T>): seq<A>
  {
    if xs == [] then [] else FlatMap(f, xs[..|xs| - 1]) + f(xs[|xs| - 1])
  }

  /** When every `f(x)` is a pair, element `i` gives positions `2i` and
      `2i + 1`. */
  lemma {:induction false} FlatMapPairs<T, A>(f: T -> seq<A>, xs: seq<T>)
    requires forall x :: |f(x)| == 2
    ensures |FlatMap(f, xs)| == 2 * |xs|
    ensures forall i {:trigger xs[i]} :: 0 <= i < |xs| ==>
      FlatMap(f, xs)[2 * i] == f(xs[i])[0] && FlatMap(f, xs)[2 * i + 1] == f(xs[i])[1]
    decreases |xs|
  {
    if xs != [] {
      var n := |xs| - 1;
      var init := xs[..n];
      FlatMapPairs(f, init);
      forall i | 0 <= i < |xs|
        ensures FlatMap(f, xs)[2 * i] == f(xs[i])[0] && FlatMap(f, xs)[2 * i + 1] == f(xs[i])[1]
      {
        if i < n {
          assert xs[i] == init[i];
        }
      }
    }
  }

  /** The calls issued for the entries, in order. */
  function SyncEntries(rt: Builtins, id: string, es: seq<(string, Value)>): seq<Action>
  {
    FlatMap((e: (string, Value)) => EntryActions(rt, id, e.0, e.1), es)
  }

  datatype SyncOutcome = Synced | InvalidJson | NotIterable

  /** How `createObjectAndState` ends: the text is not JSON, `Object.entries`
      throws on the parsed value, or every entry was handled. */
  function ForwardOutcome(rt: Builtins, text: string): SyncOutcome
  {
    match rt.parse(text)
    case None => InvalidJson
    case Some(v) => if Entries(v).None? then NotIterable else Synced
  }

  /** The calls `createObjectAndState(id, text)` issues. */
  function ForwardActions(rt: Builtins, id: string, text: string): seq<Action>
  {
    match rt.parse(text)
    case None => [Warn(InvalidJsonMessage(id, text))]
    case Some(v) =>
      match Entries(v)
      case None => []
      case Some(es) => SyncEntries(rt, id, es)
  }

  /** Entry `i` gives actions `2i` and `2i + 1`: the typed state object under
      the namespace, then its acknowledged value. */
  lemma SyncEntriesShape(rt: Builtins, id: string, es: seq<(string, Value)>)
    ensures |SyncEntries(rt, id, es)| == 2 * |es|
    ensures forall i :: 0 <= i < |es| ==>
      && SyncEntries(rt, id, es)[2 * i] == SetObject(Namespace + id + "." + es[i].0, StateObject(es[i].0, ConvertType(es[i].1)))
      && SyncEntries(rt, id, es)[2 * i + 1] == SetState(id + "." + es[i].0, StoredValue(rt, es[i].1), true)
  {
    FlatMapPairs((e: (string, Value)) => EntryActions(rt, id, e.0, e.1), es);
  }

  /** A text that is not JSON gives exactly one warning and nothing else. */
  lemma ForwardSyncOfInvalidJson(rt: Builtins, id: string, text: string)
    requires rt.parse(text).None?
    ensures ForwardOutcome(rt, text) == InvalidJson
    ensures ForwardActions(rt, id, text) == [Warn(InvalidJsonMessage(id, text))]
  {
  }

  /** A JSON object with entries (k1, v1) .. (kn, vn) gives, in entry order,
      n state objects typed by the classifier, each followed by its value
      with ack = true. */
  lemma ForwardSyncOfObject(rt: Builtins, id: string, text: string, es: seq<(string, Value)>)
    requires rt.parse(text) == Some(Obj(es))
    ensures ForwardOutcome(rt, text) == Synced
    ensures |ForwardActions(rt, id, text)| == 2 * |es|
    ensures forall i :: 0 <= i < |es| ==>
      && ForwardActions(rt, id, text)[2 * i] == SetObject(Namespace + id + "." + es[i].0, StateObject(es[i].0, ConvertType(es[i].1)))
      && ForwardActions(rt, id, text)[2 * i + 1] == SetState(id + "." + es[i].0, StoredValue(rt, es[i].1), true)
  {
    SyncEntriesShape(rt, id, es);
  }

  /** Forward synchronisation only writes inside the adapter's namespace, and
      every value it writes is acknowledged. */
  lemma ForwardActionsAreOwn(rt: Builtins, id: string, text: string)
    ensures forall a :: a in ForwardActions(rt, id, text) ==> a.SetObject? || (a.SetState? && a.ack) || a.Warn?
  {
    match rt.parse(text)
    case None =>
    case Some(v) =>
      match Entries(v)
      case None =>
      case Some(es) => SyncEntriesAreOwn(rt, id, es);
  }

  /** The entry calls are state objects and acknowledged values only. */
  lemma {:induction false} SyncEntriesAreOwn(rt: Builtins, id: string, es: seq<(string, Value)>)
    ensures forall a :: a in SyncEntries(rt, id, es) ==> a.SetObject? || (a.SetState? && a.ack)
    decreases |es|
  {
    if es != [] {
      SyncEntriesAreOwn(rt, id, es[..|es| - 1]);
    }
  }

  // ---------------------------------------------------------------------
  // Reverse synchronisation

  /** The last dotted segment of a state id. */
  function JsonKey(id: string): (k: string)
    ensures '.' !in k
  {
    var parts := Split(id);
    parts[|parts| - 1]
  }

  /** `id` with the first occurrence of the namespace removed, then the
      first occurrence of "." + JsonKey(id) removed. */
  function ForeignKey(id: string): (r: string)
    ensures |r| <= |id|
  {
    ReplaceFirst(ReplaceFirst(id, Namespace, ""), "." + JsonKey(id), "")
  }

  /** The namespace is cut where it first occurs in `id`, wherever that is;
      the first "." + JsonKey(id) is then cut from what remains. */
  lemma ForeignKeyCutsNamespace(id: string, i: nat)
    requires FirstOccurrence(id, Namespace, i)
    ensures ForeignKey(id) == ReplaceFirst(id[..i] + id[i + |Namespace|..], "." + JsonKey(id), "")
  {
    assert id[..i] + "" + id[i + |Namespace|..] == id[..i] + id[i + |Namespace|..];
  }

  /** The calls issued for an unacknowledged change of `id` to `val`. */
  function ReverseActions(rt: Builtins, outSuffix: string, id: string, val: Value): seq<Action>
  {
    var payload := Str(rt.stringify(Obj([(JsonKey(id), val)])));
    if outSuffix != "" then
      var target := ForeignKey(id) + "." + outSuffix;
      [SetForeignObject(target, StateObject(outSuffix, "string")), SetForeignState(target, payload, false)]
    else
      [SetForeignState(ForeignKey(id), payload, false)]
  }

  /** The calls `onStateChange(id, state)` issues, given the input keys. */
  function StateChangeActions(rt: Builtins, outSuffix: string, nodes: seq<string>, id: string, state: Option<State>): seq<Action>
  {
    match state
    case None => []
    case Some(st) =>
      if id in nodes && Truthy(st.val) then ForwardActions(rt, id, rt.text(st.val))
      else if st.ack then []
      else ReverseActions(rt, outSuffix, id, st.val)
  }

  /** The JSON key is a suffix of the id, and unless it is the whole id a
      dot stands right before it. */
  lemma JsonKeyIsLastSegment(id: string)
    ensures |JsonKey(id)| <= |id| && id[|id| - |JsonKey(id)|..] == JsonKey(id)
    ensures JsonKey(id) != id ==> |JsonKey(id)| < |id| && id[|id| - |JsonKey(id)| - 1] == '.'
  {
    var parts := Split(id);
    var n := |parts|;
    var k := parts[n - 1];
    JoinSplit(id);
    if n == 1 {
      assert Join(parts) == k;
    } else {
      var prefix := Join(parts[..n - 1]);
      assert parts[..n - 1] + [k] == parts;
      JoinSnoc(parts[..n - 1], k);
      assert id == prefix + "." + k;
      assert id[|id| - |k|..] == k;
      assert id[|id| - |k| - 1] == '.';
    }
  }

  /** The JSON key of a child path is the child's own dot-free name. */
  lemma JsonKeyOfChild(prefix: string, k: string)
    requires '.' !in k
    ensures JsonKey(prefix + "." + k) == k
  {
    SplitAppend(prefix, k);
    SplitNoDot(k);
  }

  /** The foreign key of a child path cuts out the first occurrence of
      "." + k after the namespace, wherever that occurrence is. */
  lemma ForeignKeyOfChildAt(id: string, k: string, p: nat)
    requires '.' !in k
    requires FirstOccurrence(id + "." + k, "." + k, p)
    ensures JsonKey(Namespace + id + "." + k) == k
    ensures ForeignKey(Namespace + id + "." + k) == (id + "." + k)[..p] + (id + "." + k)[p + |k| + 1..]
  {
    var child := Namespace + id + "." + k;
    var rest := id + "." + k;
    assert JsonKey(child) == k by {
      JsonKeyOfChild(Namespace + id, k);
    }
    assert ReplaceFirst(child, Namespace, "") == rest by {
      assert child == Namespace + rest;
      ReplaceLeadingPrefix(Namespace, rest);
    }
    assert ReplaceFirst(rest, "." + k, "") == rest[..p] + rest[p + |k| + 1..];
  }

  /** A change of the state generated for field `k` of input key `id` is
      written back to `id` itself, provided "." + k does not occur in `id`
      before the separating dot. */
  lemma ForeignKeyOfChild(id: string, k: string)
    requires '.' !in k
    requires forall j :: 0 <= j < |id| ==> !OccursAt(id + "." + k, "." + k, j)
    ensures JsonKey(Namespace + id + "." + k) == k
    ensures ForeignKey(Namespace + id + "." + k) == id
  {
    var rest := id + "." + k;
    assert rest[|id|..|id| + |"." + k|] == "." + k;
    assert FirstOccurrence(rest, "." + k, |id|);
    ForeignKeyOfChildAt(id, k, |id|);
    assert rest[..|id|] == id;
    assert rest[|id| + |k| + 1..] == [];
  }

  /** Only the first occurrence of "." + key is removed, so the change of
      field "x" of input key "a.xy" is written to "ay.x", not to "a.xy". */
  lemma ForeignKeyCutsFirstOccurrence(id: string, k: string)
    requires id == "a.xy" && k == "x"
    ensures JsonKey(Namespace + id + "." + k) == "x"
    ensures ForeignKey(Namespace + id + "." + k) == "ay.x"
  {
    var rest := id + "." + k;
    assert FirstOccurrence(rest, "." + k, 1) by {
      assert rest == "a.xy.x";
      assert !OccursAt(rest, ".x", 0) by { assert rest[0] == 'a'; }
      assert rest[1..3] == ".x";
    }
    ForeignKeyOfChildAt(id, k, 1);
    assert rest[..1] + rest[3..] == "ay.x" by {
      assert rest == "a.xy.x";
    }
  }

  /** With suffix "cmd", editing field "x" of input key "sensor.a" (the
      state "json2object.0.sensor.a.x") writes {"x": v} to "sensor.a.cmd"
      after declaring it a string state; without a suffix the same payload
      goes to "sensor.a"; an acknowledged change writes nothing. */
  lemma SensorWriteBack(rt: Builtins, nodes: seq<string>, id: string, k: string, v: Value)
    requires id == "sensor.a" && k == "x"
    requires Namespace + id + "." + k !in nodes
    ensures StateChangeActions(rt, "cmd", nodes, Namespace + id + "." + k, Some(State(v, false)))
      == [SetForeignObject("sensor.a.cmd", StateObject("cmd", "string")),
          SetForeignState("sensor.a.cmd", Str(rt.stringify(Obj([("x", v)]))), false)]
    ensures StateChangeActions(rt, "", nodes, Namespace + id + "." + k, Some(State(v, false)))
      == [SetForeignState("sensor.a", Str(rt.stringify(Obj([("x", v)]))), false)]
    ensures StateChangeActions(rt, "cmd", nodes, Namespace + id + "." + k, Some(State(v, true))) == []
  {
    var rest := id + "." + k;
    assert rest == "sensor.a.x";
    forall j | 0 <= j < |id| ensures !OccursAt(rest, "." + k, j) {
      assert rest[j] != '.' || rest[j + 1] != 'x';
    }
    ForeignKeyOfChild(id, k);
    assert id + "." + "cmd" == "sensor.a.cmd";
  }

  /** A JSON key with a dot, `p.q`, makes a child whose JSON key is only the
      last segment `q`, and whose foreign key keeps `p`: the write-back goes
      to `id.p`, not to `id`. */
  lemma ForeignKeyOfDottedChild(id: string, p: string, q: string)
    requires '.' !in q
    requires forall j :: 0 <= j < |id + "." + p| ==> !OccursAt(id + "." + p + "." + q, "." + q, j)
    ensures JsonKey(Namespace + id + "." + (p + "." + q)) == q
    ensures ForeignKey(Namespace + id + "." + (p + "." + q)) == id + "." + p
  {
    assert Namespace + id + "." + (p + "." + q) == Namespace + (id + "." + p) + "." + q;
    ForeignKeyOfChild(id + "." + p, q);
  }

  /** Entry "a.b" of input key "s" is created at "json2object.0.s.a.b"; an
      unacknowledged edit of it writes {"b": v} to "s.a", not {"a.b": v} to
      "s". */
  lemma DottedKeyWriteBack(rt: Builtins, nodes: seq<string>, id: string, k: string, v: Value)
    requires id == "s" && k == "a.b"
    requires Namespace + id + "." + k !in nodes
    ensures JsonKey(Namespace + id + "." + k) == "b"
    ensures StateChangeActions(rt, "", nodes, Namespace + id + "." + k, Some(State(v, false)))
      == [SetForeignState("s.a", Str(rt.stringify(Obj([("b", v)]))), false)]
  {
    assert k == "a" + "." + "b";
    var rest := id + "." + "a" + "." + "b";
    assert rest == "s.a.b";
    forall j | 0 <= j < |id + "." + "a"| ensures !OccursAt(rest, "." + "b", j) {
      assert rest[j] != '.' || rest[j + 1] != 'b';
    }
    ForeignKeyOfDottedChild(id, "a", "b");
    assert id + "." + "a" == "s.a";
  }

  /** Feedback-loop prevention: an acknowledged change never reaches a
      foreign state or object, whichever branch it takes. */
  lemma AckedChangeNeverWritesForeign(rt: Builtins, outSuffix: string, nodes: seq<string>, id: string, st: State)
    requires st.ack
    ensures forall a :: a in StateChangeActions(rt, outSuffix, nodes, id, Some(st)) ==>
      !a.SetForeignState? && !a.SetForeignObject?
  {
    ForwardActionsAreOwn(rt, id, rt.text(st.val));
  }

  /** Routing of a change: a deleted state does nothing; an input key with a
      truthy value is synchronised forward on String(val); any other change
      is dropped when acknowledged and otherwise written back exactly once,
      with ack = false, to the foreign key or to its suffix state. Falsy
      values of input keys take the write-back branch. */
  lemma StateChangeRouting(rt: Builtins, outSuffix: string, nodes: seq<string>, id: string, state: Option<State>)
    ensures state.None? ==> StateChangeActions(rt, outSuffix, nodes, id, state) == []
    ensures state.Some? && id in nodes && Truthy(state.value.val) ==>
      StateChangeActions(rt, outSuffix, nodes, id, state) == ForwardActions(rt, id, rt.text(state.value.val))
    ensures state.Some? && !(id in nodes && Truthy(state.value.val)) && state.value.ack ==>
      StateChangeActions(rt, outSuffix, nodes, id, state) == []
    ensures state.Some? && !(id in nodes && Truthy(state.value.val)) && !state.value.ack ==>
      var acts := StateChangeActions(rt, outSuffix, nodes, id, state);
      var target := if outSuffix == "" then ForeignKey(id) else ForeignKey(id) + "." + outSuffix;
      && acts[|acts| - 1] == SetForeignState(target, Str(rt.stringify(Obj([(JsonKey(id), state.value.val)]))), false)
      && (outSuffix == "" ==> |acts| == 1)
      && (outSuffix != "" ==> |acts| == 2 && acts[0] == SetForeignObject(target, StateObject(outSuffix, "string")))
  {
  }

  /** Forward then reverse: the state generated for entry `i` of an input
      key's JSON object is an object at the child path, and, with no suffix
      configured, an unacknowledged edit of that child writes {k: v} back to
      the input key itself, provided `k` has no dot, ".k" does not occur
      earlier in the input key, and the child is not itself an input key. */
  lemma ForwardThenReverse(rt: Builtins, nodes: seq<string>, id: string, text: string,
                           es: seq<(string, Value)>, i: nat, v: Value)
    requires rt.parse(text) == Some(Obj(es))
    requires i < |es|
    requires '.' !in es[i].0
    requires forall j :: 0 <= j < |id| ==> !OccursAt(id + "." + es[i].0, "." + es[i].0, j)
    requires Namespace + id + "." + es[i].0 !in nodes
    ensures var child := Namespace + id + "." + es[i].0;
      && |ForwardActions(rt, id, text)| == 2 * |es|
      && ForwardActions(rt, id, text)[2 * i].SetObject?
      && ForwardActions(rt, id, text)[2 * i].id == child
      && StateChangeActions(rt, "", nodes, child, Some(State(v, false)))
         == [SetForeignState(id, Str(rt.stringify(Obj([(es[i].0, v)]))), false)]
  {
    ForwardSyncOfObject(rt, id, text, es);
    ForeignKeyOfChild(id, es[i].0);
  }

  // ---------------------------------------------------------------------
  // Input-key ledger and start-up

  /** The names `onReady` appends to `listOfNodes`: every truthy name, in
      configuration order, duplicates included. */
  function Names(keys: seq<InputKey>): seq<string>
  {
    if keys == [] then []
    else Names(keys[..|keys| - 1]) + (if keys[|keys| - 1].name != "" then [keys[|keys| - 1].name] else [])
  }

  /** Every configured name, empty ones included. */
  function AllNames(keys: seq<InputKey>): seq<string>
  {
    seq(|keys|, i requires 0 <= i < |keys| => keys[i].name)
  }

  /** The ledger keeps configuration order across concatenation. */
  lemma {:induction false} NamesAppend(a: seq<InputKey>, b: seq<InputKey>)
    ensures Names(a + b) == Names(a) + Names(b)
    decreases |b|
  {
    if b == [] {
      assert a + b == a;
    } else {
      var b' := b[..|b| - 1];
      assert (a + b)[..|a + b| - 1] == a + b';
      assert (a + b)[|a + b| - 1] == b[|b| - 1];
      NamesAppend(a, b');
    }
  }

  /** The ledger holds no empty name, and every non-empty name as many times
      as it is configured: there is no de-duplication. */
  lemma {:induction false} NamesCount(keys: seq<InputKey>)
    ensures "" !in Names(keys)
    ensures forall x :: x != "" ==> multiset(Names(keys))[x] == multiset(AllNames(keys))[x]
    decreases |keys|
  {
    if keys != [] {
      var init := keys[..|keys| - 1];
      NamesCount(init);
      assert AllNames(keys) == AllNames(init) + [keys[|keys| - 1].name];
    }
  }

  /** `onReady` runs forward synchronisation for a key exactly when its name
      is truthy, the fetch succeeded and the fetched value is truthy. */
  predicate SyncsOnReady(key: InputKey, store: string -> Fetched)
  {
    && key.name != ""
    && store(key.name).FetchedState?
    && store(key.name).state.Some?
    && Truthy(store(key.name).state.value.val)
  }

  /** The calls `onReady` issues for one configured key, its fetch callback
      run right after the fetch. */
  function ReadyEntryActions(rt: Builtins, key: InputKey, store: string -> Fetched): seq<Action>
  {
    if key.name == "" then []
    else if store(key.name).FetchFailed? then [Warn(FetchErrorMessage)]
    else if SyncsOnReady(key, store) then
      ForwardActions(rt, key.name, rt.text(store(key.name).state.value.val))
    else []
  }

  /** The calls `onReady` issues for the configured keys, in order. */
  function ReadyActions(rt: Builtins, keys: seq<InputKey>, store: string -> Fetched): seq<Action>
  {
    if keys == [] then []
    else ReadyActions(rt, keys[..|keys| - 1], store) + ReadyEntryActions(rt, keys[|keys| - 1], store)
  }

  /** One more configured key adds its name and its calls at the end. */
  lemma ReadyStep(rt: Builtins, keys: seq<InputKey>, i: nat, store: string -> Fetched)
    requires i < |keys|
    ensures ReadyActions(rt, keys[..i + 1], store) == ReadyActions(rt, keys[..i], store) + ReadyEntryActions(rt, keys[i], store)
    ensures Names(keys[..i + 1]) == Names(keys[..i]) + (if keys[i].name != "" then [keys[i].name] else [])
  {
    assert keys[..i + 1][..i] == keys[..i];
  }

  /** Every store write made at start-up belongs to the forward
      synchronisation of a configured key with a truthy fetched value; the
      only other actions are warnings. */
  lemma {:induction false} ReadyActionsOrigin(rt: Builtins, keys: seq<InputKey>, store: string -> Fetched)
    ensures forall a :: a in ReadyActions(rt, keys, store) && !a.Warn? ==>
      exists i :: (0 <= i < |keys| && SyncsOnReady(keys[i], store) &&
        a in ForwardActions(rt, keys[i].name, rt.text(store(keys[i].name).state.value.val)))
    decreases |keys|
  {
    if keys != [] {
      var n := |keys| - 1;
      var init := keys[..n];
      ReadyActionsOrigin(rt, init, store);
      forall a | a in ReadyActions(rt, keys, store) && !a.Warn?
        ensures exists i :: (0 <= i < |keys| && SyncsOnReady(keys[i], store) &&
          a in ForwardActions(rt, keys[i].name, rt.text(store(keys[i].name).state.value.val)))
      {
        if a in ReadyActions(rt, init, store) {
          var i :| 0 <= i < |init| && SyncsOnReady(init[i], store) &&
            a in ForwardActions(rt, init[i].name, rt.text(store(init[i].name).state.value.val));
          assert keys[i] == init[i];
        } else {
          assert a in ReadyEntryActions(rt, keys[n], store);
          assert SyncsOnReady(keys[n], store);
        }
      }
    }
  }
}
