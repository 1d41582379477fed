# json2object adapter — a Dafny model

The ioBroker adapter `json2object` (`main.js`) mirrors JSON-valued foreign
states into a tree of child states under its own namespace `json2object.0.`.
It also writes a one-field JSON object back to the foreign state when one of
those children is edited from outside.

This project models the decision logic of that adapter:

- the type classifier `convertType`;
- the path builder `initObjectPath`;
- forward synchronisation `createObjectAndState`;
- the input-key ledger `listOfNodes` kept by `onReady`;
- the routing and key derivation of `onStateChange`.

The host's state store is seen only through the calls the adapter makes on it.
Each call (`setObject`, `setState`, `setForeignObject`, `setForeignState`, and
`log.warn`) is one `Store.Action`, appended to the ordered trace `trace` of
the adapter object.

Modules:

- `JsRuntime`: JavaScript values, `typeof`, truthiness and `Object.entries`.
  JSON.parse, JSON.stringify and `String()` are the fields of a `Builtins`
  record, so the model holds for any implementation of them.
- `JsStrings`: `split(".")`, `join(".")`, `indexOf`, and `replace` with a
  string pattern, which replaces only the first occurrence.
- `Store`: the actions, states and fetch replies of the store.
- `Sync`: for each handler, a function from its inputs to the actions it
  issues, and the lemmas about those functions.
- `Adapter`: the class `Json2object`. It holds the fields `listOfNodes` and
  `trace`, and its handlers are imperative methods. Each method is proved to
  append exactly the actions that the matching `Sync` function describes.

Where the code departs from the evident intent, the model follows the code:

- The foreign key is not "the id without the namespace and its last segment".
  The code removes the *first occurrence* of `json2object.0.`, then the first
  occurrence of `"." + jsonKey` (main.js:217). So field `x` of input key
  `a.xy` (the state `json2object.0.a.xy.x`) is written back to `ay.x`, not to
  `a.xy`. `Sync.ForeignKeyCutsFirstOccurrence` proves this.
  `Sync.ForeignKeyOfChild` proves the intended result whenever `"." + key`
  does not occur earlier in the input key.
- A JSON key containing a dot does not survive the round trip. Entry "a.b"
  of input key `s` is created at `json2object.0.s.a.b` (main.js:173). Its
  JSON key is then the last segment "b" (main.js:216) and its foreign key
  is `s.a` (main.js:217), so an edit writes `{"b": v}` to `s.a`.
  `Sync.DottedKeyWriteBack` proves this case and
  `Sync.ForeignKeyOfDottedChild` the general form.
- `initObjectPath` creates plain `folder` objects, not device or channel
  nodes. Calling it again issues the same folders again; nothing is
  de-duplicated on the adapter's side. It is not called from `onReady`
  (main.js:53 is commented out), so it is modelled on its own.
- `listOfNodes` is a plain list: a name configured twice is stored twice.
- There is no write-back switch and no list of subscribed children. Every
  unacknowledged change that is not a truthy change of an input key is
  written back.

## Model

| member | source | states |
|---|---|---|
| JsRuntime.TypeOf | main.js:108 | `typeof` yields one of its eight tags, and "object" exactly for null, arrays and objects |
| JsRuntime.Truthy | main.js:43-52 | a value is falsy (the `if` at main.js:43 and 52 and the `state?.val` test at main.js:209 skip it) exactly when it is undefined, null, false, the number 0, the bigint 0 or the empty string |
| JsRuntime.Entries | main.js:169 | `Object.entries` fails (TypeError) exactly on null and undefined; it gives an object's own entries; for an array, entry `i` is (the decimal text of `i`, element `i`); for a string, entry `i` is (the decimal text of `i`, the one-character string at `i`); booleans and numbers give none |
| JsRuntime.DecimalString | main.js:169 | the key of index `n` is a non-empty string of decimal digits whose value is `n`, so different indices have different keys; it has no leading zero unless it is "0" |
| JsStrings.Split | main.js:143 | `split(".")` yields at least one segment and no segment contains a dot |
| JsStrings.JoinSplit | main.js:143-144 | joining the segments of a string with dots gives the string back |
| JsStrings.SplitJoin | main.js:143 | splitting a dot-join of dot-free segments gives the segments back |
| JsStrings.SplitAppend | main.js:216 | splitting `a + "." + b` gives the segments of `a` followed by those of `b` |
| JsStrings.JoinPrefix | main.js:144 | the join of a shorter prefix of segments, plus a dot, is a prefix of the join of a longer one |
| JsStrings.IndexOf | main.js:217 | `indexOf` returns the first index where the pattern occurs, or none when it occurs nowhere |
| JsStrings.ReplaceFirst | main.js:217 | `replace` with a string pattern substitutes the first occurrence only, leaves a string without an occurrence unchanged, and does not lengthen the string when the replacement is no longer than the pattern |
| JsStrings.ReplaceLeadingPrefix | main.js:217 | replacing a leading prefix by "" strips exactly that prefix |
| Sync.ConvertType | main.js:106-125 | "string" iff a string, "number" iff a number or bigint, "boolean" iff a boolean, "object" iff null, an array or an object, "mixed" iff anything else; never "array" or "file" |
| Sync.StoredValue | main.js:187 | a value whose `typeof` is "object" is stored as its JSON text, and any other value as itself |
| Sync.NamespaceSegments | main.js:130 | the segments of the full key are "json2object", "0", then the segments of the input key |
| Sync.Folders | main.js:142-154 | one `setObject` per segment |
| Sync.FolderAt | main.js:143-153 | folder `i` is named by segment `i` and sits at the path joining segments 0 to `i` |
| Sync.FoldersAt | main.js:143-153 | the same, for every folder at once |
| Sync.FolderActionsNamed | main.js:130-154 | `initObjectPath(id)` creates one folder per segment of `json2object.0.<id>`, each named by its segment |
| Sync.FolderActionsEnds | main.js:130-154 | there are at least three folders; the first is at "json2object" and the last at the full key |
| Sync.FoldersNested | main.js:142-154 | each folder path followed by a dot is a prefix of every later one |
| Sync.FolderActionsNested | main.js:142-154 | the folders of a full key nest in creation order |
| Adapter.Json2object.InitObjectPath | main.js:129-155 | appends exactly the folders of the full key, in order, and changes nothing else; a second call appends them again |
| Sync.SyncEntriesShape | main.js:169-190 | entry `i` gives actions `2i` and `2i + 1`: its typed state object under the namespace, then its acknowledged value |
| Sync.ForwardSyncOfInvalidJson | main.js:163-168 | text that is not JSON gives exactly one warning naming the id and the text, and no object or state |
| Sync.ForwardSyncOfObject | main.js:169-190 | a JSON object with n entries gives 2n actions in entry order: the object at `json2object.0.<id>.<k>` typed by the classifier, then `<id>.<k>` with ack = true |
| Sync.ForwardActionsAreOwn | main.js:172-189 | forward synchronisation issues only own objects, acknowledged own states and warnings, and never a foreign write |
| Sync.SyncEntriesAreOwn | main.js:172-189 | the entry loop issues only own objects and acknowledged own states |
| Adapter.Json2object.CreateObjectAndState | main.js:161-192 | appends exactly the forward-synchronisation actions of (id, text) and reports whether the text was not JSON, not iterable, or synchronised |
| Sync.JsonKey | main.js:216 | the JSON key is a dot-free segment |
| Sync.JsonKeyIsLastSegment | main.js:216 | the JSON key is a suffix of the id, with a dot right before it unless it is the whole id |
| Sync.JsonKeyOfChild | main.js:216 | the JSON key of `prefix.k` is `k` for a dot-free `k` |
| Sync.ForeignKey | main.js:217 | the foreign key is never longer than the id: the expression only removes text |
| Sync.ForeignKeyCutsNamespace | main.js:217 | when `json2object.0.` first occurs at index `i` of the id, the foreign key is the id with that occurrence cut out, and then the first occurrence of "." + jsonKey cut out of the rest |
| Sync.ForeignKeyOfChildAt | main.js:217 | for a child `json2object.0.<id>.<k>`, the foreign key is `<id>.<k>` with the first occurrence of ".k" cut out |
| Sync.ForeignKeyOfChild | main.js:217 | the foreign key of that child is `<id>` when ".k" does not occur earlier in `<id>.<k>` |
| Sync.ForeignKeyCutsFirstOccurrence | main.js:217 | the foreign key of `json2object.0.a.xy.x` is "ay.x", not "a.xy" |
| Sync.StateChangeRouting | main.js:198-247 | a deleted state issues nothing; a truthy change of an input key is synchronised forward on `String(val)`; any other acknowledged change issues nothing; any other unacknowledged change issues one `setForeignState` of `{jsonKey: val}` with ack = false, preceded by a "string" state object when a suffix is configured |
| Sync.AckedChangeNeverWritesForeign | main.js:212-215 | an acknowledged change never writes a foreign object or state, whichever branch it takes |
| Sync.SensorWriteBack | main.js:216-242 | editing `json2object.0.sensor.a.x` writes `{"x": v}` to `sensor.a.cmd` after creating that state when the suffix is "cmd", and to `sensor.a` without a suffix; an acknowledged edit writes nothing |
| Sync.ForwardThenReverse | main.js:172-241 | the state created for entry `k` of an input key is `json2object.0.<id>.<k>`; with no suffix configured, an unacknowledged edit of it writes `{k: v}` back to `<id>` itself, provided `k` has no dot, ".k" does not occur earlier in `<id>.<k>`, and the child is not itself an input key |
| Sync.ForeignKeyOfDottedChild | main.js:216-217 | for a JSON key `p.q` with a dot, the child's JSON key is only `q` and its foreign key is `<id>.p`, not `<id>` |
| Sync.DottedKeyWriteBack | main.js:172-241 | editing the child `json2object.0.s.a.b` created for entry "a.b" of input key "s" writes `{"b": v}` to `s.a` |
| Adapter.Json2object.OnStateChange | main.js:198-247 | appends exactly the routing actions for (id, state) given the current `listOfNodes`, and leaves `listOfNodes` unchanged |
| Sync.NamesAppend | main.js:41-44 | the ledger of a concatenation of configurations is the concatenation of their ledgers, in order |
| Sync.NamesCount | main.js:41-44 | the ledger holds no empty name, and every non-empty name exactly as many times as it is configured |
| Sync.ReadyActionsOrigin | main.js:47-56 | every non-warning action at start-up belongs to the forward synchronisation of a key with a truthy name whose fetch succeeded with a truthy value |
| Adapter.Json2object.RegisterInputKey | main.js:42-58 | for one configured key: appends a truthy name to `listOfNodes`, then a warning on a failed fetch or the forward synchronisation of a truthy fetched value |
| Adapter.Json2object.OnReady | main.js:41-59 | `listOfNodes` grows by the truthy names in configuration order, and the trace by each key's actions in the same order |
| Adapter.Json2object.constructor | main.js:18-29 | a new adapter has an empty `listOfNodes` and has issued no store call |

## Left out

- Lifecycle and host glue: event wiring, `onUnload`, `subscribeForeignStates`, `subscribeStates("*")` and the module export (main.js:18-27, 46, 61, 68-80, 250-259). They have no behaviour the model could state.
- Debug logging. Only the two warnings, invalid JSON and a failed fetch, are recorded as actions.
- Asynchrony. Every completion callback (`setObject` → `setState`, `setForeignObject` → `setForeignState`, `getForeignState` → its handler) is recorded right after the call that owns it. Interleavings with other events are not modelled. The program's own issue order differs: the `for` loop at main.js:169-191 issues every `setObject` before any `setState` callback runs, and the `forEach` at main.js:41-59 pushes every name before any `getForeignState` callback runs. The object-then-state order per entry in `Sync.ForwardSyncOfObject`, and the per-key order in `Adapter.Json2object.OnReady`, are therefore the model's order, not the order in which the program issues the calls.
- JSON.parse, JSON.stringify and `String()` are abstract functions. Their internals belong to the JavaScript engine.
- Numbers are mathematical reals, so NaN and the infinities are not represented. For this adapter, NaN would only matter as a falsy value.
- The TypeError that `Object.entries` throws on a parsed `null` is modelled as the outcome `NotIterable`, with no further actions. Nothing in the adapter catches it.
- `getForeignState` is the parameter `store` of `OnReady`. The replies of the host's store are not modelled any further.
- A missing `inputKeys` configuration (`inputKeys?.forEach`) is the empty sequence, and a missing `outSuffix` is "".
- Strings are sequences of Dafny characters. JavaScript indexes strings by UTF-16 code units, so for text with characters outside the Basic Multilingual Plane the entries `Object.entries` gives for a JSON string differ from the model's.
- The instance number is fixed at 0, as the code writes it (`${this.name}.0.`).
- Adapter.Json2object.InitObjectPath: the store's upsert of existing objects is not modelled. A second call appends the same folders to the trace again.
