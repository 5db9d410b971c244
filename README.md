# pjstore core, modelled in Dafny

pjstore is a small multi-tenant JSON document store. A caller names a registered access key and a
document name; the store keeps one JSON value per (key, name) pair. Four handlers act on it: get,
put (replace), post (merge a patch into the stored document) and delete. Two SQLite tables hold the
state. `keys` is the registry of access keys. `documents` holds the rows (key, name, data), unique on
(key, name), and a conflicting insert replaces the old row.

This project models two parts of `src/main.rs`:

- `merge_json`, the recursive merge applied by post. It is `MergePatch.Merge`, a function over the
  `Json` datatype (`json.dfy`), and `MergePatch.MergeJson`, a method that updates the base's members one
  patch member at a time, as the source's loop does. The method is proved to compute the function.
- the store. `DocumentStore.Store` is a class whose two fields stand for the two tables: a
  `set<string>` of keys and a `map<(string, string), Json>` of documents. Each handler is a method.
  Each method is proved to move the state as a pure function on a `Tables` value says
  (`ApplyPut`, `ApplyPost`, `ApplyDelete`, `Lookup`). The lemmas relate those functions.

`rfc7396.dfy` holds the JSON Merge Patch algorithm of section 2 of RFC 7396 as an independent reference.
The store's merge looks like that algorithm but is not identical, and the lemmas there pin down the
difference. Where both sides are objects the two take the same step. They part wherever an object patch
meets a non-object or missing base member, at any depth. There RFC 7396 turns the base into `{}` and
keeps recursing, so every null member inside the patch's objects is dropped; a null inside an array is
kept, since arrays are replaced whole. The store copies the patch verbatim instead, nulls included
(`src/main.rs:27` falls through to `:35`). `AgreesWithoutNullMembers` proves the two agree on every
patch that has no null member inside its objects. `DiffersOnNonObjectBase` and `DiffersUnderNewKey`
show the divergence otherwise.

Two behaviours of the program are worth stating plainly:

- When the base is an object, a null directly under a key it lacks is never inserted. Wherever an
  object patch meets a non-object or missing base, it is stored as written, nulls included at any
  depth: `{"a": null}` posted onto a stored `5` stores `{"a": null}`, and `{"a": {"b": null}}` posted
  into `{}` stores `{"a": {"b": null}}`. See `DiffersOnNonObjectBase`, `DiffersUnderNewKey` and
  `MergeNotIdempotent`.
- post performs no registration check (`src/main.rs:76-101`). `PostSkipsRegistration` states it.

## Model

| member | source | states |
|---|---|---|
| `MergePatch.Merge` | src/main.rs:19-36 | a non-object on either side yields the patch exactly (a top-level `null` patch yields `null`); two objects yield an object whose keys are those of either side less the patch's null-valued ones; base members the patch omits keep their values; a non-null member the base lacks is copied verbatim, nested nulls included |
| `MergePatch.MergeJson` | src/main.rs:19-36 | visiting the patch members in any order, removing on `null` and merging into the member (or `Null`) otherwise, produces `Merge(base, patch)` |
| `MergePatch.MergeEmptyPatch` | src/main.rs:20-31 | patch `{}` leaves an object base unchanged |
| `MergePatch.MergeDeletesKey` | src/main.rs:22-25 | patch `{k: null}` removes `k` and nothing else; when the base lacks `k` the base is unchanged |
| `MergePatch.MergeIntoEmpty` | src/main.rs:22-35 | merging an object patch into `{}` keeps exactly its non-null members, each verbatim |
| `MergePatch.MergeIdempotent` | src/main.rs:19-36 | applying a patch with no null members twice equals applying it once |
| `MergePatch.MergeNotIdempotent` | src/main.rs:27-35 | a patch with a nested null, applied twice to `{}`, differs from applying it once |
| `MergePatch.MergeNotCommutative` | src/main.rs:19-36 | two patches setting the same key, applied in opposite orders, give different results |
| `MergePatch.NestedMergeExample` | src/main.rs:19-36 | `{"a":1,"b":{"c":2}}` merged with `{"b":{"c":null,"d":3}}` is `{"a":1,"b":{"d":3}}` |
| `MergePatch.ArrayReplacedExample` | src/main.rs:35 | an array member is replaced wholesale, not merged element by element |
| `Rfc7396.MergePatchRfc` | src/main.rs:19-36 | the RFC 7396 reference the merge is compared with: a non-object patch replaces; an object patch gives an object without the patch's null-valued keys; on a non-object base the result has no null member inside any of its objects, whatever the patch holds |
| `Rfc7396.AgreesWithoutNullMembers` | src/main.rs:19-36 | for every base, a patch with no null member inside its objects merges exactly as RFC 7396 says |
| `Rfc7396.DiffersOnNonObjectBase` | src/main.rs:20-35 | on a non-object base, an object patch's null member survives in the store's result but not in RFC 7396's |
| `Rfc7396.DiffersUnderNewKey` | src/main.rs:27 | a new key whose value holds a nested null is stored with the null, where RFC 7396 strips it |
| `DocumentStore.Upsert` | src/main.rs:63-70 | an insert writes the value for the pair, replacing any earlier one, keeps the registry and every other pair |
| `DocumentStore.ApplyPut` | src/main.rs:55-72 | Ok exactly when the key is registered, and then the pair holds the value; otherwise KeyNotFound and nothing changes; other pairs never change |
| `DocumentStore.ApplyPost` | src/main.rs:77-100 | always Ok; the pair then holds the merge of the patch into its current document (or `{}`); registry and other pairs unchanged |
| `DocumentStore.ApplyDelete` | src/main.rs:105-112 | Ok when the pair had a document, NotFound (with nothing changed) when it had none; afterwards the pair has none and other pairs are unchanged |
| `DocumentStore.Store.constructor` | src/main.rs:119-139 | the store opens with the registry and the documents the database file already holds (`CREATE TABLE IF NOT EXISTS` keeps existing rows) |
| `DocumentStore.Store.Get` | src/main.rs:39-50 | returns what `Lookup` gives for the current tables |
| `DocumentStore.Store.Put` | src/main.rs:54-73 | the new tables and status are those `ApplyPut` gives for the old tables |
| `DocumentStore.Store.Post` | src/main.rs:76-101 | the new tables and status are those `ApplyPost` gives for the old tables, the merge computed by `MergeJson` |
| `DocumentStore.Store.Delete` | src/main.rs:104-113 | the new tables and status are those `ApplyDelete` gives for the old tables |
| `DocumentStore.PutTwice` | src/main.rs:136 | a second put to a pair gives the same tables and status as that put alone |
| `DocumentStore.PutThenGet` | src/main.rs:40-70 | after a put, get returns the value written exactly when the key is registered (or the pair already held it) |
| `DocumentStore.PutThenDelete` | src/main.rs:105-110 | deleting right after a successful put reports Ok and leaves what deleting alone would |
| `DocumentStore.DeleteTwice` | src/main.rs:105-109 | a second delete of the same pair reports NotFound and changes nothing |
| `DocumentStore.PostOnAbsent` | src/main.rs:83-89 | a post to a pair with no document stores the non-null members of an object patch verbatim, or a non-object patch itself |
| `DocumentStore.PostSkipsRegistration` | src/main.rs:76-101 | under an unregistered key put is refused while post succeeds and creates the document |

## Left out

- HTTP routing, request extraction and the response strings (`src/main.rs:1-17`, `152-157`): each handler returns a `Status` or an `Option<Json>` instead of a message.
- Argument parsing and configuration (`src/main.rs:12-17`, `116`, `142-150`).
- Execution of the table-creation statements (`src/main.rs:118-140`): only the meaning of the uniqueness constraint with replace-on-conflict is kept, as the map from pairs to documents.
- The SQLite connection, its pooling and the SQL text: foreign calls, replaced by the in-memory set and map.
- Storage errors and row counts other than 0 or 1 (the `Err(error)` and `unexpected result` arms): a map cannot produce them.
- JSON text: serialization and parsing, and the `unwrap` panics on them (`src/main.rs:65`, `86`, `93`). Documents are stored as parsed `Json` values; a value the store wrote always parses back.
- Floating-point numbers: JSON numbers are modelled as integers.
- Concurrency: requests run one at a time in the model, so the lost update between two concurrent posts is not represented.
- `MergePatch.MergeJson`: takes the base as a value and returns the merged value, so the in-place update of the caller's `serde_json::Value` through `&mut` (and any aliasing of it) is not modelled.
- Adding or removing registered keys: done outside the program; the registry only changes through the constructor.
