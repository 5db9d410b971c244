/** The document store behind the four request handlers: a registry of access keys and a table of
    JSON documents addressed by the pair (access key, document name). */
module DocumentStore {
  import opened JsonValue
  import opened MergePatch

  datatype Option<T> = None | Some(value: T)

  /** What a handler reports, in place of its ad-hoc message text. */
  datatype Status = Ok | NotFound | KeyNotFound

  type Address = (string, string)

  /** The logical content of the two tables: the registered keys, and the documents, at most one per
      (key, name) pair because the table's uniqueness constraint replaces on conflict. */
  datatype Tables = Tables(keys: set<string>, documents: map<Address, Json>)

  /** The document stored under (key, name), if any. */
  function Lookup(t: Tables, key: string, name: string): Option<Json>
  {
    if (key, name) in t.documents then Some(t.documents[(key, name)]) else None
  }

  /** An insert into the documents table: a new row, or the replacement of the row for the same pair. */
  function Upsert(t: Tables, key: string, name: string, value: Json): (r: Tables)
    ensures r.keys == t.keys
    ensures Lookup(r, key, name) == Some(value)
    ensures forall k, n :: (k, n) != (key, name) ==> Lookup(r, k, n) == Lookup(t, k, n)
  {
    Tables(t.keys, t.documents[(key, name) := value])
  }

  /** Put: refused with KeyNotFound, and nothing written, unless the key is registered; otherwise an upsert. */
  function ApplyPut(t: Tables, key: string, name: string, value: Json): (r: (Tables, Status))
    ensures r.1 == (if key in t.keys then Ok else KeyNotFound)
    ensures r.1 == KeyNotFound ==> r.0 == t
    ensures r.1 == Ok ==> r.0.keys == t.keys && Lookup(r.0, key, name) == Some(value)
    ensures forall k, n :: (k, n) != (key, name) ==> Lookup(r.0, k, n) == Lookup(t, k, n)
  {
    if key in t.keys then (Upsert(t, key, name, value), Ok) else (t, KeyNotFound)
  }

  /** The document a post merges into: the stored one, or `{}` when there is none. */
  function PostBase(t: Tables, key: string, name: string): Json
  {
    match Lookup(t, key, name)
    case None => Obj(map[])
    case Some(d) => d
  }

  /** Post: merge the patch into the current document and upsert the result. No registration check. */
  function ApplyPost(t: Tables, key: string, name: string, patch: Json): (r: (Tables, Status))
    ensures r.1 == Ok
    ensures r.0.keys == t.keys
    ensures Lookup(r.0, key, name) == Some(Merge(PostBase(t, key, name), patch))
    ensures forall k, n :: (k, n) != (key, name) ==> Lookup(r.0, k, n) == Lookup(t, k, n)
  {
    (Upsert(t, key, name, Merge(PostBase(t, key, name), patch)), Ok)
  }

  /** The number of rows a delete of (key, name) removes: the uniqueness constraint allows at most one. */
  function RowsMatching(t: Tables, key: string, name: string): nat
  {
    if (key, name) in t.documents then 1 else 0
  }

  /** Delete: remove the pair; NotFound when no row matched, Ok when one did. */
  function ApplyDelete(t: Tables, key: string, name: string): (r: (Tables, Status))
    ensures r.1 == (if (key, name) in t.documents then Ok else NotFound)
    ensures r.1 == NotFound ==> r.0 == t
    ensures r.0.keys == t.keys && Lookup(r.0, key, name) == None
    ensures forall k, n :: (k, n) != (key, name) ==> Lookup(r.0, k, n) == Lookup(t, k, n)
  {
    var rows := RowsMatching(t, key, name);
    var t' := Tables(t.keys, t.documents - {(key, name)});
    if rows == 0 then (t', NotFound) else (t', Ok)
  }

  /** The two tables as mutable state, changed by the handlers. */
  class Store {
    var keys: set<string>
    var documents: map<Address, Json>

    function State(): Tables
      reads this
    {
      Tables(keys, documents)
    }

    /** The store opens whatever tables the database file already holds: keys are registered outside
        the core, and documents stored earlier are kept. A new file gives an empty registry and no documents. */
    constructor (registered: set<string>, stored: map<Address, Json>)
      ensures State() == Tables(registered, stored)
    {
      keys := registered;
      documents := stored;
    }

    /** get_document: the stored document for the exact pair, None for an unknown key or an unknown name alike. */
    method Get(key: string, name: string) returns (r: Option<Json>)
      ensures r == Lookup(State(), key, name)
    {
      if (key, name) in documents {
        r := Some(documents[(key, name)]);
      } else {
        r := None;
      }
    }

    /** put_document: look the key up in the registry, then upsert. */
    method Put(key: string, name: string, value: Json) returns (s: Status)
      modifies this
      ensures (State(), s) == ApplyPut(old(State()), key, name, value)
    {
      if key !in keys {
        return KeyNotFound;
      }
      documents := documents[(key, name) := value];
      s := Ok;
    }

    /** post_document: read the current document (absent means `{}`), merge the patch in, upsert. */
    method Post(key: string, name: string, patch: Json) returns (s: Status)
      modifies this
      ensures (State(), s) == ApplyPost(old(State()), key, name, patch)
    {
      var data: Json;
      if (key, name) in documents {
        data := documents[(key, name)];
      } else {
        data := Obj(map[]);
      }
      data := MergeJson(data, patch);
      documents := documents[(key, name) := data];
      s := Ok;
    }

    /** delete_document: remove the pair and report from the number of rows removed. */
    method Delete(key: string, name: string) returns (s: Status)
      modifies this
      ensures (State(), s) == ApplyDelete(old(State()), key, name)
    {
      var rows := RowsMatching(State(), key, name);
      documents := documents - {(key, name)};
      if rows == 0 {
        s := NotFound;
      } else {
        s := Ok;
      }
    }
  }

  /** A second put to the same pair replaces the first: the result is as if only the second happened. */
  lemma PutTwice(t: Tables, key: string, name: string, v1: Json, v2: Json)
    ensures ApplyPut(ApplyPut(t, key, name, v1).0, key, name, v2) == ApplyPut(t, key, name, v2)
  {
    if key in t.keys {
      assert t.documents[(key, name) := v1][(key, name) := v2] == t.documents[(key, name) := v2];
    }
  }

  /** Put then get on the same pair returns the value written, exactly when the key is registered. */
  lemma PutThenGet(t: Tables, key: string, name: string, v: Json)
    ensures Lookup(ApplyPut(t, key, name, v).0, key, name) == Some(v) <==>
            key in t.keys || Lookup(t, key, name) == Some(v)
  {
  }

  /** A delete after a successful put reports Ok and leaves the tables as a delete alone would. */
  lemma PutThenDelete(t: Tables, key: string, name: string, v: Json)
    requires key in t.keys
    ensures ApplyDelete(ApplyPut(t, key, name, v).0, key, name) ==
            (ApplyDelete(t, key, name).0, Ok)
  {
    assert t.documents[(key, name) := v] - {(key, name)} == t.documents - {(key, name)};
  }

  /** Deleting twice: the second delete finds nothing and changes nothing. */
  lemma DeleteTwice(t: Tables, key: string, name: string)
    ensures var once := ApplyDelete(t, key, name).0;
            ApplyDelete(once, key, name) == (once, NotFound)
  {
  }

  /** A post to a pair with no document stores the patch's non-null members, copied verbatim, when the
      patch is an object, and the patch itself otherwise; registration plays no part. */
  lemma PostOnAbsent(t: Tables, key: string, name: string, patch: Json)
    requires (key, name) !in t.documents
    ensures patch.Obj? ==>
      Lookup(ApplyPost(t, key, name, patch).0, key, name) ==
      Some(Obj(map k | k in patch.fields && !patch.fields[k].Null? :: patch.fields[k]))
    ensures !patch.Obj? ==> Lookup(ApplyPost(t, key, name, patch).0, key, name) == Some(patch)
  {
    if patch.Obj? {
      MergeIntoEmpty(patch.fields);
    }
  }

  /** Post succeeds under an unregistered key, where put under the same key is refused. */
  lemma PostSkipsRegistration(t: Tables, key: string, name: string, patch: Json)
    requires key !in t.keys
    ensures ApplyPut(t, key, name, patch).1 == KeyNotFound
    ensures ApplyPost(t, key, name, patch).1 == Ok
    ensures (key, name) in ApplyPost(t, key, name, patch).0.documents
  {
  }
}
