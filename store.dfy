/** The front-end config store that both the resolver and the installer work
    through: one JSON document per (directory, section name), read with `get`,
    written with `update` (top-level merge) or `set` (replace). Whether a write
    succeeds is decided by the file system; here that answer is the store's
    `faults` map, fixed for the lifetime of the store. */
module Store {
  import opened Wrappers
  import opened Json

  type Path = string

  /** A section document is addressed by its directory and its section name. */
  type Key = (Path, string)

  type Docs = map<Key, Document>

  /** Why a write was refused: EACCES, or any other I/O error. */
  datatype WriteFault = PermissionDenied | OtherIOError

  datatype Mode = MergeWrite | ReplaceWrite

  /** One call into the store, as a log entry: writes are logged when attempted. */
  datatype Access =
    | Read(dir: Path, section: string)
    | Write(dir: Path, section: string, mode: Mode)

  /** `get`: a section that was never written reads as an empty document. */
  function Lookup(docs: Docs, dir: Path, section: string): Document
  {
    if (dir, section) in docs then docs[(dir, section)] else map[]
  }

  function FaultAt(faults: map<Key, WriteFault>, dir: Path, section: string): Option<WriteFault>
  {
    if (dir, section) in faults then Some(faults[(dir, section)]) else None
  }

  /** The two stores agree on key `k`: both lack it or both hold the same document. */
  predicate SameAt(a: Docs, b: Docs, k: Key)
  {
    (k in a <==> k in b) && (k in a ==> a[k] == b[k])
  }

  /** `update`: the given top-level keys are written over the stored document,
      whose other keys stay; no other document changes. */
  function Merged(docs: Docs, dir: Path, section: string, doc: Document): (r: Docs)
    ensures (dir, section) in r
    ensures forall k :: k != (dir, section) ==> SameAt(docs, r, k)
    ensures r[(dir, section)].Keys == Lookup(docs, dir, section).Keys + doc.Keys
    ensures forall name :: name in doc ==> r[(dir, section)][name] == doc[name]
    ensures forall name :: name in Lookup(docs, dir, section) && name !in doc ==>
              r[(dir, section)][name] == Lookup(docs, dir, section)[name]
  {
    docs[(dir, section) := Lookup(docs, dir, section) + doc]
  }

  /** `set`: the given document replaces the stored one; no other document changes. */
  function Replaced(docs: Docs, dir: Path, section: string, doc: Document): (r: Docs)
    ensures (dir, section) in r && r[(dir, section)] == doc
    ensures forall k :: k != (dir, section) ==> SameAt(docs, r, k)
  {
    docs[(dir, section) := doc]
  }

  /** Merge-writing a document that has every key of the stored one leaves
      exactly that document stored. */
  lemma MergedCovering(docs: Docs, dir: Path, section: string, doc: Document)
    requires Lookup(docs, dir, section).Keys <= doc.Keys
    ensures Lookup(Merged(docs, dir, section, doc), dir, section) == doc
  {
  }

  class DocumentStore {
    var docs: Docs
    ghost var accesses: seq<Access>
    const faults: map<Key, WriteFault>

    constructor (docs: Docs, faults: map<Key, WriteFault>)
      ensures this.docs == docs && this.faults == faults && accesses == []
    {
      this.docs := docs;
      this.faults := faults;
      accesses := [];
    }

    method Get(dir: Path, section: string) returns (doc: Document)
      modifies this`accesses
      ensures doc == Lookup(docs, dir, section)
      ensures accesses == old(accesses) + [Read(dir, section)]
    {
      doc := Lookup(docs, dir, section);
      accesses := accesses + [Read(dir, section)];
    }

    method Update(dir: Path, section: string, doc: Document) returns (fault: Option<WriteFault>)
      modifies this
      ensures fault == FaultAt(faults, dir, section)
      ensures docs == if fault.None? then Merged(old(docs), dir, section, doc) else old(docs)
      ensures accesses == old(accesses) + [Write(dir, section, MergeWrite)]
    {
      fault := FaultAt(faults, dir, section);
      if fault.None? {
        docs := Merged(docs, dir, section, doc);
      }
      accesses := accesses + [Write(dir, section, MergeWrite)];
    }

    method Set(dir: Path, section: string, doc: Document) returns (fault: Option<WriteFault>)
      modifies this
      ensures fault == FaultAt(faults, dir, section)
      ensures docs == if fault.None? then Replaced(old(docs), dir, section, doc) else old(docs)
      ensures accesses == old(accesses) + [Write(dir, section, ReplaceWrite)]
    {
      fault := FaultAt(faults, dir, section);
      if fault.None? {
        docs := Replaced(docs, dir, section, doc);
      }
      accesses := accesses + [Write(dir, section, ReplaceWrite)];
    }
  }
}
