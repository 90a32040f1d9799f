/**
 * The filesystem as the core sees it: regular files as a map from path to
 * content and mode, a copy that is one atomic "content and mode, or failure"
 * step, and directories of JSON documents as ordered listings of named entries.
 */
module Disk {
  import opened Results
  import opened Models

  type Byte = bv8

  datatype FileData = FileData(content: seq<Byte>, mode: nat)

  /** The environment's failure points: files that cannot be created or
      truncated, and directories that `os.MkdirAll` cannot create. */
  datatype Faults = Faults(readOnly: set<Path>, badDirs: set<Path>)

  type Files = map<Path, FileData>

  /** `copyFile(src, dst)`: open src, create (truncate) dst, copy the bytes, then
      give dst the mode of src. When src and dst are one file, the truncation
      empties it before anything is read. */
  function Copy(files: Files, faults: Faults, src: Path, dst: Path): (r: (Files, Result<Unit>))
    ensures r.1.Ok? <==> src in files && dst !in faults.readOnly
    ensures r.1.Err? ==> r.0 == files
    ensures r.1.Ok? ==> dst in r.0 && r.0[dst].mode == files[src].mode
    ensures r.1.Ok? && src != dst ==> r.0[dst].content == files[src].content
    ensures r.1.Ok? && src == dst ==> r.0[dst].content == []
    ensures forall p :: p != dst ==> (p in r.0 <==> p in files)
    ensures forall p :: p != dst && p in files ==> r.0[p] == files[p]
  {
    if src !in files then (files, Err(OpenFailed(src)))
    else if dst in faults.readOnly then (files, Err(CreateFailed(dst)))
    else
      var data := if src == dst then FileData([], files[src].mode) else files[src];
      (files[dst := data], Ok(Unit))
  }

  /** `os.MkdirAll(dir)`; directories themselves are not part of the model. */
  function MkdirAll(faults: Faults, dir: Path): (r: Result<Unit>)
    ensures r.Ok? <==> dir !in faults.badDirs
  {
    if dir in faults.badDirs then Err(MkdirFailed(dir)) else Ok(Unit)
  }

  /** Position of the last '/' in p. */
  function LastSlash(p: Path): (r: Option<nat>)
    ensures r.Some? ==> r.value < |p| && p[r.value] == '/'
    ensures r.Some? ==> forall k :: r.value < k < |p| ==> p[k] != '/'
    ensures r.None? ==> forall k :: 0 <= k < |p| ==> p[k] != '/'
  {
    if |p| == 0 then None
    else if p[|p| - 1] == '/' then Some(|p| - 1)
    else LastSlash(p[..|p| - 1])
  }

  /** `filepath.Dir` for clean paths. */
  function ParentDir(p: Path): (r: Path)
    ensures LastSlash(p).None? ==> r == "."
    ensures LastSlash(p) == Some(0) ==> r == "/"
    ensures LastSlash(p).Some? && LastSlash(p).value > 0 ==> r == p[..LastSlash(p).value]
  {
    match LastSlash(p)
    case None => "."
    case Some(i) => if i == 0 then "/" else p[..i]
  }

  /** `filepath.Base` for clean paths: the last element. */
  function Base(p: Path): (r: Path)
    ensures forall k :: 0 <= k < |r| ==> r[k] != '/' || p == ""
    ensures p == "" ==> r == "."
    ensures p != "" && LastSlash(p).None? ==> r == p
    ensures LastSlash(p).Some? ==> r == p[LastSlash(p).value + 1..]
  {
    if p == "" then "."
    else match LastSlash(p)
      case None => p
      case Some(i) => p[i + 1..]
  }

  lemma {:induction false} SuffixesDiffer(a: string, b: string, u: string, v: string)
    requires |u| == |v| && u != v
    ensures a + u != b + v
  {
    assert (a + u)[|a|..] == u;
    assert (b + v)[|b|..] == v;
    if |a| == |b| {
      assert a + u == b + v ==> u == v;
    }
  }

  // ----- directories of JSON documents -----

  /** The content behind a directory entry: a document that parses, one that
      does not, or a sub-directory (which `os.ReadFile` refuses). */
  datatype Body<T> = Parsed(value: T) | Unparsable | Directory

  datatype Entry<T> = Entry(name: string, body: Body<T>)

  ghost predicate DistinctNames<T>(es: seq<Entry<T>>) {
    forall i, j :: 0 <= i < j < |es| ==> es[i].name != es[j].name
  }

  function Names<T>(es: seq<Entry<T>>): (r: set<string>)
    ensures forall n :: n in r <==> exists i :: 0 <= i < |es| && es[i].name == n
  {
    if es == [] then {} else {es[0].name} + Names(es[1..])
  }

  /** The body of the first entry called name. */
  function Find<T>(es: seq<Entry<T>>, name: string): (r: Option<Body<T>>)
    ensures r.None? <==> name !in Names(es)
    ensures r.Some? ==> exists i :: 0 <= i < |es| && es[i] == Entry(name, r.value)
  {
    if es == [] then None
    else if es[0].name == name then Some(es[0].body)
    else Find(es[1..], name)
  }

  lemma {:induction false} FindAt<T>(es: seq<Entry<T>>, i: nat)
    requires DistinctNames(es) && i < |es|
    ensures Find(es, es[i].name) == Some(es[i].body)
  {
    if i > 0 {
      assert es[0].name != es[i].name;
      assert es[1..][i - 1] == es[i];
      FindAt(es[1..], i - 1);
    }
  }

  /** `os.WriteFile` into the listing: the entry called name is replaced in
      place, or a new entry is appended. */
  function Put<T>(es: seq<Entry<T>>, name: string, b: Body<T>): (r: seq<Entry<T>>)
    ensures Find(r, name) == Some(b)
    ensures forall m :: m != name ==> Find(r, m) == Find(es, m)
    ensures Names(r) == Names(es) + {name}
  {
    if es == [] then [Entry(name, b)]
    else if es[0].name == name then [Entry(name, b)] + es[1..]
    else [es[0]] + Put(es[1..], name, b)
  }

  lemma ConsDistinct<T>(e: Entry<T>, es: seq<Entry<T>>)
    requires DistinctNames(es) && e.name !in Names(es)
    ensures DistinctNames([e] + es)
  {
    var r := [e] + es;
    forall i, j | 0 <= i < j < |r| ensures r[i].name != r[j].name {
      assert r[j] == es[j - 1];
      if i > 0 { assert r[i] == es[i - 1]; }
    }
  }

  lemma {:induction false} PutKeepsDistinct<T>(es: seq<Entry<T>>, name: string, b: Body<T>)
    requires DistinctNames(es)
    ensures DistinctNames(Put(es, name, b))
  {
    if es != [] {
      assert DistinctNames(es[1..]);
      assert es[0].name !in Names(es[1..]);
      if es[0].name == name {
        ConsDistinct(Entry(name, b), es[1..]);
      } else {
        PutKeepsDistinct(es[1..], name, b);
        ConsDistinct(es[0], Put(es[1..], name, b));
      }
    }
  }

  /** `os.Remove` of the entry called name. */
  function Drop<T>(es: seq<Entry<T>>, name: string): (r: seq<Entry<T>>)
    ensures forall m :: m != name ==> Find(r, m) == Find(es, m)
    ensures Names(r) <= Names(es)
  {
    if es == [] then []
    else if es[0].name == name then es[1..]
    else [es[0]] + Drop(es[1..], name)
  }

  lemma {:induction false} DropKeepsDistinct<T>(es: seq<Entry<T>>, name: string)
    requires DistinctNames(es)
    ensures DistinctNames(Drop(es, name))
    ensures name !in Names(Drop(es, name))
  {
    if es != [] {
      assert DistinctNames(es[1..]);
      assert es[0].name !in Names(es[1..]);
      if es[0].name != name {
        DropKeepsDistinct(es[1..], name);
        ConsDistinct(es[0], Drop(es[1..], name));
      }
    }
  }

  lemma {:induction false} PutMembers<T>(es: seq<Entry<T>>, name: string, b: Body<T>, e: Entry<T>)
    requires DistinctNames(es)
    ensures e in Put(es, name, b) <==> e == Entry(name, b) || (e in es && e.name != name)
  {
    if es != [] {
      assert DistinctNames(es[1..]);
      assert es[0].name !in Names(es[1..]);
      if es[0].name != name {
        PutMembers(es[1..], name, b, e);
      }
    }
  }

  lemma {:induction false} DropMembers<T>(es: seq<Entry<T>>, name: string, e: Entry<T>)
    requires DistinctNames(es)
    ensures e in Drop(es, name) <==> e in es && e.name != name
  {
    if es != [] {
      assert DistinctNames(es[1..]);
      assert es[0].name !in Names(es[1..]);
      if es[0].name != name {
        DropMembers(es[1..], name, e);
      }
    }
  }

  /** In a listing with distinct names, an entry is determined by its name. */
  lemma SameNameSameEntry<T>(es: seq<Entry<T>>, e1: Entry<T>, e2: Entry<T>)
    requires DistinctNames(es) && e1 in es && e2 in es && e1.name == e2.name
    ensures e1 == e2
  {
    var i :| 0 <= i < |es| && es[i] == e1;
    var j :| 0 <= j < |es| && es[j] == e2;
    assert i == j;
  }

  /** What reading the document called name yields. */
  datatype ReadOutcome<T> = Loaded(value: T) | Missing | NotAFile | Corrupt

  function Read<T>(es: seq<Entry<T>>, name: string): (r: ReadOutcome<T>)
    ensures r.Missing? <==> Find(es, name).None?
    ensures r.Loaded? <==> Find(es, name).Some? && Find(es, name).value.Parsed?
    ensures r.Loaded? ==> Find(es, name) == Some(Parsed(r.value))
  {
    match Find(es, name)
    case None => Missing
    case Some(Parsed(v)) => Loaded(v)
    case Some(Unparsable) => Corrupt
    case Some(Directory) => NotAFile
  }

  /** `os.WriteFile(name, json)`: fails when the store is not writable or the
      name is a directory. */
  function Write<T>(es: seq<Entry<T>>, name: string, v: T, writable: bool): (r: (seq<Entry<T>>, Result<Unit>))
    ensures r.1.Ok? <==> writable && Find(es, name) != Some(Directory)
    ensures r.1.Ok? ==> r.0 == Put(es, name, Parsed(v))
    ensures r.1.Err? ==> r.0 == es && r.1.error == WriteFailed(name)
  {
    if !writable || Find(es, name) == Some(Directory) then (es, Err(WriteFailed(name)))
    else (Put(es, name, Parsed(v)), Ok(Unit))
  }

  const JsonExt := ".json"

  /** `filepath.Ext(name) == ".json"`; for a directory entry name (no '/'),
      this is the same as ending in ".json". */
  predicate IsJsonName(name: string) {
    |name| >= 5 && name[|name| - 5..] == JsonExt
  }

  /** The identifier a listing derives from a ".json" name: the name minus its last five characters. */
  function IdOf(name: string): (r: string)
    requires IsJsonName(name)
    ensures r + JsonExt == name
  {
    name[..|name| - 5]
  }
}
