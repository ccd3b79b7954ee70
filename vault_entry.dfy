/** A vault's file tree (basalt-core/src/obsidian/vault_entry.rs): notes and directories, and the
    search for a note by path. A path is its sequence of components, so equality of paths and
    `Path::starts_with` are component-wise. */
module VaultEntry {
  import opened Wrappers
  import opened Seqs

  type Path = seq<string>

  /** `Path::starts_with`: `base` is a whole-component prefix of `path`. */
  predicate StartsWith(path: Path, base: Path) {
    base <= path
  }

  /** A note: its name, the path of its file and its creation time (as an opaque number). */
  datatype Note = Note(name: string, path: Path, created: nat)

  datatype VaultEntry =
    | File(note: Note)
    | Directory(name: string, path: Path, entries: seq<VaultEntry>)
  {
    /** `name`, on either variant. */
    function Name(): (r: string)
      ensures File? ==> r == note.name
      ensures Directory? ==> r == name
    {
      if File? then note.name else name
    }
  }

  /** `find_note` for one entry: a file whose path is the query, or the search of a directory
      whose path starts the query; anything else finds nothing. */
  function FindNote(e: VaultEntry, path: Path): (r: Option<Note>)
    ensures r.Some? ==> r.value.path == path
    ensures e.File? ==> r == if e.note.path == path then Some(e.note) else None
    ensures e.Directory? && !StartsWith(path, e.path) ==> r.None?
    ensures e.Directory? && StartsWith(path, e.path) ==> r == FindNoteIn(e.entries, path)
    decreases e, 1
  {
    match e
    case File(note) => if note.path == path then Some(note) else None
    case Directory(_, dirPath, entries) => if StartsWith(path, dirPath) then FindNoteIn(entries, path) else None
  }

  /** `find_note` for a list: the first entry's `Some`, in order. */
  function FindNoteIn(es: seq<VaultEntry>, path: Path): (r: Option<Note>)
    ensures r.Some? ==> r.value.path == path
    ensures es == [] ==> r.None?
    decreases es, 0
  {
    if es == [] then None
    else
      var found := FindNote(es[0], path);
      if found.Some? then found else FindNoteIn(es[1..], path)
  }

  // ---- What the search finds ----

  /** Where an entry lives. */
  function EntryPath(e: VaultEntry): Path {
    if e.File? then e.note.path else e.path
  }

  /** Every entry below a directory lives under the directory's path, as a tree read from disk
      does. */
  predicate WellFormed(e: VaultEntry)
    decreases e
  {
    e.Directory? ==>
      forall i :: 0 <= i < |e.entries| ==> StartsWith(EntryPath(e.entries[i]), e.path) && WellFormed(e.entries[i])
  }

  /** The notes of an entry, in the order the search visits them. */
  function Notes(e: VaultEntry): seq<Note>
    decreases e, 1
  {
    if e.File? then [e.note] else NotesIn(e.entries)
  }

  function NotesIn(es: seq<VaultEntry>): seq<Note>
    decreases es, 0
  {
    if es == [] then [] else Notes(es[0]) + NotesIn(es[1..])
  }

  /** The first note of `ns` at `path`. */
  function FirstWithPath(ns: seq<Note>, path: Path): (r: Option<Note>)
    ensures r.Some? ==> r.value.path == path && r.value in ns
    ensures r.None? <==> forall i :: 0 <= i < |ns| ==> ns[i].path != path
  {
    if ns == [] then None else if ns[0].path == path then Some(ns[0]) else FirstWithPath(ns[1..], path)
  }

  lemma {:induction false} FirstWithPathConcat(a: seq<Note>, b: seq<Note>, path: Path)
    ensures FirstWithPath(a + b, path)
            == if FirstWithPath(a, path).Some? then FirstWithPath(a, path) else FirstWithPath(b, path)
  {
    if a == [] {
      assert a + b == b;
    } else {
      assert (a + b)[1..] == a[1..] + b;
      FirstWithPathConcat(a[1..], b, path);
    }
  }

  /** A note found in an entry is one of its notes, whatever the tree. */
  lemma {:induction false} FindNoteInTree(e: VaultEntry, path: Path)
    ensures FindNote(e, path).Some? ==> FindNote(e, path).value in Notes(e)
    decreases e, 1
  {
    if e.Directory? && StartsWith(path, e.path) {
      FindNoteInListInTree(e.entries, path);
    }
  }

  lemma {:induction false} FindNoteInListInTree(es: seq<VaultEntry>, path: Path)
    ensures FindNoteIn(es, path).Some? ==> FindNoteIn(es, path).value in NotesIn(es)
    decreases es, 0
  {
    if es != [] {
      FindNoteInTree(es[0], path);
      FindNoteInListInTree(es[1..], path);
    }
  }

  /** In a well-formed tree, every note lives under the entry's path. */
  lemma {:induction false} NotesUnder(e: VaultEntry)
    requires WellFormed(e)
    ensures forall i :: 0 <= i < |Notes(e)| ==> StartsWith(Notes(e)[i].path, EntryPath(e))
    decreases e, 1
  {
    if e.Directory? {
      NotesInUnder(e.entries, e.path);
    }
  }

  lemma {:induction false} NotesInUnder(es: seq<VaultEntry>, base: Path)
    requires forall k :: 0 <= k < |es| ==> StartsWith(EntryPath(es[k]), base) && WellFormed(es[k])
    ensures forall i :: 0 <= i < |NotesIn(es)| ==> StartsWith(NotesIn(es)[i].path, base)
    decreases es, 0
  {
    if es != [] {
      NotesUnder(es[0]);
      NotesInUnder(es[1..], base);
      var here: seq<Note> := Notes(es[0]);
      var rest: seq<Note> := NotesIn(es[1..]);
      forall i | 0 <= i < |here + rest|
        ensures StartsWith((here + rest)[i].path, base)
      {
        if i < |here| {
          PrefixTransitive(base, EntryPath(es[0]), here[i].path);
        } else {
          assert (here + rest)[i] == rest[i - |here|];
        }
      }
    }
  }

  lemma PrefixTransitive(a: Path, b: Path, c: Path)
    requires a <= b && b <= c
    ensures a <= c
  {
    assert c[..|b|][..|a|] == c[..|a|];
  }

  /** In a well-formed tree, skipping directories that do not start the query loses nothing:
      `find_note` returns the first note, in order, at exactly the queried path. */
  lemma {:induction false} FindNoteFirst(e: VaultEntry, path: Path)
    requires WellFormed(e)
    ensures FindNote(e, path) == FirstWithPath(Notes(e), path)
    decreases e, 1
  {
    if e.File? {
      assert Notes(e)[1..] == [];
    } else if StartsWith(path, e.path) {
      FindNoteInFirst(e.entries, path);
    } else {
      NotesUnder(e);
    }
  }

  lemma {:induction false} FindNoteInFirst(es: seq<VaultEntry>, path: Path)
    requires forall k :: 0 <= k < |es| ==> WellFormed(es[k])
    ensures FindNoteIn(es, path) == FirstWithPath(NotesIn(es), path)
    decreases es, 0
  {
    if es != [] {
      FindNoteFirst(es[0], path);
      FindNoteInFirst(es[1..], path);
      FirstWithPathConcat(Notes(es[0]), NotesIn(es[1..]), path);
    }
  }

  /** Over a list, the result is that of the first entry that finds something. */
  lemma {:induction false} FindNoteInFirstEntry(es: seq<VaultEntry>, path: Path, i: nat)
    requires i < |es| && FindNote(es[i], path).Some?
    requires forall j :: 0 <= j < i ==> FindNote(es[j], path).None?
    ensures FindNoteIn(es, path) == FindNote(es[i], path)
  {
    if i > 0 {
      FindNoteInFirstEntry(es[1..], path, i - 1);
    }
  }
}
