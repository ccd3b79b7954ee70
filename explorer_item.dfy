/** A row of the file explorer's tree (basalt/src/explorer/item.rs): a note, or a directory that
    can be expanded to show its items. */
module ExplorerItem {
  import V = VaultEntry

  datatype Item =
    | File(note: V.Note)
    | Directory(name: string, path: V.Path, expanded: bool, items: seq<Item>)
  {
    /** `name`, on either variant. */
    function Name(): (r: string)
      ensures File? ==> r == note.name
      ensures Directory? ==> r == name
    {
      if File? then note.name else name
    }

    /** `is_dir`. */
    predicate IsDir()
      ensures IsDir() <==> Directory?
    {
      Directory?
    }
  }

  /** `From<VaultEntry> for Item`: files stay files; a directory keeps its name and path, starts
      collapsed, and converts its entries in order. */
  function FromEntry(e: V.VaultEntry): (r: Item)
    ensures e.File? ==> r == File(e.note)
    ensures e.Directory? ==> (r.Directory? && r.name == e.name && r.path == e.path && !r.expanded
                              && r.items == FromEntries(e.entries))
    ensures r.Name() == e.Name() && (r.IsDir() <==> e.Directory?)
    decreases e, 1
  {
    match e
    case File(note) => File(note)
    case Directory(name, path, entries) => Directory(name, path, false, FromEntries(entries))
  }

  function FromEntries(es: seq<V.VaultEntry>): (r: seq<Item>)
    ensures |r| == |es|
    ensures forall i :: 0 <= i < |es| ==> r[i] == FromEntry(es[i])
    decreases es, 0
  {
    if es == [] then [] else [FromEntry(es[0])] + FromEntries(es[1..])
  }

  /** The conversion forgets nothing but the expansion flag: reading the tree back gives the
      vault's entries. */
  function ToEntry(item: Item): (r: V.VaultEntry)
    decreases item, 1
  {
    match item
    case File(note) => V.File(note)
    case Directory(name, path, _, items) => V.Directory(name, path, ToEntries(items))
  }

  function ToEntries(items: seq<Item>): (r: seq<V.VaultEntry>)
    ensures |r| == |items|
    decreases items, 0
  {
    if items == [] then [] else [ToEntry(items[0])] + ToEntries(items[1..])
  }

  lemma {:induction false} FromEntryRoundTrip(e: V.VaultEntry)
    ensures ToEntry(FromEntry(e)) == e
    decreases e, 1
  {
    if e.Directory? {
      FromEntriesRoundTrip(e.entries);
    }
  }

  lemma {:induction false} FromEntriesRoundTrip(es: seq<V.VaultEntry>)
    ensures ToEntries(FromEntries(es)) == es
    decreases es, 0
  {
    if es != [] {
      FromEntryRoundTrip(es[0]);
      FromEntriesRoundTrip(es[1..]);
      assert FromEntries(es)[1..] == FromEntries(es[1..]);
    }
  }
}
