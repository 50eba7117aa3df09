/** Environment locks and the ordered TOML documents they are rendered into. */
module LockDocument {
  import opened Options
  import opened Sorting
  import opened TextOrder

  /** Whitespace and comments around a key or value, and how the value itself is written. */
  datatype Fmt = Fmt(decor: string, repr: string)

  const DEFAULT_FMT := Fmt("", "")

  datatype Item =
    | Absent
    | Str(text: string, fmt: Fmt)
    | Other(repr: string)
    | Inline(pairs: seq<Entry>)
    | Header(table: Table)
    | ArrayOfTables(tables: seq<Table>)

  datatype Entry = Entry(key: string, keyFmt: Fmt, item: Item)

  /** A table written under a header, or with dotted keys; an implicit one has no header of its own. */
  datatype Table = Table(dotted: bool, implicit: bool, position: Option<nat>, decor: string, entries: seq<Entry>)

  const EMPTY_TABLE := Table(false, false, None, "", [])

  // ---------- keyed entries ----------

  /** A TOML table has each key once. */
  ghost predicate Unique(entries: seq<Entry>) {
    forall i, j | 0 <= i < j < |entries| :: entries[i].key != entries[j].key
  }

  function IndexOf(entries: seq<Entry>, key: string): (r: Option<nat>)
    ensures r.Some? ==> r.value < |entries| && entries[r.value].key == key
    ensures r.None? <==> forall i | 0 <= i < |entries| :: entries[i].key != key
  {
    if entries == [] then None
    else if entries[0].key == key then Some(0)
    else
      match IndexOf(entries[1..], key)
      case None => None
      case Some(i) => Some(i + 1)
  }

  function Find(entries: seq<Entry>, key: string): Option<Entry> {
    match IndexOf(entries, key)
    case None => None
    case Some(i) => Some(entries[i])
  }

  lemma FindAt(entries: seq<Entry>, i: nat)
    requires Unique(entries) && i < |entries|
    ensures Find(entries, entries[i].key) == Some(entries[i])
  {
  }

  lemma FindGives(entries: seq<Entry>, key: string)
    requires Find(entries, key).Some?
    ensures Find(entries, key).value.key == key && Find(entries, key).value in entries
  {
  }

  /** The item stored under a key, unless it is a placeholder. */
  function Get(entries: seq<Entry>, key: string): Option<Item> {
    match Find(entries, key)
    case None => None
    case Some(e) => if e.item.Absent? then None else Some(e.item)
  }

  /** Replaces the entry with this key where it stands, or appends it. */
  function Put(entries: seq<Entry>, entry: Entry): seq<Entry> {
    match IndexOf(entries, entry.key)
    case None => entries + [entry]
    case Some(i) => entries[i := entry]
  }

  lemma PutFind(entries: seq<Entry>, entry: Entry, key: string)
    requires Unique(entries)
    ensures Unique(Put(entries, entry))
    ensures Find(Put(entries, entry), key) == if key == entry.key then Some(entry) else Find(entries, key)
  {
    var put := Put(entries, entry);
    assert Unique(put);
    if key == entry.key {
      FindAt(put, match IndexOf(entries, key) case Some(i) => i case None => |entries|);
    } else if Find(entries, key).Some? {
      var i := IndexOf(entries, key).value;
      assert put[i] == entries[i];
      FindAt(put, i);
    } else {
      assert forall i | 0 <= i < |put| :: put[i].key != key;
    }
  }

  function Removed(entries: seq<Entry>, key: string): seq<Entry> {
    match IndexOf(entries, key)
    case None => entries
    case Some(i) => entries[..i] + entries[i + 1..]
  }

  lemma RemovedFind(entries: seq<Entry>, gone: string, key: string)
    requires Unique(entries)
    ensures Unique(Removed(entries, gone))
    ensures Find(Removed(entries, gone), key) == if key == gone then None else Find(entries, key)
  {
    var r := Removed(entries, gone);
    if IndexOf(entries, gone).Some? {
      var g := IndexOf(entries, gone).value;
      assert forall i | 0 <= i < |r| :: r[i] == if i < g then entries[i] else entries[i + 1];
      if key != gone && Find(entries, key).Some? {
        var i := IndexOf(entries, key).value;
        assert r[if i < g then i else i - 1] == entries[i];
        FindAt(r, if i < g then i else i - 1);
      } else {
        assert forall i | 0 <= i < |r| :: r[i].key != key;
      }
    }
  }

  // ---------- sorted entries ----------

  function KeyOf(): Entry -> string {
    (e: Entry) => e.key
  }

  ghost predicate Sorted(entries: seq<Entry>) {
    Ascending(entries, KeyOf())
  }

  lemma SortedUnique(entries: seq<Entry>)
    requires Sorted(entries)
    ensures Unique(entries)
  {
    forall i, j | 0 <= i < j < |entries| ensures entries[i].key != entries[j].key {
      assert Less(KeyOf()(entries[i]), KeyOf()(entries[j]));
      LessTotal(entries[i].key, entries[j].key);
    }
  }

  lemma FindsMember(entries: seq<Entry>, e: Entry)
    requires Unique(entries)
    ensures e in entries <==> Find(entries, e.key) == Some(e)
  {
    if e in entries {
      var i :| 0 <= i < |entries| && entries[i] == e;
      FindAt(entries, i);
    }
  }

  /** Entries in another order find the same. */
  lemma FindSame(s: seq<Entry>, t: seq<Entry>, key: string)
    requires Unique(s) && Unique(t) && multiset(s) == multiset(t)
    ensures Find(s, key) == Find(t, key)
  {
    if Find(s, key).Some? {
      FindGives(s, key);
      SameElements(s, t, Find(s, key).value);
      FindsMember(t, Find(s, key).value);
    } else if Find(t, key).Some? {
      FindGives(t, key);
      SameElements(s, t, Find(t, key).value);
      FindsMember(s, Find(t, key).value);
    }
  }

  /** Sorted entries are determined by what each key finds. */
  lemma SortedEqual(s: seq<Entry>, t: seq<Entry>)
    requires Sorted(s) && Sorted(t) && forall key :: Find(s, key) == Find(t, key)
    ensures s == t
  {
    SortedUnique(s);
    SortedUnique(t);
    forall e: Entry ensures e in s <==> e in t {
      FindsMember(s, e);
      FindsMember(t, e);
    }
    AscendingEqual(s, t, KeyOf());
  }

  /** The sort of a table's entries by key. */
  function SortByKey(entries: seq<Entry>): seq<Entry> {
    Sort(entries, ByKey(KeyOf()))
  }

  lemma SortKeeps(entries: seq<Entry>)
    requires Unique(entries)
    ensures Sorted(SortByKey(entries))
    ensures forall key :: Find(SortByKey(entries), key) == Find(entries, key)
  {
    SortAscends(entries, KeyOf());
    SortedUnique(SortByKey(entries));
    forall key ensures Find(SortByKey(entries), key) == Find(entries, key) {
      FindSame(SortByKey(entries), entries, key);
    }
  }
}
