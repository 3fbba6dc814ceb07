/**
 * The engine's store of named lookup tables (`putMap`, `getMap`, `getValue`).
 * A lookup of a key the table lacks falls back to the table's reserved default key.
 */
module MapStore {
  import opened Wrappers

  /** The reserved key whose entry answers lookups of absent keys (`Maps.DEFAULT_MAP_KEY`). */
  const DefaultMapKey: string := "__default"

  type Table = map<string, string>

  /** Named tables, keyed by map name. */
  type Store = map<string, Table>

  const EmptyStore: Store := map[]

  /** `putMap(name, table)`: installs or replaces the table called `name`. */
  function PutMap(store: Store, name: string, table: Table): (r: Store)
    ensures r.Keys == store.Keys + {name}
    ensures GetMap(r, name) == Some(table)
    ensures forall other :: other != name ==> GetMap(r, other) == GetMap(store, other)
  {
    store[name := table]
  }

  /** `getMap(name)`: the table called `name`, or `None` when no table has that name. */
  function GetMap(store: Store, name: string): (r: Option<Table>)
    ensures r.Some? <==> name in store
    ensures r.Some? ==> r.value == store[name]
  {
    if name in store then Some(store[name]) else None
  }

  /**
   * `getValue(name, key)`: the entry for `key` in the table called `name`; the
   * default entry when the table lacks `key`; `None` when neither exists.
   */
  function GetValue(store: Store, name: string, key: string): (r: Option<string>)
    ensures r.Some? <==> name in store && (key in store[name] || DefaultMapKey in store[name])
    ensures r.Some? ==> r.value in store[name].Values
  {
    match GetMap(store, name)
    case None => None
    case Some(table) =>
      if key in table then Some(table[key])
      else if DefaultMapKey in table then Some(table[DefaultMapKey])
      else None
  }

  /** After `putMap(name, table)`, every key of `table` is looked up to its own entry. */
  lemma PutThenGetValue(store: Store, name: string, table: Table, key: string)
    requires key in table
    ensures GetValue(PutMap(store, name, table), name, key) == Some(table[key])
  {
  }

  /** After `putMap(name, table)`, a key `table` lacks resolves to the default entry, if any. */
  lemma PutThenGetDefault(store: Store, name: string, table: Table, key: string)
    requires key !in table
    ensures DefaultMapKey in table ==> GetValue(PutMap(store, name, table), name, key) == Some(table[DefaultMapKey])
    ensures DefaultMapKey !in table ==> GetValue(PutMap(store, name, table), name, key) == None
  {
  }

  /** A table holding only the default key answers every lookup with the default value. */
  lemma DefaultOnlyTable(store: Store, name: string, default: string, key: string)
    ensures GetValue(PutMap(store, name, map[DefaultMapKey := default]), name, key) == Some(default)
  {
  }

  /** Installing a table leaves lookups in every other table unchanged. */
  lemma PutLeavesOtherTables(store: Store, name: string, table: Table, other: string, key: string)
    requires other != name
    ensures GetValue(PutMap(store, name, table), other, key) == GetValue(store, other, key)
  {
  }
}
