/**
 * The browser-side symbol registry (frontend/src/lib/symbolRegistry.ts): a
 * map from broker symbol to the chosen Yahoo ticker, stored as one JSON text
 * under a single `localStorage` key.
 *
 * `localStorage` is a string-to-string map that may be unusable (no window,
 * storage disabled); `JSON.parse` and `JSON.stringify` are a codec passed in
 * as a parameter, and the properties that need it assume only that parsing a
 * stringified registry gives the registry back (and that the text is never
 * empty).
 */
module SymbolRegistry {
  import opened Wrappers

  datatype EntrySource = FromRegistry | FromTickersJson | Heuristic | Manual

  datatype RegistryEntry = RegistryEntry(
    brokerSymbol: string,
    yahooTicker: string,
    source: EntrySource,
    confidence: real,
    updatedAt: string)

  type Registry = map<string, RegistryEntry>

  /** `JSON.parse` (None when it throws) and `JSON.stringify`. */
  datatype Codec = Codec(parse: string -> Option<Registry>, stringify: Registry -> string)

  /**
   * Parsing what was stringified gives the same registry back, and the text
   * of a registry is never empty (it is at least `{}`).
   */
  ghost predicate RoundTrips(c: Codec) {
    forall m: Registry {:trigger c.stringify(m)} :: c.stringify(m) != "" && c.parse(c.stringify(m)) == Some(m)
  }

  /** The page's `localStorage`; `usable` is false where every access throws. */
  datatype Storage = Storage(items: map<string, string>, usable: bool)

  /** `LS_KEY`: the only key the registry reads or writes. */
  const LsKey: string := "symbol_registry_v1"

  /** The stored text, when storage is usable and holds a non-empty one. */
  function StoredText(st: Storage): (r: Option<string>)
    ensures r.Some? <==> st.usable && LsKey in st.items && st.items[LsKey] != ""
    ensures r.Some? ==> r.value == st.items[LsKey]
  {
    if st.usable && LsKey in st.items && st.items[LsKey] != "" then Some(st.items[LsKey]) else None
  }

  /** `loadRegistry`: the parsed registry, or `{}` on any failure. */
  function LoadRegistry(c: Codec, st: Storage): (r: Registry)
    ensures StoredText(st).None? ==> r == map[]
    ensures StoredText(st).Some? && c.parse(StoredText(st).value).None? ==> r == map[]
    ensures StoredText(st).Some? && c.parse(StoredText(st).value).Some? ==> r == c.parse(StoredText(st).value).value
  {
    match StoredText(st)
    case None => map[]
    case Some(raw) => c.parse(raw).GetOr(map[])
  }

  /** `upsertRegistry`: the write throws (and is not caught) when storage is unusable. */
  function UpsertRegistry(c: Codec, st: Storage, e: RegistryEntry): (r: Result<Storage, string>)
    ensures r.Success? <==> st.usable
    ensures r.Success? ==> r.value.usable && LsKey in r.value.items
    ensures r.Success? ==> forall k :: k != LsKey ==> (k in r.value.items <==> k in st.items)
    ensures r.Success? ==> forall k :: k != LsKey && k in st.items ==> r.value.items[k] == st.items[k]
  {
    if !st.usable then Failure("localStorage is not available")
    else
      var curr := LoadRegistry(c, st)[e.brokerSymbol := e];
      Success(Storage(st.items[LsKey := c.stringify(curr)], true))
  }

  /**
   * After an upsert the loaded registry is the old one with `e` stored
   * under its broker symbol: `e` is there, and every other key keeps its
   * entry (or its absence).
   */
  lemma LoadAfterUpsert(c: Codec, st: Storage, e: RegistryEntry)
    requires RoundTrips(c) && st.usable
    ensures var st' := UpsertRegistry(c, st, e).value;
            LoadRegistry(c, st') == LoadRegistry(c, st)[e.brokerSymbol := e]
    ensures var st' := UpsertRegistry(c, st, e).value;
            e.brokerSymbol in LoadRegistry(c, st') && LoadRegistry(c, st')[e.brokerSymbol] == e
    ensures var st' := UpsertRegistry(c, st, e).value;
            forall k :: k != e.brokerSymbol ==>
              (k in LoadRegistry(c, st') <==> k in LoadRegistry(c, st))
              && (k in LoadRegistry(c, st) ==> LoadRegistry(c, st')[k] == LoadRegistry(c, st)[k])
  {
    var curr := LoadRegistry(c, st)[e.brokerSymbol := e];
    var text := c.stringify(curr);
    assert text != "" && c.parse(text) == Some(curr);
  }

  /** Upserting the same entry twice leaves the storage as one upsert does. */
  lemma UpsertIdempotent(c: Codec, st: Storage, e: RegistryEntry)
    requires RoundTrips(c) && st.usable
    ensures var once := UpsertRegistry(c, st, e).value;
            UpsertRegistry(c, once, e) == Success(once)
  {
    var once := UpsertRegistry(c, st, e).value;
    LoadAfterUpsert(c, st, e);
    var m := LoadRegistry(c, st);
    assert m[e.brokerSymbol := e][e.brokerSymbol := e] == m[e.brokerSymbol := e];
    assert once.items[LsKey := c.stringify(m[e.brokerSymbol := e])] == once.items;
  }

  /** A later upsert for the same broker symbol replaces the earlier entry. */
  lemma UpsertOverwrites(c: Codec, st: Storage, e1: RegistryEntry, e2: RegistryEntry)
    requires RoundTrips(c) && st.usable && e1.brokerSymbol == e2.brokerSymbol
    ensures var st' := UpsertRegistry(c, UpsertRegistry(c, st, e1).value, e2).value;
            LoadRegistry(c, st') == LoadRegistry(c, st)[e2.brokerSymbol := e2]
  {
    var mid := UpsertRegistry(c, st, e1).value;
    LoadAfterUpsert(c, st, e1);
    LoadAfterUpsert(c, mid, e2);
    var m := LoadRegistry(c, st);
    assert m[e1.brokerSymbol := e1][e2.brokerSymbol := e2] == m[e2.brokerSymbol := e2];
  }
}
