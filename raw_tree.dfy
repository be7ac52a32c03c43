/** The untyped tree a YAML loader hands to the RAML builder: scalars,
    sequences, and mappings whose keys may be any value (YAML reads `200:`
    as an integer key and `1 => {}` is a legal Ruby hash). A mapping keeps
    its entries in document order, as a Ruby Hash does. */
module RawTree {
  import opened Results

  datatype Raw =
    | Null
    | Bool(b: bool)
    | Int(i: int)
    | Str(s: string)
    | List(items: seq<Raw>)
    | Mapping(entries: seq<Entry>)

  datatype Entry = Entry(key: Raw, value: Raw)

  /** Node count of a tree; the measure the mutually recursive validators
      decrease on. */
  function Size(r: Raw): (n: nat)
    ensures n >= 1
  {
    match r
    case List(items) => 1 + ItemsSize(items)
    case Mapping(es) => 1 + EntriesSize(es)
    case _ => 1
  }

  function ItemsSize(items: seq<Raw>): nat {
    if items == [] then 0 else Size(items[0]) + ItemsSize(items[1..])
  }

  function EntriesSize(es: seq<Entry>): nat {
    if es == [] then 0 else EntrySize(es[0]) + EntriesSize(es[1..])
  }

  function EntrySize(e: Entry): nat {
    Size(e.key) + Size(e.value)
  }

  /** `hash[key]` for a string key: the value of the first entry whose key is
      the string `key`, or None when there is none. */
  function Lookup(es: seq<Entry>, key: string): (r: Option<Raw>)
    ensures r.Some? ==> Size(r.value) < EntriesSize(es)
  {
    if es == [] then None
    else if es[0].key == Str(key) then Some(es[0].value)
    else
      Lookup(es[1..], key)
  }

  /** A key is missing exactly when no entry carries it. */
  lemma {:induction false} LookupMissing(es: seq<Entry>, key: string)
    ensures Lookup(es, key).None? <==> forall i :: 0 <= i < |es| ==> es[i].key != Str(key)
  {
    if es != [] {
      LookupMissing(es[1..], key);
      assert forall i :: 1 <= i < |es| ==> es[i] == es[1..][i - 1];
    }
  }

  /** The value found is that of the first entry carrying the key. */
  lemma {:induction false} LookupFirst(es: seq<Entry>, key: string, i: nat)
    requires i < |es| && es[i].key == Str(key)
    requires forall j :: 0 <= j < i ==> es[j].key != Str(key)
    ensures Lookup(es, key) == Some(es[i].value)
  {
    if i > 0 {
      LookupFirst(es[1..], key, i - 1);
    }
  }

  /** Every value of a sequence of entries is strictly smaller than the whole. */
  lemma {:induction false} EntryValueSmaller(es: seq<Entry>, i: nat)
    requires i < |es|
    ensures Size(es[i].value) < EntriesSize(es)
  {
    if i > 0 {
      EntryValueSmaller(es[1..], i - 1);
    }
  }
}
