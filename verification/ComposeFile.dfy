/** Parsed compose files: YAML values as JavaScript reads them. */
module ComposeFile {
  import opened Basics

  /** A YAML value; Undefined is a key that is not there. */
  datatype Yaml =
    | Undefined
    | Null
    | Bool(on: bool)
    | Number(digits: string)
    | Str(text: string)
    | List(items: seq<Yaml>)
    | Object(entries: seq<Entry>)

  datatype Entry = Entry(key: string, value: Yaml)

  /** The value of `key` in a mapping with distinct keys. */
  function Lookup(entries: seq<Entry>, key: string): (r: Yaml)
    ensures r == Undefined || Entry(key, r) in entries
  {
    if entries == [] then Undefined
    else if entries[0].key == key then entries[0].value
    else Lookup(entries[1..], key)
  }

  predicate Has(entries: seq<Entry>, key: string) {
    exists e :: e in entries && e.key == key
  }

  ghost predicate DistinctKeys(entries: seq<Entry>) {
    forall i, j | 0 <= i < j < |entries| :: entries[i].key != entries[j].key
  }

  lemma InFrontOrLast(part: seq<Entry>, e: Entry)
    requires e in part
    ensures e in part[..|part| - 1] || e == part[|part| - 1]
  {
  }

  lemma {:induction false} LookupFinds(entries: seq<Entry>, e: Entry)
    requires DistinctKeys(entries) && e in entries
    ensures Lookup(entries, e.key) == e.value
  {
    if entries[0] != e {
      LookupFinds(entries[1..], e);
    }
  }

  lemma {:induction false} LookupMisses(entries: seq<Entry>, key: string)
    requires !Has(entries, key)
    ensures Lookup(entries, key) == Undefined
  {
    if entries != [] {
      assert entries[0] in entries;
      forall e | e in entries[1..] ensures e.key != key {
        assert e in entries;
      }
      LookupMisses(entries[1..], key);
    }
  }

  /** `value?.key`. */
  function Field(value: Yaml, key: string): Yaml {
    if value.Object? then Lookup(value.entries, key) else Undefined
  }

  /** `value ?? null`-style absence. */
  predicate Absent(value: Yaml) { value.Undefined? || value.Null? }

  /** `String(value)`. */
  function Text(value: Yaml): string {
    match value
    case Undefined => "undefined"
    case Null => "null"
    case Bool(on) => if on then "true" else "false"
    case Number(digits) => digits
    case Str(text) => text
    case List(items) => TextOfItems(items)
    case Object(_) => "[object Object]"
  }

  function TextOfItems(items: seq<Yaml>): string {
    if items == [] then ""
    else
      var head := if Absent(items[0]) then "" else Text(items[0]);
      if |items| == 1 then head else head + "," + TextOfItems(items[1..])
  }

  /** `JSON.stringify(value ?? null).includes('$')`: some string or key in it has a
      dollar sign. */
  predicate Interpolated(value: Yaml) {
    match value
    case Str(text) => '$' in text
    case List(items) => exists i | 0 <= i < |items| :: Interpolated(items[i])
    case Object(entries) => exists i | 0 <= i < |entries| :: '$' in entries[i].key || Interpolated(entries[i].value)
    case _ => false
  }

  function Keys(entries: seq<Entry>): (r: seq<string>)
    ensures |r| == |entries| && forall i | 0 <= i < |r| :: r[i] == entries[i].key
  {
    seq(|entries|, i requires 0 <= i < |entries| => entries[i].key)
  }
}
