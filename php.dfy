/**
 * The few PHP value notions the synchronisation job relies on: nullable
 * database scalars, PHP truthiness, string interpolation of null, ASCII
 * lower-casing of array keys, and PHP's ordered arrays (insertion-ordered
 * maps in which assigning to an existing key keeps its position).
 */
module Php {

  datatype Option<+T> = None | Some(value: T)

  /** A scalar as a database driver hands it to PHP: NULL or a string. */
  type Cell = Option<string>

  /** PHP truthiness of a string: "" and "0" are the only false strings. */
  predicate TruthyString(s: string) {
    s != "" && s != "0"
  }

  /** PHP truthiness of a nullable string: null is false as well. */
  predicate Truthy(c: Cell) {
    c.Some? && TruthyString(c.value)
  }

  /** What PHP interpolates into a string, or uses as an array key, for a cell: null becomes "". */
  function AsString(c: Cell): string {
    if c.Some? then c.value else ""
  }

  function LowerChar(c: char): char {
    if 'A' <= c <= 'Z' then (c as int + 32) as char else c
  }

  /** ASCII lower-casing, as array_change_key_case(CASE_LOWER) applies it to keys. */
  function Lower(s: string): (r: string)
    ensures |r| == |s|
    ensures forall i :: 0 <= i < |s| ==> r[i] == LowerChar(s[i])
  {
    seq(|s|, i requires 0 <= i < |s| => LowerChar(s[i]))
  }

  predicate Distinct<K(==)>(keys: seq<K>) {
    forall i, j :: 0 <= i < j < |keys| ==> keys[i] != keys[j]
  }

  /**
   * A PHP array with string keys: its keys in insertion order and the value
   * stored under each. Valid() is the invariant every PHP array keeps.
   */
  datatype PArray<V> = PArray(keys: seq<string>, values: map<string, V>) {

    ghost predicate Valid() {
      Distinct(keys) && (forall k :: k in values <==> k in keys)
    }

    /** The values in the order a foreach loop visits them. */
    function Entries(): (es: seq<V>)
      requires Valid()
      ensures |es| == |keys|
      ensures forall i :: 0 <= i < |keys| ==> es[i] == values[keys[i]]
    {
      seq(|keys|, i requires 0 <= i < |keys| => values[keys[i]])
    }
  }

  function EmptyArray<V>(): (a: PArray<V>)
    ensures a.Valid() && a.keys == [] && a.values == map[]
  {
    PArray([], map[])
  }

  /**
   * `$a[$k] = $v`: a new key is appended at the end, an existing key keeps
   * its position and only its value is replaced.
   */
  function Put<V>(a: PArray<V>, k: string, v: V): (r: PArray<V>)
    requires a.Valid()
    ensures r.Valid()
    ensures r.values == a.values[k := v]
    ensures k in a.values ==> r.keys == a.keys
    ensures k !in a.values ==> r.keys == a.keys + [k]
  {
    if k in a.values then PArray(a.keys, a.values[k := v]) else PArray(a.keys + [k], a.values[k := v])
  }
}
