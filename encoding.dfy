/**
 * db_encode / db_decode and the normalisation of a fetched external row
 * (array_change_key_case to lower case, then db_decode).
 *
 * PHP values that reach these functions are scalars or arrays of them, to any
 * depth. The character-set conversion itself (core_text::convert) is not part
 * of this model: it is the uninterpreted parameter `convert`.
 */
module Encoding {
  import opened Php

  /**
   * A PHP value: a database scalar or an ordered array of keyed values.
   *
   * A fetched row is kept as a list of items, not as a `Php.PArray`: the
   * driver's column names may repeat once lower-cased, which is exactly what
   * array_change_key_case has to resolve, and db_encode / db_decode recurse
   * into nested arrays, which a datatype holding its own children as a list
   * supports directly. `Assign` and `AssignKeys` are the PHP assignment on
   * this form, with the same key-order rule as `Php.Put`.
   */
  datatype Value = Leaf(cell: Cell) | Arr(items: seq<Item>)
  datatype Item = Item(key: string, val: Value)

  /** core_text::convert(text, from, to). */
  type Converter = (Cell, string, string) -> Cell

  /** The identity shortcut: the `dbencoding` setting is empty (PHP `empty`) or exactly "utf-8". */
  predicate PassThrough(dbenc: Cell) {
    !Truthy(dbenc) || dbenc == Some("utf-8")
  }

  /** Same nesting, same keys in the same order at every level; leaves may differ. */
  predicate SameShape(a: Value, b: Value)
    decreases a
  {
    match a
    case Leaf(_) => b.Leaf?
    case Arr(xs) =>
      b.Arr? && |xs| == |b.items| &&
      forall i :: 0 <= i < |xs| ==> xs[i].key == b.items[i].key && SameShape(xs[i].val, b.items[i].val)
  }

  lemma {:induction false} SameShapeReflexive(v: Value)
    ensures SameShape(v, v)
    decreases v
  {
    match v
    case Leaf(_) =>
    case Arr(xs) =>
      forall i | 0 <= i < |xs| ensures SameShape(xs[i].val, xs[i].val) {
        SameShapeReflexive(xs[i].val);
      }
  }

  /** db_encode: internal UTF-8 text to the external database's encoding. */
  function Encode(v: Value, dbenc: Cell, convert: Converter): (r: Value)
    ensures PassThrough(dbenc) ==> r == v
    ensures !PassThrough(dbenc) && v.Leaf? ==> r == Leaf(convert(v.cell, "utf-8", dbenc.value))
    ensures SameShape(v, r)
    decreases v
  {
    if PassThrough(dbenc) then SameShapeReflexive(v); v
    else match v
      case Leaf(c) => Leaf(convert(c, "utf-8", dbenc.value))
      case Arr(items) =>
        Arr(seq(|items|, i requires 0 <= i < |items| => Item(items[i].key, Encode(items[i].val, dbenc, convert))))
  }

  /** db_decode: text in the external database's encoding to internal UTF-8. */
  function Decode(v: Value, dbenc: Cell, convert: Converter): (r: Value)
    ensures PassThrough(dbenc) ==> r == v
    ensures !PassThrough(dbenc) && v.Leaf? ==> r == Leaf(convert(v.cell, dbenc.value, "utf-8"))
    ensures SameShape(v, r)
    decreases v
  {
    if PassThrough(dbenc) then SameShapeReflexive(v); v
    else match v
      case Leaf(c) => Leaf(convert(c, dbenc.value, "utf-8"))
      case Arr(items) =>
        Arr(seq(|items|, i requires 0 <= i < |items| => Item(items[i].key, Decode(items[i].val, dbenc, convert))))
  }

  /** `$a[$k]` on an array: the value under key k, if there is one. */
  function Lookup(items: seq<Item>, k: string): Option<Value> {
    if items == [] then None
    else if items[0].key == k then Some(items[0].val)
    else Lookup(items[1..], k)
  }

  function Keys(items: seq<Item>): (ks: seq<string>)
    ensures |ks| == |items| && forall i :: 0 <= i < |items| ==> ks[i] == items[i].key
  {
    if items == [] then [] else [items[0].key] + Keys(items[1..])
  }

  /** `$a[$k] = $v` on an array: an existing key is overwritten in place, a new one is appended. */
  function Assign(items: seq<Item>, k: string, v: Value): (r: seq<Item>)
    ensures Lookup(r, k) == Some(v)
    ensures forall k' :: k' != k ==> Lookup(r, k') == Lookup(items, k')
  {
    if items == [] then [Item(k, v)]
    else if items[0].key == k then [Item(k, v)] + items[1..]
    else [items[0]] + Assign(items[1..], k, v)
  }

  /** Assigning keeps the order of the keys and appends a key that is new. */
  lemma {:induction false} AssignKeys(items: seq<Item>, k: string, v: Value)
    ensures Keys(Assign(items, k, v)) == if k in Keys(items) then Keys(items) else Keys(items) + [k]
  {
    if items != [] {
      if items[0].key == k {
        assert Keys(Assign(items, k, v)) == [k] + Keys(items[1..]);
      } else {
        var h, tail := items[0].key, Keys(items[1..]);
        AssignKeys(items[1..], k, v);
        assert Keys(Assign(items, k, v)) == [h] + Keys(Assign(items[1..], k, v));
        if k !in tail {
          assert [h] + (tail + [k]) == ([h] + tail) + [k];
        }
      }
    }
  }

  /** array_change_key_case($a, CASE_LOWER): later keys that lower-case alike overwrite earlier ones. */
  function ChangeKeyCase(items: seq<Item>): (r: seq<Item>)
    ensures Distinct(Keys(r))
    ensures forall k :: k in Keys(r) ==> Lower(k) == k
  {
    if items == [] then []
    else
      var last := items[|items| - 1];
      var prev := ChangeKeyCase(items[..|items| - 1]);
      var k := Lower(last.key);
      LowerIdempotent(last.key);
      AssignKeys(prev, k, last.val);
      if k in Keys(prev) then Assign(prev, k, last.val)
      else
        DistinctSnoc(Keys(prev), k);
        Assign(prev, k, last.val)
  }

  lemma DistinctSnoc(ks: seq<string>, k: string)
    requires Distinct(ks) && k !in ks
    ensures Distinct(ks + [k])
  {
    forall i, j | 0 <= i < j < |ks + [k]| ensures (ks + [k])[i] != (ks + [k])[j] {
      if j == |ks| {
        assert (ks + [k])[i] == ks[i];
      } else {
        assert (ks + [k])[i] == ks[i] && (ks + [k])[j] == ks[j];
      }
    }
  }

  lemma LowerIdempotent(s: string)
    ensures Lower(Lower(s)) == Lower(s)
  {
  }

  /**
   * After array_change_key_case a lower-case key holds the value of the LAST
   * column whose name lower-cases to it.
   */
  lemma {:induction false} ChangeKeyCaseLastWins(items: seq<Item>, i: nat, k: string)
    requires i < |items| && Lower(items[i].key) == k
    requires forall j :: i < j < |items| ==> Lower(items[j].key) != k
    ensures Lookup(ChangeKeyCase(items), k) == Some(items[i].val)
  {
    if i < |items| - 1 {
      ChangeKeyCaseLastWins(items[..|items| - 1], i, k);
    }
  }

  /** A key that no column lower-cases to is absent after array_change_key_case. */
  lemma {:induction false} ChangeKeyCaseAbsent(items: seq<Item>, k: string)
    requires forall j :: 0 <= j < |items| ==> Lower(items[j].key) != k
    ensures Lookup(ChangeKeyCase(items), k) == None
  {
    if items != [] {
      ChangeKeyCaseAbsent(items[..|items| - 1], k);
    }
  }

  /** `$row[name]` for a field of a fetched row; an undefined index reads as null. */
  function Field(row: Value, name: string): Cell {
    if row.Arr? then
      match Lookup(row.items, name)
      case Some(Leaf(c)) => c
      case _ => None
    else None
  }

  /** The driver row as the job stores it: keys lower-cased, then db_decode. */
  function Normalize(raw: seq<Item>, dbenc: Cell, convert: Converter): Value {
    Decode(Arr(ChangeKeyCase(raw)), dbenc, convert)
  }

  lemma {:induction false} LookupDecode(items: seq<Item>, k: string, dbenc: Cell, convert: Converter)
    requires !PassThrough(dbenc)
    ensures Decode(Arr(items), dbenc, convert).Arr?
    ensures var d := Decode(Arr(items), dbenc, convert).items;
      Lookup(d, k) == (match Lookup(items, k) case None => None case Some(v) => Some(Decode(v, dbenc, convert)))
  {
    if items != [] {
      var d := Decode(Arr(items), dbenc, convert).items;
      assert d[1..] == Decode(Arr(items[1..]), dbenc, convert).items;
      LookupDecode(items[1..], k, dbenc, convert);
    }
  }

  /**
   * A field of a normalised row is the decoded value of the last column whose
   * name lower-cases to the field name; with the identity shortcut it is that
   * column's value unchanged.
   */
  lemma NormalizeField(raw: seq<Item>, i: nat, name: string, dbenc: Cell, convert: Converter)
    requires i < |raw| && Lower(raw[i].key) == name && raw[i].val.Leaf?
    requires forall j :: i < j < |raw| ==> Lower(raw[j].key) != name
    ensures PassThrough(dbenc) ==> Field(Normalize(raw, dbenc, convert), name) == raw[i].val.cell
    ensures !PassThrough(dbenc) ==>
      Field(Normalize(raw, dbenc, convert), name) == convert(raw[i].val.cell, dbenc.value, "utf-8")
  {
    ChangeKeyCaseLastWins(raw, i, name);
    if !PassThrough(dbenc) {
      LookupDecode(ChangeKeyCase(raw), name, dbenc, convert);
    }
  }

  /** A field no column of the row lower-cases to reads as null. */
  lemma NormalizeFieldAbsent(raw: seq<Item>, name: string, dbenc: Cell, convert: Converter)
    requires forall j :: 0 <= j < |raw| ==> Lower(raw[j].key) != name
    ensures Field(Normalize(raw, dbenc, convert), name) == None
  {
    ChangeKeyCaseAbsent(raw, name);
    if !PassThrough(dbenc) {
      LookupDecode(ChangeKeyCase(raw), name, dbenc, convert);
    }
  }
}
