/**
 The client's values (src/value.rs).

 A `Value` is a value as the client holds it: a hash map is the list of its entries in the order
 the map happens to iterate.  Its `Meaning` is a `Datum`, in which that order is forgotten, so two
 hash maps have the same meaning exactly when they are equal as maps.  Floats are bit patterns.
 */
module Values {
  import opened Bytes

  /** What Rust's str::from_utf8 accepts. */
  predicate ValidUtf8(s: bytes)
  {
    if s == [] then true
    else
      var a := s[0];
      if a < 0x80 then ValidUtf8(s[1..])
      else if 0xc2 <= a <= 0xdf then |s| >= 2 && Continues(s[1]) && ValidUtf8(s[2..])
      else if 0xe0 <= a <= 0xef then
        && |s| >= 3 && Continues(s[1]) && Continues(s[2])
        && (a == 0xe0 ==> s[1] >= 0xa0) && (a == 0xed ==> s[1] <= 0x9f)
        && ValidUtf8(s[3..])
      else if 0xf0 <= a <= 0xf4 then
        && |s| >= 4 && Continues(s[1]) && Continues(s[2]) && Continues(s[3])
        && (a == 0xf0 ==> s[1] >= 0x90) && (a == 0xf4 ==> s[1] <= 0x8f)
        && ValidUtf8(s[4..])
      else false
  }

  predicate Continues(b: byte)
  {
    0x80 <= b <= 0xbf
  }

  type Utf8 = s: bytes | ValidUtf8(s) witness []

  datatype Scalar =
    | Nil
    | Bool(b: bool)
    | Int(i: i64)
    | UInt(u: u64)
    | F32(bits32: u32)
    | F64(bits64: u64)
    | Str(s: Utf8)
    | Blob(blob: bytes)
    | GeoJSON(json: Utf8)
    | HLL(sketch: bytes)

  datatype Entry = Entry(key: Value, value: Value)

  datatype Value =
    | Atom(a: Scalar)
    | List(items: seq<Value>)
    | HashMap(entries: seq<Entry>)

  /** A value up to the iteration order of its hash maps. */
  datatype Datum =
    | DAtom(a: Scalar)
    | DList(items: seq<Datum>)
    | DMap(m: map<Datum, Datum>)

  // ---------------------------------------------------------------------------------------------
  // What the wire keeps of a value

  predicate IsNaN32(bits: u32)
  {
    bits % 0x8000_0000 > 0x7f80_0000
  }

  predicate IsNaN64(bits: u64)
  {
    bits % 0x8000_0000_0000_0000 > 0x7ff0_0000_0000_0000
  }

  const NAN32: u32 := 0x7fc0_0000
  const NAN64: u64 := 0x7ff8_0000_0000_0000

  /** FloatValue::from gives every NaN the same bit pattern. */
  function Canonical32(bits: u32): u32
  {
    if IsNaN32(bits) then NAN32 else bits
  }

  function Canonical64(bits: u64): u64
  {
    if IsNaN64(bits) then NAN64 else bits
  }

  /** The scalar that comes back when `a` is packed inside a list or a map. */
  function ScalarReadBack(a: Scalar): Scalar
  {
    match a
    case UInt(u) => if u < 0x8000_0000_0000_0000 then Int(u) else a
    case F32(bits) => F32(Canonical32(bits))
    case F64(bits) => F64(Canonical64(bits))
    case HLL(h) => Blob(h)
    case _ => a
  }

  predicate NormalScalar(a: Scalar)
  {
    match a
    case UInt(u) => u >= 0x8000_0000_0000_0000
    case F32(bits) => IsNaN32(bits) ==> bits == NAN32
    case F64(bits) => IsNaN64(bits) ==> bits == NAN64
    case HLL(_) => false
    case _ => true
  }

  lemma ScalarReadBackIsNormal(a: Scalar)
    ensures NormalScalar(ScalarReadBack(a))
    ensures ScalarReadBack(a) == a <==> NormalScalar(a)
  {
  }

  /** The datum of `v`, with each scalar as it is or, `onWire`, as it comes back. */
  function View(v: Value, onWire: bool): Datum
  {
    match v
    case Atom(a) => DAtom(if onWire then ScalarReadBack(a) else a)
    case List(items) => DList(ViewItems(items, onWire))
    case HashMap(entries) => DMap(Insert(map[], entries, onWire))
  }

  function ViewItems(items: seq<Value>, onWire: bool): (ds: seq<Datum>)
    ensures |ds| == |items|
  {
    if items == [] then [] else [View(items[0], onWire)] + ViewItems(items[1..], onWire)
  }

  /** `m` after the entries have been inserted one by one. */
  function Insert(m: map<Datum, Datum>, entries: seq<Entry>, onWire: bool): map<Datum, Datum>
    decreases entries
  {
    if entries == [] then m
    else
      var e := entries[0];
      assert entries decreases to e;
      Insert(m[View(e.key, onWire) := View(e.value, onWire)], entries[1..], onWire)
  }

  function Meaning(v: Value): Datum
  {
    View(v, false)
  }

  function ReadBack(v: Value): Datum
  {
    View(v, true)
  }

  /** Hashing such a datum panics, so it is no map key. */
  predicate HoldsMap(d: Datum)
  {
    match d
    case DAtom(_) => false
    case DList(items) => exists i :: 0 <= i < |items| && HoldsMap(items[i])
    case DMap(_) => true
  }

  predicate MapFree(v: Value)
  {
    match v
    case Atom(_) => true
    case List(items) => forall i :: 0 <= i < |items| ==> MapFree(items[i])
    case HashMap(_) => false
  }

  /** What the type HashMap guarantees: keys were hashed, so none holds a map, and no two are equal. */
  predicate Valid(v: Value)
  {
    match v
    case Atom(_) => true
    case List(items) => forall i :: 0 <= i < |items| ==> Valid(items[i])
    case HashMap(entries) =>
      && (forall i :: 0 <= i < |entries| ==> MapFree(entries[i].key))
      && (forall i :: 0 <= i < |entries| ==> Valid(entries[i].key) && Valid(entries[i].value))
      && (forall i, j :: 0 <= i < j < |entries| ==> Meaning(entries[i].key) != Meaning(entries[j].key))
  }

  /** No scalar in `v` is one that the wire changes. */
  predicate NormalForm(v: Value)
  {
    match v
    case Atom(a) => NormalScalar(a)
    case List(items) => forall i :: 0 <= i < |items| ==> NormalForm(items[i])
    case HashMap(entries) =>
      forall i :: 0 <= i < |entries| ==> NormalForm(entries[i].key) && NormalForm(entries[i].value)
  }

  predicate NormalDatum(d: Datum)
  {
    match d
    case DAtom(a) => NormalScalar(a)
    case DList(items) => forall i :: 0 <= i < |items| ==> NormalDatum(items[i])
    case DMap(m) => forall k :: k in m ==> NormalDatum(k) && NormalDatum(m[k])
  }

  lemma {:induction false} ViewItemsAt(items: seq<Value>, onWire: bool, i: nat)
    requires i < |items|
    ensures ViewItems(items, onWire)[i] == View(items[i], onWire)
  {
    if i > 0 {
      ViewItemsAt(items[1..], onWire, i - 1);
    }
  }

  lemma {:induction false} MapFreeView(v: Value, onWire: bool)
    requires MapFree(v)
    ensures !HoldsMap(View(v, onWire))
  {
    match v
    case Atom(_) =>
    case List(items) =>
      forall i | 0 <= i < |items| ensures !HoldsMap(ViewItems(items, onWire)[i]) {
        ViewItemsAt(items, onWire, i);
        MapFreeView(items[i], onWire);
      }
    case HashMap(_) =>
  }

  lemma {:induction false} ReadBackIsNormal(v: Value)
    ensures NormalDatum(ReadBack(v))
  {
    match v
    case Atom(a) => ScalarReadBackIsNormal(a);
    case List(items) =>
      forall i | 0 <= i < |items| ensures NormalDatum(ViewItems(items, true)[i]) {
        ViewItemsAt(items, true, i);
        ReadBackIsNormal(items[i]);
      }
    case HashMap(entries) =>
      InsertedIsNormal(map[], entries);
  }

  lemma {:induction false} InsertedIsNormal(m: map<Datum, Datum>, entries: seq<Entry>)
    requires NormalDatum(DMap(m))
    ensures NormalDatum(DMap(Insert(m, entries, true)))
    decreases entries
  {
    if entries != [] {
      var e := entries[0];
      assert entries decreases to e;
      ReadBackIsNormal(e.key);
      ReadBackIsNormal(e.value);
      InsertedIsNormal(m[ReadBack(e.key) := ReadBack(e.value)], entries[1..]);
    }
  }

  lemma {:induction false} NormalFormViews(v: Value)
    requires NormalForm(v)
    ensures ReadBack(v) == Meaning(v)
  {
    match v
    case Atom(a) => ScalarReadBackIsNormal(a);
    case List(items) =>
      forall i | 0 <= i < |items| ensures ViewItems(items, true)[i] == ViewItems(items, false)[i] {
        ViewItemsAt(items, true, i);
        ViewItemsAt(items, false, i);
        NormalFormViews(items[i]);
      }
      assert ViewItems(items, true) == ViewItems(items, false);
    case HashMap(entries) =>
      NormalFormInserts(map[], entries);
  }

  lemma {:induction false} NormalFormInserts(m: map<Datum, Datum>, entries: seq<Entry>)
    requires forall i :: 0 <= i < |entries| ==> NormalForm(entries[i].key) && NormalForm(entries[i].value)
    ensures Insert(m, entries, true) == Insert(m, entries, false)
    decreases entries
  {
    if entries != [] {
      var e := entries[0];
      assert entries decreases to e;
      NormalFormViews(e.key);
      NormalFormViews(e.value);
      NormalFormInserts(m[Meaning(e.key) := Meaning(e.value)], entries[1..]);
    }
  }

  /** Inserting entries with distinct new keys adds exactly these entries. */
  lemma {:induction false} InsertLooksUp(m: map<Datum, Datum>, entries: seq<Entry>, d: Datum)
    requires forall i, j :: 0 <= i < j < |entries| ==> Meaning(entries[i].key) != Meaning(entries[j].key)
    ensures var r := Insert(m, entries, false);
            && (forall i :: 0 <= i < |entries| ==>
                  (Meaning(entries[i].key) in r && r[Meaning(entries[i].key)] == Meaning(entries[i].value)))
            && ((forall i :: 0 <= i < |entries| ==> Meaning(entries[i].key) != d) ==>
                  ((d in r <==> d in m) && (d in m ==> r[d] == m[d])))
    decreases entries
  {
    if entries != [] {
      var e := entries[0];
      var m' := m[Meaning(e.key) := Meaning(e.value)];
      InsertLooksUp(m', entries[1..], d);
      InsertLooksUp(m', entries[1..], Meaning(e.key));
    }
  }

  lemma {:induction false} NormalMeaning(v: Value)
    requires Valid(v) && NormalDatum(Meaning(v))
    ensures NormalForm(v)
  {
    match v
    case Atom(_) =>
    case List(items) =>
      forall i | 0 <= i < |items| ensures NormalForm(items[i]) {
        ViewItemsAt(items, false, i);
        NormalMeaning(items[i]);
      }
    case HashMap(entries) =>
      InsertLooksUp(map[], entries, Meaning(v));
      forall i | 0 <= i < |entries| ensures NormalForm(entries[i].key) && NormalForm(entries[i].value) {
        NormalMeaning(entries[i].key);
        NormalMeaning(entries[i].value);
      }
  }

  /** Exactly the values in normal form come back with the meaning they had. */
  lemma ReadBackIsExact(v: Value)
    requires Valid(v)
    ensures ReadBack(v) == Meaning(v) <==> NormalForm(v)
  {
    if NormalForm(v) {
      NormalFormViews(v);
    }
    if ReadBack(v) == Meaning(v) {
      ReadBackIsNormal(v);
      NormalMeaning(v);
    }
  }
}
