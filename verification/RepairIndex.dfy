// Fast lookups of the repair journal: the index of objects by ID (repair_object_index.go) and the
// key map that links foreign keys to the key they reference (repair_preparation.go).
module RepairIndex {
  import opened Wrappers
  import opened Encoding

  type Text = seq<Byte>

  datatype Key = Key(unique: bool, columns: seq<Text>)
  datatype Reference = Reference(table: Text, columns: seq<Text>)
  datatype Object = Object(id: Text, table: Text, key: Option<Key>, foreignKey: Option<Reference>,
      dependencies: seq<Text>)

  // ---- The object index ----

  // The slow scan: the first position that carries the ID, or -1.
  function First(objects: seq<Object>, id: Text): (r: int)
    ensures -1 <= r < |objects|
    ensures r >= 0 ==> objects[r].id == id
    ensures forall i :: 0 <= i < (if r < 0 then |objects| else r) ==> objects[i].id != id
  {
    if objects == [] then -1
    else if objects[0].id == id then 0
    else var r := First(objects[1..], id); if r < 0 then -1 else r + 1
  }

  lemma FirstIs(objects: seq<Object>, id: Text, r: int)
    requires -1 <= r < |objects| && (r >= 0 ==> objects[r].id == id)
    requires forall i :: 0 <= i < (if r < 0 then |objects| else r) ==> objects[i].id != id
    ensures r == First(objects, id)
  {}

  lemma FirstDependsOnIds(a: seq<Object>, b: seq<Object>, id: Text)
    requires |a| == |b| && forall i :: 0 <= i < |a| ==> a[i].id == b[i].id
    ensures First(a, id) == First(b, id)
  {
    FirstIs(a, id, First(b, id));
  }

  function Get(index: map<Text, int>, id: Text): int { if id in index then index[id] else -1 }

  ghost predicate Indexes(index: map<Text, int>, objects: seq<Object>) {
    forall id :: Get(index, id) == First(objects, id) && (id in index ==> index[id] >= 0)
  }

  // An ID that the index answers with something other than its first position, unnoticed.
  ghost predicate Misleads(index: map<Text, int>, objects: seq<Object>, id: Text) {
    if id in index then 0 <= index[id] < |objects| && objects[index[id]].id == id && index[id] != First(objects, id)
    else First(objects, id) >= 0
  }

  lemma IndexSnoc(index: map<Text, int>, objects: seq<Object>, o: Object)
    requires Indexes(index, objects)
    ensures Indexes(if o.id in index then index else index[o.id := |objects|], objects + [o])
  {
    var grown := if o.id in index then index else index[o.id := |objects|];
    forall id ensures Get(grown, id) == First(objects + [o], id) {
      assert Get(index, id) == First(objects, id);
      FirstIs(objects + [o], id, Get(grown, id));
    }
  }

  lemma IndexNext(index: map<Text, int>, objects: seq<Object>, i: nat)
    requires i < |objects| && Indexes(index, objects[..i])
    ensures Indexes(if objects[i].id in index then index else index[objects[i].id := i], objects[..i + 1])
  {
    IndexSnoc(index, objects[..i], objects[i]);
    assert objects[..i + 1] == objects[..i] + [objects[i]];
  }

  // A slice replaced at equal length without a rebuild can hide an object that is there.
  lemma StaleIndexMisleads(a: Object, b: Object)
    requires a.id != b.id
    ensures Indexes(map[a.id := 0], [a]) && Misleads(map[a.id := 0], [b], b.id)
    ensures !Misleads(map[a.id := 0], [b], a.id)
  {
    forall id ensures Get(map[a.id := 0], id) == First([a], id) {
      FirstIs([a], id, if id == a.id then 0 else -1);
    }
  }

  class Recorder {
    var objects: seq<Object>
    var objectIndex: Option<map<Text, int>>
    var indexedObjectCount: nat

    // The index answers for a prefix of the objects; later ones were appended behind its back.
    ghost predicate Valid() reads this {
      objectIndex.Some? ==> indexedObjectCount <= |objects| && Indexes(objectIndex.value, objects[..indexedObjectCount])
    }

    constructor ()
      ensures Valid() && objects == []
    {
      objects, objectIndex, indexedObjectCount := [], None, 0;
    }

    ghost predicate Current() reads this {
      objectIndex.Some? && indexedObjectCount == |objects| && Indexes(objectIndex.value, objects)
    }

    lemma CurrentIsValid()
      requires Current()
      ensures Valid()
    {
      assert objects[..indexedObjectCount] == objects;
    }

    method RebuildObjectIndex()
      modifies this`objectIndex, this`indexedObjectCount
      ensures Current() && Valid()
    {
      var index := map[];
      for i := 0 to |objects|
        invariant Indexes(index, objects[..i])
      {
        IndexNext(index, objects, i);
        if objects[i].id !in index { index := index[objects[i].id := i]; }
      }
      assert objects[..|objects|] == objects;
      objectIndex, indexedObjectCount := Some(index), |objects|;
    }

    // The first object with the ID, after any history that kept Valid. For a slice rearranged without
    // a rebuild the answer is still the first one, unless the index misleads about this very ID.
    method ObjectPosition(id: Text) returns (r: int)
      modifies this`objectIndex, this`indexedObjectCount
      ensures old(Valid()) ==> Current() && Valid() && r == First(objects, id)
      ensures r == First(objects, id) <==>
              !old(objectIndex.Some? && indexedObjectCount == |objects| && Misleads(objectIndex.value, objects, id))
      ensures r >= 0 ==> r < |objects| && objects[r].id == id
    {
      assert objects[..|objects|] == objects;
      if objectIndex.None? || indexedObjectCount != |objects| { RebuildObjectIndex(); }
      assert old(Valid()) ==> Current();
      if Current() { CurrentIsValid(); assert Get(objectIndex.value, id) == First(objects, id); }
      if id !in objectIndex.value { return -1; }
      r := objectIndex.value[id];
      if r < 0 || r >= |objects| || objects[r].id != id {
        RebuildObjectIndex();
        assert Get(objectIndex.value, id) == First(objects, id);
        if id !in objectIndex.value { return -1; }
        r := objectIndex.value[id];
      }
    }

    method AppendObject(o: Object) returns (i: int)
      requires Valid()
      modifies this
      ensures Current() && Valid()
      ensures objects == old(objects) + [o] && i == |old(objects)|
    {
      assert objects[..|objects|] == objects;
      if objectIndex.None? || indexedObjectCount != |objects| { RebuildObjectIndex(); }
      i := |objects|;
      IndexSnoc(objectIndex.value, objects, o);
      objects := objects + [o];
      if o.id !in objectIndex.value { objectIndex := Some(objectIndex.value[o.id := i]); }
      indexedObjectCount := |objects|;
      CurrentIsValid();
    }

    // Code that grows the slice without telling the index.
    method AppendRaw(more: seq<Object>)
      requires Valid()
      modifies this`objects
      ensures Valid() && objects == old(objects) + more
    {
      objects := objects + more;
      assert objectIndex.Some? ==> objects[..indexedObjectCount] == old(objects[..indexedObjectCount]);
    }

    // Code that changes an object in place but leaves its ID.
    method Update(i: nat, o: Object)
      requires Valid() && i < |objects| && o.id == objects[i].id
      modifies this`objects
      ensures Valid() && objects == old(objects)[i := o]
    {
      objects := objects[i := o];
      if objectIndex.Some? {
        var was, now := old(objects[..indexedObjectCount]), objects[..indexedObjectCount];
        forall id ensures Get(objectIndex.value, id) == First(now, id) {
          assert Get(objectIndex.value, id) == First(was, id);
          FirstDependsOnIds(was, now, id);
        }
      }
    }

    // Filtering and replacement: the owner rebuilds at once.
    method Replace(kept: seq<Object>)
      modifies this
      ensures Valid() && objects == kept
    {
      objects := kept;
      RebuildObjectIndex();
    }
  }

  // ---- Linking foreign keys ----

  function Signature(columns: seq<Text>): Text {
    if columns == [] then [] else Field(Numeral(|columns[0]|, 10), 58, columns[0] + Signature(columns[1..]))
  }

  lemma {:induction false} SignatureSnoc(columns: seq<Text>, c: Text)
    ensures Signature(columns + [c]) == Signature(columns) + Field(Numeral(|c|, 10), 58, c)
  {
    if columns == [] {
      assert [c][1..] == [];
      assert c + Signature([]) == c;
    } else {
      SignatureSnoc(columns[1..], c);
      assert (columns + [c])[1..] == columns[1..] + [c];
      var d, rest, last := columns[0], Signature(columns[1..]), Field(Numeral(|c|, 10), 58, c);
      assert d + (rest + last) == (d + rest) + last;
      assert Field(Numeral(|d|, 10), 58, (d + rest) + last) == Field(Numeral(|d|, 10), 58, d + rest) + last;
    }
  }

  lemma {:induction false} SignatureInjective(a: seq<Text>, b: seq<Text>)
    requires Signature(a) == Signature(b)
    ensures a == b
  {
    assert forall s: Text, rest: Text :: |Field(s, 58, rest)| > 0;
    if a != [] && b != [] {
      var x, y := a[0] + Signature(a[1..]), b[0] + Signature(b[1..]);
      FieldEnds(Numeral(|a[0]|, 10), x, Numeral(|b[0]|, 10), y, 58);
      NumeralInjective(|a[0]|, |b[0]|, 10);
      assert a[0] == x[..|a[0]|] && b[0] == y[..|b[0]|];
      assert Signature(a[1..]) == x[|a[0]|..] && Signature(b[1..]) == y[|b[0]|..];
      SignatureInjective(a[1..], b[1..]);
    }
  }

  datatype ReferenceKey = ReferenceKey(table: Text, columns: Text)

  method RepairReference(table: Text, columns: seq<Text>) returns (key: ReferenceKey)
    ensures key == ReferenceKey(table, Signature(columns))
  {
    var signature: Text := [];
    for i := 0 to |columns|
      invariant signature == Signature(columns[..i])
    {
      SignatureSnoc(columns[..i], columns[i]);
      assert columns[..i + 1] == columns[..i] + [columns[i]];
      signature := signature + Numeral(|columns[i]|, 10) + [58] + columns[i];
    }
    assert columns[..|columns|] == columns;
    key := ReferenceKey(table, signature);
  }

  predicate Offers(o: Object, table: Text, columns: seq<Text>) {
    o.key.Some? && o.key.value.unique && o.table == table && o.key.value.columns == columns
  }

  // The ordered scan: the first object that offers the referenced key.
  function FirstOffer(objects: seq<Object>, table: Text, columns: seq<Text>): Option<Text> {
    if objects == [] then None
    else if Offers(objects[0], table, columns) then Some(objects[0].id)
    else FirstOffer(objects[1..], table, columns)
  }

  lemma {:induction false} FirstOfferSnoc(objects: seq<Object>, o: Object, table: Text, columns: seq<Text>)
    ensures FirstOffer(objects + [o], table, columns) ==
            if FirstOffer(objects, table, columns).Some? then FirstOffer(objects, table, columns)
            else if Offers(o, table, columns) then Some(o.id) else None
  {
    if objects != [] {
      FirstOfferSnoc(objects[1..], o, table, columns);
      assert (objects + [o])[1..] == objects[1..] + [o];
    } else {
      assert [o][1..] == [];
    }
  }

  function Linked(objects: seq<Object>, o: Object): Object {
    if o.foreignKey.None? then o
    else
      var offer := FirstOffer(objects, o.foreignKey.value.table, o.foreignKey.value.columns);
      if offer.None? then o else o.(dependencies := o.dependencies + [offer.value])
  }

  function Find(keys: map<ReferenceKey, Text>, key: ReferenceKey): Option<Text> {
    if key in keys then Some(keys[key]) else None
  }

  ghost predicate FindsOffers(keys: map<ReferenceKey, Text>, objects: seq<Object>) {
    forall table, columns ::
      Find(keys, ReferenceKey(table, Signature(columns))) == FirstOffer(objects, table, columns)
  }

  lemma FindsSnoc(keys: map<ReferenceKey, Text>, objects: seq<Object>, o: Object, grown: map<ReferenceKey, Text>)
    requires FindsOffers(keys, objects)
    requires if o.key.None? || !o.key.value.unique then grown == keys
             else var key := ReferenceKey(o.table, Signature(o.key.value.columns));
               grown == if key in keys then keys else keys[key := o.id]
    ensures FindsOffers(grown, objects + [o])
  {
    forall table, columns
      ensures Find(grown, ReferenceKey(table, Signature(columns))) == FirstOffer(objects + [o], table, columns) {
      FirstOfferSnoc(objects, o, table, columns);
      assert Find(keys, ReferenceKey(table, Signature(columns))) == FirstOffer(objects, table, columns);
      if o.key.Some? && Signature(o.key.value.columns) == Signature(columns) {
        SignatureInjective(o.key.value.columns, columns);
      }
    }
  }

  // Every foreign key gains exactly the dependency an ordered scan of all objects would give it.
  method LinkRepairForeignKeys(objects: array<Object>)
    modifies objects
    ensures forall i :: 0 <= i < objects.Length ==> objects[i] == Linked(old(objects[..]), old(objects[i]))
  {
    ghost var was := objects[..];
    var keys: map<ReferenceKey, Text> := map[];
    for i := 0 to objects.Length
      invariant objects[..] == was && FindsOffers(keys, was[..i])
    {
      var o := objects[i];
      assert was[..i + 1] == was[..i] + [o];
      if o.key.None? || !o.key.value.unique {
        FindsSnoc(keys, was[..i], o, keys);
        continue;
      }
      var key := RepairReference(o.table, o.key.value.columns);
      FindsSnoc(keys, was[..i], o, if key in keys then keys else keys[key := o.id]);
      if key !in keys { keys := keys[key := o.id]; }
    }
    assert was[..objects.Length] == was;
    for i := 0 to objects.Length
      invariant forall j :: 0 <= j < i ==> objects[j] == Linked(was, was[j])
      invariant forall j :: i <= j < objects.Length ==> objects[j] == was[j]
    {
      var o := objects[i];
      if o.foreignKey.None? { continue; }
      var reference := o.foreignKey.value;
      var key := RepairReference(reference.table, reference.columns);
      assert Find(keys, key) == FirstOffer(was, reference.table, reference.columns);
      if key in keys { objects[i] := o.(dependencies := o.dependencies + [keys[key]]); }
    }
  }
}
