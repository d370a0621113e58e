/** The strength step: the list of strength entries with add, remove and
    per-field update. */
module MedicationStrengthStep {
  import opened Base
  import opened Text
  import opened MedicationTypes

  /** The ids of a list of entries, in order. */
  function Ids(strengths: seq<StrengthEntry>): (r: seq<string>)
    ensures |r| == |strengths|
    ensures forall i :: 0 <= i < |r| ==> r[i] == strengths[i].id
  {
    if strengths == [] then [] else [strengths[0].id] + Ids(strengths[1..])
  }

  /** "Add another strength": a new entry with a fresh id, a blank value and the
      unit "mg" at the end. */
  function AddStrength(strengths: seq<StrengthEntry>, freshId: string): (r: seq<StrengthEntry>)
    ensures |r| == |strengths| + 1
    ensures r[..|strengths|] == strengths
    ensures r[|strengths|] == StrengthEntry(freshId, "", "mg")
  {
    strengths + [StrengthEntry(freshId, "", "mg")]
  }

  /** The new entry is blank, so adding it changes neither what is saved nor
      what the later steps offer. */
  lemma AddStrengthKeepsValid(strengths: seq<StrengthEntry>, freshId: string)
    ensures ValidStrengths(AddStrength(strengths, freshId)) == ValidStrengths(strengths)
  {
    var e := StrengthEntry(freshId, "", "mg");
    ValidStrengthsAppend(strengths, [e]);
    assert IsBlank(e.value);
    assert [e][1..] == [];
  }

  /** `strengths.filter(s => s.id !== id)` */
  function RemoveId(strengths: seq<StrengthEntry>, id: string): (r: seq<StrengthEntry>)
    ensures |r| <= |strengths|
    ensures forall e :: e in r <==> e in strengths && e.id != id
  {
    if strengths == [] then []
    else if strengths[0].id == id then RemoveId(strengths[1..], id)
    else [strengths[0]] + RemoveId(strengths[1..], id)
  }

  /** Filtering distributes over concatenation, so the entries kept stay in
      their order. */
  lemma {:induction false} RemoveIdAppend(xs: seq<StrengthEntry>, ys: seq<StrengthEntry>, id: string)
    ensures RemoveId(xs + ys, id) == RemoveId(xs, id) + RemoveId(ys, id)
  {
    if xs == [] {
      assert xs + ys == ys;
    } else {
      assert (xs + ys)[1..] == xs[1..] + ys;
      RemoveIdAppend(xs[1..], ys, id);
    }
  }

  /** The remove button: drops the entries with that id, but only while more
      than one entry is left. */
  function RemoveStrength(strengths: seq<StrengthEntry>, id: string): (r: seq<StrengthEntry>)
    ensures |strengths| <= 1 ==> r == strengths
    ensures |strengths| > 1 ==> r == RemoveId(strengths, id)
  {
    if |strengths| > 1 then RemoveId(strengths, id) else strengths
  }

  /** Removing an id that is not there changes nothing. */
  lemma {:induction false} RemoveIdAbsent(strengths: seq<StrengthEntry>, id: string)
    requires id !in Ids(strengths)
    ensures RemoveId(strengths, id) == strengths
  {
    if strengths != [] {
      assert Ids(strengths[1..]) == Ids(strengths)[1..];
      RemoveIdAbsent(strengths[1..], id);
      assert strengths == [strengths[0]] + strengths[1..];
    }
  }

  /** With unique ids, removing a present id drops exactly one entry. */
  lemma {:induction false} RemoveIdUnique(strengths: seq<StrengthEntry>, id: string)
    requires UniqueIds(strengths) && id in Ids(strengths)
    ensures |RemoveId(strengths, id)| == |strengths| - 1
  {
    assert Ids(strengths[1..]) == Ids(strengths)[1..];
    if strengths[0].id == id {
      assert id !in Ids(strengths[1..]) by {
        forall k | 0 <= k < |strengths| - 1 ensures Ids(strengths[1..])[k] != id {
          assert strengths[k + 1].id != strengths[0].id;
        }
      }
      RemoveIdAbsent(strengths[1..], id);
    } else {
      assert id in Ids(strengths[1..]) by {
        var k :| 0 <= k < |strengths| && Ids(strengths)[k] == id;
        assert k != 0;
      }
      RemoveIdUnique(strengths[1..], id);
    }
  }

  /** With unique ids the remove button never empties a non-empty list, and it
      shortens the list by one exactly when the id is there. */
  lemma RemoveStrengthNeverEmpties(strengths: seq<StrengthEntry>, id: string)
    requires UniqueIds(strengths) && strengths != []
    ensures RemoveStrength(strengths, id) != []
    ensures |strengths| > 1 && id in Ids(strengths) ==>
      |RemoveStrength(strengths, id)| == |strengths| - 1
    ensures id !in Ids(strengths) ==> RemoveStrength(strengths, id) == strengths
  {
    if id in Ids(strengths) {
      RemoveIdUnique(strengths, id);
    } else {
      RemoveIdAbsent(strengths, id);
    }
  }

  /** Which field of an entry an edit writes. */
  datatype StrengthField = ValueField | UnitField

  /** `strengths.map(s => s.id === id ? { ...s, [field]: newValue } : s)` */
  function UpdateStrength(strengths: seq<StrengthEntry>, id: string, field: StrengthField, newValue: string): (r: seq<StrengthEntry>)
    ensures |r| == |strengths|
    ensures forall i :: 0 <= i < |r| ==>
      r[i] == if strengths[i].id != id then strengths[i]
              else if field == ValueField then strengths[i].(value := newValue)
              else strengths[i].(unit := newValue)
  {
    if strengths == [] then []
    else
      var s := strengths[0];
      var head := if s.id != id then s
                  else if field == ValueField then s.(value := newValue)
                  else s.(unit := newValue);
      [head] + UpdateStrength(strengths[1..], id, field, newValue)
  }

  /** An edit keeps every id in place, so it keeps them unique. */
  lemma UpdateStrengthKeepsIds(strengths: seq<StrengthEntry>, id: string, field: StrengthField, newValue: string)
    ensures Ids(UpdateStrength(strengths, id, field, newValue)) == Ids(strengths)
    ensures UniqueIds(strengths) ==> UniqueIds(UpdateStrength(strengths, id, field, newValue))
  {
    var r := UpdateStrength(strengths, id, field, newValue);
    assert forall i :: 0 <= i < |r| ==> r[i].id == strengths[i].id;
  }

  /** Adding with an id not yet used keeps ids unique; removing keeps them
      unique as well. */
  lemma AddRemoveKeepUniqueIds(strengths: seq<StrengthEntry>, freshId: string, id: string)
    requires UniqueIds(strengths)
    ensures freshId !in Ids(strengths) ==> UniqueIds(AddStrength(strengths, freshId))
    ensures UniqueIds(RemoveStrength(strengths, id))
  {
    if freshId !in Ids(strengths) {
      var r := AddStrength(strengths, freshId);
      forall i, j | 0 <= i < j < |r| ensures r[i].id != r[j].id {
        if j == |strengths| {
          assert Ids(strengths)[i] == r[i].id;
        }
      }
    }
    RemoveIdKeepsUnique(strengths, id);
  }

  /** Filtering keeps unique ids unique. */
  lemma {:induction false} RemoveIdKeepsUnique(strengths: seq<StrengthEntry>, id: string)
    requires UniqueIds(strengths)
    ensures UniqueIds(RemoveId(strengths, id))
  {
    if strengths != [] {
      var tail := strengths[1..];
      RemoveIdKeepsUnique(tail, id);
      var rest := RemoveId(tail, id);
      if strengths[0].id != id {
        var r := [strengths[0]] + rest;
        forall j | 0 < j < |r| ensures r[0].id != r[j].id {
          assert rest[j - 1] in rest;
          var k :| 0 <= k < |tail| && tail[k] == rest[j - 1];
          assert strengths[k + 1] == tail[k];
        }
        assert UniqueIds(r) by {
          forall i, j | 0 <= i < j < |r| ensures r[i].id != r[j].id {
            if i > 0 {
              assert r[i] == rest[i - 1] && r[j] == rest[j - 1];
            }
          }
        }
      }
    }
  }

  /** The remove control next to each entry is shown only when there are at
      least two entries. */
  function ShowRemoveStrength(strengths: seq<StrengthEntry>): (b: bool)
    ensures b ==> forall id :: RemoveStrength(strengths, id) == RemoveId(strengths, id)
    ensures !b ==> forall id :: RemoveStrength(strengths, id) == strengths
  {
    |strengths| > 1
  }
}
