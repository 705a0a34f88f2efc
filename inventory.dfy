/**
 * The inventory builder of src/index.tsx: mergeInventories concatenates
 * pitch ranges, keeping the first occurrence of every (name, octave) pair.
 */
module Inventory {
  import opened Notes

  /** No (name, octave) pair occurs twice. */
  predicate NoDuplicates(notes: seq<Note>)
  {
    forall i, j :: 0 <= i < j < |notes| ==> notes[i] != notes[j]
  }

  /** The note x occurs at most once in `notes`. */
  predicate AtMostOnce(notes: seq<Note>, x: Note)
  {
    forall i, j :: 0 <= i < j < |notes| && notes[i] == x ==> notes[j] != x
  }

  /** The notes of `notes` that `acc` lacks, appended to `acc` in order, each once. */
  function AddNew(acc: seq<Note>, notes: seq<Note>): (r: seq<Note>)
    ensures |acc| <= |r| <= |acc| + |notes|
    decreases |notes|
  {
    if notes == [] then acc
    else
      var prev := AddNew(acc, notes[..|notes| - 1]);
      var note := notes[|notes| - 1];
      if note in prev then prev else prev + [note]
  }

  /** The merge of one or more inventories: the first in full, then what each later one adds. */
  function Merge(inventories: seq<seq<Note>>): (r: seq<Note>)
    requires |inventories| > 0
    ensures |inventories[0]| <= |r|
  {
    if |inventories| == 1 then inventories[0]
    else AddNew(Merge(inventories[..|inventories| - 1]), inventories[|inventories| - 1])
  }

  /** newInventory.some(...): is there a note with the same name and the same octave? */
  method ContainsNote(notes: seq<Note>, note: Note) returns (found: bool)
    ensures found <==> note in notes
  {
    found := false;
    var i := 0;
    while i < |notes| && !found
      invariant 0 <= i <= |notes|
      invariant found ==> note in notes
      invariant !found ==> note !in notes[..i]
    {
      found := notes[i].pitch == note.pitch && notes[i].octave == note.octave;
      i := i + 1;
    }
  }

  /**
   * mergeInventories: copy the first inventory, then push each note of every
   * later inventory that is not already present.
   */
  method MergeInventories(inventories: seq<seq<Note>>) returns (merged: seq<Note>)
    requires |inventories| > 0
    ensures merged == Merge(inventories)
    ensures |inventories[0]| <= |merged| && merged[..|inventories[0]|] == inventories[0]
    ensures forall x :: x in merged <==> exists i :: 0 <= i < |inventories| && x in inventories[i]
  {
    merged := inventories[0];
    var k := 1;
    while k < |inventories|
      invariant 1 <= k <= |inventories|
      invariant merged == Merge(inventories[..k])
    {
      var inventory := inventories[k];
      ghost var before := merged;
      var j := 0;
      while j < |inventory|
        invariant 0 <= j <= |inventory|
        invariant merged == AddNew(before, inventory[..j])
      {
        var note := inventory[j];
        var present := ContainsNote(merged, note);
        if !present {
          merged := merged + [note];
        }
        assert inventory[..j + 1][..j] == inventory[..j];
        j := j + 1;
      }
      assert inventory[..j] == inventory;
      assert inventories[..k + 1][..k] == inventories[..k];
      k := k + 1;
    }
    assert inventories[..k] == inventories;
    MergeKeepsFirst(inventories);
    forall x ensures x in merged <==> exists i :: 0 <= i < |inventories| && x in inventories[i] {
      MergeMembers(inventories, x);
    }
  }

  // ---- AddNew ----

  lemma {:induction false} AddNewExtends(acc: seq<Note>, notes: seq<Note>)
    ensures |acc| <= |AddNew(acc, notes)|
    ensures AddNew(acc, notes)[..|acc|] == acc
    decreases |notes|
  {
    if notes != [] {
      AddNewExtends(acc, notes[..|notes| - 1]);
    }
  }

  lemma {:induction false} AddNewMembers(acc: seq<Note>, notes: seq<Note>, x: Note)
    ensures x in AddNew(acc, notes) <==> x in acc || x in notes
    decreases |notes|
  {
    if notes != [] {
      var init := notes[..|notes| - 1];
      AddNewMembers(acc, init, x);
      assert notes == init + [notes[|notes| - 1]];
    }
  }

  lemma {:induction false} AddNewNoDuplicates(acc: seq<Note>, notes: seq<Note>)
    requires NoDuplicates(acc)
    ensures NoDuplicates(AddNew(acc, notes))
    decreases |notes|
  {
    if notes != [] {
      AddNewNoDuplicates(acc, notes[..|notes| - 1]);
    }
  }

  /** Adding never places a second copy of a note: one occurring at most once still does. */
  lemma {:induction false} AddNewAtMostOnce(acc: seq<Note>, notes: seq<Note>, x: Note)
    requires AtMostOnce(acc, x)
    ensures AtMostOnce(AddNew(acc, notes), x)
    decreases |notes|
  {
    if notes != [] {
      AddNewAtMostOnce(acc, notes[..|notes| - 1], x);
    }
  }

  // ---- Merge ----

  /** The first inventory is copied unchanged to the front of the result. */
  lemma {:induction false} MergeKeepsFirst(inventories: seq<seq<Note>>)
    requires |inventories| > 0
    ensures |inventories[0]| <= |Merge(inventories)|
    ensures Merge(inventories)[..|inventories[0]|] == inventories[0]
  {
    if |inventories| > 1 {
      var init := inventories[..|inventories| - 1];
      MergeKeepsFirst(init);
      AddNewExtends(Merge(init), inventories[|inventories| - 1]);
    }
  }

  /** A note is in the result exactly when it is in some input inventory. */
  lemma {:induction false} MergeMembers(inventories: seq<seq<Note>>, x: Note)
    requires |inventories| > 0
    ensures x in Merge(inventories) <==> exists i :: 0 <= i < |inventories| && x in inventories[i]
  {
    if |inventories| > 1 {
      var n := |inventories| - 1;
      var init := inventories[..n];
      MergeMembers(init, x);
      AddNewMembers(Merge(init), inventories[n], x);
      if x in Merge(inventories) && x !in inventories[n] {
        var i :| 0 <= i < |init| && x in init[i];
        assert x in inventories[i];
      }
      if exists i :: 0 <= i < |inventories| && x in inventories[i] {
        var i :| 0 <= i < |inventories| && x in inventories[i];
        if i < n {
          assert x in init[i];
        }
      }
    }
  }

  /** Merging adds no duplicates: a duplicate-free first inventory gives a duplicate-free result. */
  lemma {:induction false} MergeNoDuplicates(inventories: seq<seq<Note>>)
    requires |inventories| > 0 && NoDuplicates(inventories[0])
    ensures NoDuplicates(Merge(inventories))
  {
    if |inventories| > 1 {
      var init := inventories[..|inventories| - 1];
      MergeNoDuplicates(init);
      AddNewNoDuplicates(Merge(init), inventories[|inventories| - 1]);
    }
  }

  /** A note occurring at most once in the first inventory occurs at most once in the merge. */
  lemma {:induction false} MergeAtMostOnce(inventories: seq<seq<Note>>, x: Note)
    requires |inventories| > 0 && AtMostOnce(inventories[0], x)
    ensures AtMostOnce(Merge(inventories), x)
  {
    if |inventories| > 1 {
      var init := inventories[..|inventories| - 1];
      MergeAtMostOnce(init, x);
      AddNewAtMostOnce(Merge(init), inventories[|inventories| - 1], x);
    }
  }

  /** A single inventory is its own merge. */
  lemma MergeSingle(inventory: seq<Note>)
    ensures Merge([inventory]) == inventory
  {
  }

  /** Merging more inventories only appends: a note once placed keeps its position. */
  lemma {:induction false} MergeStable(inventories: seq<seq<Note>>, k: nat)
    requires 1 <= k <= |inventories|
    ensures |Merge(inventories[..k])| <= |Merge(inventories)|
    ensures Merge(inventories)[..|Merge(inventories[..k])|] == Merge(inventories[..k])
    decreases |inventories|
  {
    if k < |inventories| {
      var n := |inventories| - 1;
      var init := inventories[..n];
      assert init[..k] == inventories[..k];
      MergeStable(init, k);
      AddNewExtends(Merge(init), inventories[n]);
    } else {
      assert inventories[..k] == inventories;
    }
  }

  /**
   * A note of the first inventory appears in the result once, at its
   * position in the first inventory, however many later inventories hold it.
   */
  lemma MergeFirstPosition(inventories: seq<seq<Note>>, p: nat)
    requires |inventories| > 0 && NoDuplicates(inventories[0]) && p < |inventories[0]|
    ensures p < |Merge(inventories)| && Merge(inventories)[p] == inventories[0][p]
    ensures forall q :: 0 <= q < |Merge(inventories)| && Merge(inventories)[q] == inventories[0][p] ==> q == p
  {
    MergeKeepsFirst(inventories);
    MergeNoDuplicates(inventories);
    assert Merge(inventories)[p] == Merge(inventories)[..|inventories[0]|][p];
  }

  /**
   * A note whose first inventory is number i (i >= 1) is placed among the
   * notes that inventory adds: after all earlier merges, before the later ones.
   */
  lemma MergePlacesAtFirstOccurrence(inventories: seq<seq<Note>>, i: nat, x: Note)
    requires 1 <= i < |inventories| && x in inventories[i]
    requires forall h :: 0 <= h < i ==> x !in inventories[h]
    ensures |Merge(inventories[..i + 1])| <= |Merge(inventories)|
    ensures exists q :: |Merge(inventories[..i])| <= q < |Merge(inventories[..i + 1])| && Merge(inventories)[q] == x
    ensures forall q :: 0 <= q < |Merge(inventories)| && Merge(inventories)[q] == x ==>
              |Merge(inventories[..i])| <= q < |Merge(inventories[..i + 1])|
  {
    var m := Merge(inventories);
    var lo := Merge(inventories[..i]);
    var hi := Merge(inventories[..i + 1]);
    MergeStable(inventories, i);
    MergeStable(inventories, i + 1);
    MergeAtMostOnce(inventories, x);
    MergeMembers(inventories[..i], x);
    MergeMembers(inventories[..i + 1], x);
    assert inventories[..i + 1][i] == inventories[i];
    assert x !in lo;
    assert x in hi;
    var q :| 0 <= q < |hi| && hi[q] == x;
    assert m[q] == hi[q];
    assert |lo| <= q;
    forall q' | 0 <= q' < |m| && m[q'] == x
      ensures |lo| <= q' < |hi|
    {
      assert q' == q;
    }
  }

  // ---- The inventories of the app ----

  /** The notes of the bass's open E string. */
  const EStringInventory: seq<Note> :=
    [Note(E, 1), Note(F, 1), Note(G, 1), Note(A, 1), Note(B, 1), Note(C, 2), Note(D, 2)]
  /** The notes of the bass's open A string. */
  const AStringInventory: seq<Note> :=
    [Note(A, 1), Note(B, 1), Note(C, 2), Note(D, 2), Note(E, 2), Note(F, 2), Note(G, 2)]
  /** The notes of the bass's open D string. */
  const DStringInventory: seq<Note> :=
    [Note(D, 2), Note(E, 2), Note(F, 2), Note(G, 2), Note(A, 2), Note(B, 2), Note(C, 3)]
  /** The notes of the bass's open G string. */
  const GStringInventory: seq<Note> :=
    [Note(G, 2), Note(A, 2), Note(B, 2), Note(C, 3), Note(D, 3), Note(E, 3), Note(F, 3)]

  /** The app merges the E string alone: seven distinct notes, enough to always pick a different one. */
  lemma AppInventory()
    ensures Merge([EStringInventory]) == EStringInventory
    ensures |Merge([EStringInventory])| == 7
    ensures NoDuplicates(Merge([EStringInventory]))
  {
  }

  /** Notes that are all present already add nothing. */
  lemma {:induction false} AddNewAllPresent(acc: seq<Note>, notes: seq<Note>)
    requires forall x :: x in notes ==> x in acc
    ensures AddNew(acc, notes) == acc
    decreases |notes|
  {
    if notes != [] {
      AddNewAllPresent(acc, notes[..|notes| - 1]);
    }
  }

  /** Distinct notes that are all new are appended as they are. */
  lemma {:induction false} AddNewAllFresh(acc: seq<Note>, notes: seq<Note>)
    requires NoDuplicates(notes)
    requires forall x :: x in notes ==> x !in acc
    ensures AddNew(acc, notes) == acc + notes
    decreases |notes|
  {
    if notes != [] {
      var init := notes[..|notes| - 1];
      var last := notes[|notes| - 1];
      AddNewAllFresh(acc, init);
      assert last !in init;
      assert notes == init + [last];
    }
  }

  /** Walking a + b is walking a, then b. */
  lemma {:induction false} AddNewAppend(acc: seq<Note>, a: seq<Note>, b: seq<Note>)
    ensures AddNew(acc, a + b) == AddNew(AddNew(acc, a), b)
    decreases |b|
  {
    if b == [] {
      assert a + b == a;
    } else {
      var init := b[..|b| - 1];
      assert (a + b)[..|a + b| - 1] == a + init;
      assert (a + b)[|a + b| - 1] == b[|b| - 1];
      AddNewAppend(acc, a, init);
    }
  }

  /** A string range whose first four notes are present already and whose last three are new adds those three. */
  lemma AddsLastThree(acc: seq<Note>, notes: seq<Note>)
    requires |notes| == 7
    requires forall h :: 0 <= h < 4 ==> notes[h] in acc
    requires NoDuplicates(notes[4..]) && forall x :: x in notes[4..] ==> x !in acc
    ensures AddNew(acc, notes) == acc + notes[4..]
  {
    assert notes == notes[..4] + notes[4..];
    AddNewAppend(acc, notes[..4], notes[4..]);
    AddNewAllPresent(acc, notes[..4]);
    AddNewAllFresh(acc, notes[4..]);
  }

  lemma AddsAString()
    ensures AddNew(EStringInventory, AStringInventory) == EStringInventory + AStringInventory[4..]
  {
    AddsLastThree(EStringInventory, AStringInventory);
  }

  lemma AddsDString()
    ensures AddNew(EStringInventory + AStringInventory[4..], DStringInventory)
            == EStringInventory + AStringInventory[4..] + DStringInventory[4..]
  {
    var acc := EStringInventory + AStringInventory[4..];
    assert acc == [Note(E, 1), Note(F, 1), Note(G, 1), Note(A, 1), Note(B, 1), Note(C, 2), Note(D, 2),
                   Note(E, 2), Note(F, 2), Note(G, 2)];
    AddsLastThree(acc, DStringInventory);
  }

  lemma AddsGString()
    ensures AddNew(EStringInventory + AStringInventory[4..] + DStringInventory[4..], GStringInventory)
            == EStringInventory + AStringInventory[4..] + DStringInventory[4..] + GStringInventory[4..]
  {
    var acc := EStringInventory + AStringInventory[4..] + DStringInventory[4..];
    assert acc == [Note(E, 1), Note(F, 1), Note(G, 1), Note(A, 1), Note(B, 1), Note(C, 2), Note(D, 2),
                   Note(E, 2), Note(F, 2), Note(G, 2), Note(A, 2), Note(B, 2), Note(C, 3)];
    AddsLastThree(acc, GStringInventory);
  }

  /** Merging all four strings keeps 16 distinct notes: each later string adds its last three. */
  lemma AllStringsInventory()
    ensures Merge([EStringInventory, AStringInventory, DStringInventory, GStringInventory])
            == EStringInventory + AStringInventory[4..] + DStringInventory[4..] + GStringInventory[4..]
    ensures NoDuplicates(Merge([EStringInventory, AStringInventory, DStringInventory, GStringInventory]))
  {
    var all := [EStringInventory, AStringInventory, DStringInventory, GStringInventory];
    AddsAString();
    AddsDString();
    AddsGString();
    var m2 := EStringInventory + AStringInventory[4..];
    var m3 := m2 + DStringInventory[4..];
    assert all[..2][..1] == [EStringInventory];
    assert Merge(all[..2]) == m2;
    assert all[..3][..2] == all[..2];
    assert Merge(all[..3]) == m3;
    assert all[..4] == all;
    MergeNoDuplicates(all);
  }
}
