/** The two column filters of get_kaldi_labels_from_alignments.py. Both walk a
    governing column and keep, from every column, the positions where the
    governing column is not the deletion marker `0`. */
module Filters {
  import opened Grammar

  /** Every kept position of `gov` is a valid index of a column of length `n`:
      what the filters need so that no `column[i]` raises. */
  predicate Covers(gov: seq<string>, n: nat)
  {
    forall i :: 0 <= i < |gov| && gov[i] != Deleted ==> i < n
  }

  /** The positions of `gov` that are not `0`, in order. */
  function KeptIndices(gov: seq<string>): seq<nat>
  {
    if gov == [] then []
    else KeptIndices(gov[..|gov| - 1]) + (if gov[|gov| - 1] != Deleted then [|gov| - 1] else [])
  }

  /** The elements of `s` at the kept positions of `gov`. */
  function Project<T>(gov: seq<string>, s: seq<T>): seq<T>
    requires Covers(gov, |s|)
  {
    if gov == [] then []
    else
      var k := |gov| - 1;
      Project(gov[..k], s) + (if gov[k] != Deleted then [s[k]] else [])
  }

  /** The kept positions are exactly the positions that are not `0`, and they
      increase strictly. */
  lemma {:induction false} KeptIndicesSpec(gov: seq<string>)
    ensures forall j :: 0 <= j < |KeptIndices(gov)| ==>
      KeptIndices(gov)[j] < |gov| && gov[KeptIndices(gov)[j]] != Deleted
    ensures forall j, j' :: 0 <= j < j' < |KeptIndices(gov)| ==> KeptIndices(gov)[j] < KeptIndices(gov)[j']
    ensures forall i :: 0 <= i < |gov| && gov[i] != Deleted ==> i in KeptIndices(gov)
  {
    if gov != [] {
      var front := gov[..|gov| - 1];
      KeptIndicesSpec(front);
      assert forall i :: 0 <= i < |front| ==> front[i] == gov[i];
    }
  }

  /** Element `j` of a projection is the element of `s` at the `j`-th kept
      position: the filters keep order and keep the columns aligned. */
  lemma {:induction false} ProjectAt<T>(gov: seq<string>, s: seq<T>)
    requires Covers(gov, |s|)
    ensures |Project(gov, s)| == |KeptIndices(gov)|
    ensures forall j :: 0 <= j < |KeptIndices(gov)| ==>
      KeptIndices(gov)[j] < |s| && Project(gov, s)[j] == s[KeptIndices(gov)[j]]
  {
    KeptIndicesSpec(gov);
    if gov != [] {
      var front := gov[..|gov| - 1];
      assert Covers(front, |s|);
      ProjectAt(front, s);
    }
  }

  /** Projecting a column by itself removes its `0` entries: the clean form. */
  lemma {:induction false} ProjectSelf(gov: seq<string>)
    ensures Covers(gov, |gov|)
    ensures Project(gov, gov) == Clean(gov)
  {
    if gov != [] {
      var front := gov[..|gov| - 1];
      ProjectSelf(front);
      ProjectAgree(front, gov, front);
    }
  }

  /** A projection reads only the kept positions of its column. */
  lemma {:induction false} ProjectAgree<T>(gov: seq<string>, s: seq<T>, t: seq<T>)
    requires Covers(gov, |s|) && Covers(gov, |t|)
    requires forall i :: 0 <= i < |gov| && i < |s| && i < |t| && gov[i] != Deleted ==> s[i] == t[i]
    ensures Project(gov, s) == Project(gov, t)
  {
    if gov != [] {
      ProjectAgree(gov[..|gov| - 1], s, t);
    }
  }

  // ---- Selections: which source position each kept element came from ----

  /** `dst` is `src` read at the positions `ks`. */
  ghost predicate Selects<T>(ks: seq<nat>, src: seq<T>, dst: seq<T>)
  {
    |ks| == |dst| && forall j :: 0 <= j < |ks| ==> ks[j] < |src| && dst[j] == src[ks[j]]
  }

  predicate Increasing(ks: seq<nat>)
  {
    forall j, j' :: 0 <= j < j' < |ks| ==> ks[j] < ks[j']
  }

  /** All positions below `n`. */
  function Upto(n: nat): (ks: seq<nat>)
    ensures |ks| == n && Increasing(ks)
    ensures forall j :: 0 <= j < n ==> ks[j] == j
  {
    seq(n, j requires 0 <= j < n => j)
  }

  /** Reading at `ks2` what was read at `ks1`. */
  function Compose(ks1: seq<nat>, ks2: seq<nat>): (ks: seq<nat>)
    requires forall j :: 0 <= j < |ks2| ==> ks2[j] < |ks1|
    ensures |ks| == |ks2|
    ensures forall j :: 0 <= j < |ks2| ==> ks[j] == ks1[ks2[j]]
  {
    seq(|ks2|, j requires 0 <= j < |ks2| => ks1[ks2[j]])
  }

  /** A projection is the increasing selection of the kept positions. */
  lemma ProjectSelects<T>(gov: seq<string>, s: seq<T>)
    requires Covers(gov, |s|)
    ensures Selects(KeptIndices(gov), s, Project(gov, s)) && Increasing(KeptIndices(gov))
  {
    ProjectAt(gov, s);
    KeptIndicesSpec(gov);
  }

  lemma UptoSelects<T>(s: seq<T>)
    ensures Selects(Upto(|s|), s, s)
  {
  }

  /** Selecting from a selection is one selection, and order is kept. */
  lemma ComposeSelects<T>(ks1: seq<nat>, ks2: seq<nat>, a: seq<T>, b: seq<T>, c: seq<T>)
    requires Selects(ks1, a, b) && Selects(ks2, b, c)
    ensures Selects(Compose(ks1, ks2), a, c)
    ensures Increasing(ks1) && Increasing(ks2) ==> Increasing(Compose(ks1, ks2))
  {
  }

  /** `remove_deletion_labels_and_times`: the labels, reference phones and
      times at the positions where the chosen raw variant is not `0`. */
  method RemoveDeletionLabelsAndTimes(transZero: seq<string>, transReffComplete: seq<string>,
                                      labels: seq<string>, startTimes: seq<string>, endTimes: seq<string>)
    returns (cleanLabels: seq<string>, cleanTransReff: seq<string>,
             cleanStartTimes: seq<string>, cleanEndTimes: seq<string>)
    requires Covers(transZero, |labels|) && Covers(transZero, |transReffComplete|)
    requires Covers(transZero, |startTimes|) && Covers(transZero, |endTimes|)
    ensures cleanLabels == Project(transZero, labels)
    ensures cleanTransReff == Project(transZero, transReffComplete)
    ensures cleanStartTimes == Project(transZero, startTimes)
    ensures cleanEndTimes == Project(transZero, endTimes)
  {
    cleanLabels, cleanTransReff, cleanStartTimes, cleanEndTimes := [], [], [], [];
    for i := 0 to |transZero|
      invariant cleanLabels == Project(transZero[..i], labels)
      invariant cleanTransReff == Project(transZero[..i], transReffComplete)
      invariant cleanStartTimes == Project(transZero[..i], startTimes)
      invariant cleanEndTimes == Project(transZero[..i], endTimes)
    {
      assert transZero[..i + 1][..i] == transZero[..i];
      if transZero[i] != Deleted {
        cleanLabels := cleanLabels + [labels[i]];
        cleanTransReff := cleanTransReff + [transReffComplete[i]];
        cleanStartTimes := cleanStartTimes + [startTimes[i]];
        cleanEndTimes := cleanEndTimes + [endTimes[i]];
      }
    }
    assert transZero[..|transZero|] == transZero;
  }

  /** `remove_0_canonic_phone`: every column at the positions where the
      reference column is not `0`; the reference column comes out clean. */
  method RemoveZeroCanonicPhone(transReffComplete: seq<string>, annotKaldi: seq<string>,
                                labels: seq<string>, startTimes: seq<string>, endTimes: seq<string>)
    returns (cleanTransReff: seq<string>, cleanAnnotKaldi: seq<string>, cleanLabels: seq<string>,
             cleanStartTimes: seq<string>, cleanEndTimes: seq<string>)
    requires Covers(transReffComplete, |annotKaldi|) && Covers(transReffComplete, |labels|)
    requires Covers(transReffComplete, |startTimes|) && Covers(transReffComplete, |endTimes|)
    ensures cleanTransReff == Clean(transReffComplete)
    ensures cleanAnnotKaldi == Project(transReffComplete, annotKaldi)
    ensures cleanLabels == Project(transReffComplete, labels)
    ensures cleanStartTimes == Project(transReffComplete, startTimes)
    ensures cleanEndTimes == Project(transReffComplete, endTimes)
  {
    cleanTransReff, cleanAnnotKaldi, cleanLabels, cleanStartTimes, cleanEndTimes := [], [], [], [], [];
    for i := 0 to |transReffComplete|
      invariant cleanTransReff == Clean(transReffComplete[..i])
      invariant cleanAnnotKaldi == Project(transReffComplete[..i], annotKaldi)
      invariant cleanLabels == Project(transReffComplete[..i], labels)
      invariant cleanStartTimes == Project(transReffComplete[..i], startTimes)
      invariant cleanEndTimes == Project(transReffComplete[..i], endTimes)
    {
      assert transReffComplete[..i + 1][..i] == transReffComplete[..i];
      var phone := transReffComplete[i];
      if phone != Deleted {
        cleanTransReff := cleanTransReff + [phone];
        cleanAnnotKaldi := cleanAnnotKaldi + [annotKaldi[i]];
        cleanLabels := cleanLabels + [labels[i]];
        cleanStartTimes := cleanStartTimes + [startTimes[i]];
        cleanEndTimes := cleanEndTimes + [endTimes[i]];
      }
    }
    assert transReffComplete[..|transReffComplete|] == transReffComplete;
  }
}
