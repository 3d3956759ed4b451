/** Matching the aligner's phones against the grammar's variants: the
    silence and stress filter of lines 241-256 and the best-variant search of
    lines 262-270 of get_kaldi_labels_from_alignments.py. */
module Matching {
  import opened Grammar

  /** Aligner phones that stand for no spoken phone. */
  const Silences: set<string> := {"sil", "[key]", "sp", "", "SIL", "[KEY]", "SP"}

  /** Final characters read as a stress marker. */
  const StressDigits: set<char> := {'1', '0', '2'}

  /** A phone without its final stress digit, if it has one. */
  function StripMarker(phone: string): (r: string)
    requires phone != ""
    ensures r == phone || (r + [phone[|phone| - 1]] == phone && phone[|phone| - 1] in StressDigits)
    ensures phone[|phone| - 1] !in StressDigits ==> r == phone
    ensures phone[|phone| - 1] in StressDigits ==> r == phone[..|phone| - 1]
  {
    if phone[|phone| - 1] in StressDigits then phone[..|phone| - 1] else phone
  }

  /** The observed phones: the non-silence phones, in order, each without its
      stress digit. */
  function Observed(phones: seq<string>): seq<string>
  {
    if phones == [] then []
    else
      var last := phones[|phones| - 1];
      Observed(phones[..|phones| - 1]) + Contribution(last)
  }

  /** What one aligner phone adds to the observed phones. */
  function Contribution(phone: string): seq<string>
  {
    if phone in Silences then [] else [StripMarker(phone)]
  }

  lemma {:induction false} ObservedAppend(a: seq<string>, b: seq<string>)
    ensures Observed(a + b) == Observed(a) + Observed(b)
  {
    if b == [] {
      assert a + b == a;
    } else {
      assert (a + b)[..|a + b| - 1] == a + b[..|b| - 1];
      ObservedAppend(a, b[..|b| - 1]);
    }
  }

  /** Each phone contributes in place: the observed phones are those of the
      phones before it, then its own contribution, then those of the phones
      after it. */
  lemma ObservedAt(phones: seq<string>, i: nat)
    requires i < |phones|
    ensures Observed(phones) == Observed(phones[..i]) + Contribution(phones[i]) + Observed(phones[i + 1..])
  {
    var x, pre, post := phones[i], phones[..i], phones[i + 1..];
    calc {
      Observed(phones);
      { SplitAround(phones, i); }
      Observed((pre + [x]) + post);
      { ObservedAppend(pre + [x], post); }
      Observed(pre + [x]) + Observed(post);
      { ObservedAppend(pre, [x]); ObservedSingle(x); }
      Observed(pre) + Contribution(x) + Observed(post);
    }
  }

  lemma SplitAround<T>(s: seq<T>, i: nat)
    requires i < |s|
    ensures s == (s[..i] + [s[i]]) + s[i + 1..]
  {
  }

  lemma ObservedSingle(x: string)
    ensures Observed([x]) == Contribution(x)
  {
    assert [x][..0] == [];
  }

  /** The silence test looks at the phone before its stress digit goes: a
      digit-marked silence passes the test and is kept without its digit. */
  lemma SilenceBeforeStress()
    ensures Observed(["SIL1"]) == ["SIL"]
  {
    ObservedSingle("SIL1");
    assert "SIL1" !in Silences;
    assert "SIL1"[..3] == "SIL";
  }

  /** Nothing is added: at most one observed phone per aligner phone, and one
      for each when there is no silence. */
  lemma {:induction false} ObservedLength(phones: seq<string>)
    ensures |Observed(phones)| <= |phones|
    ensures (forall i :: 0 <= i < |phones| ==> phones[i] !in Silences) ==> |Observed(phones)| == |phones|
  {
    if phones != [] {
      ObservedLength(phones[..|phones| - 1]);
    }
  }

  /** The filter loop of lines 243-253. */
  method ObservedPhones(phones: seq<string>) returns (annotKaldi: seq<string>)
    ensures annotKaldi == Observed(phones)
  {
    annotKaldi := [];
    for k := 0 to |phones|
      invariant annotKaldi == Observed(phones[..k])
    {
      assert phones[..k + 1][..k] == phones[..k];
      var phone := phones[k];
      if phone !in Silences {
        if phone[|phone| - 1] !in StressDigits {
          annotKaldi := annotKaldi + [phone];
        } else {
          annotKaldi := annotKaldi + [phone[..|phone| - 1]];
        }
      }
    }
    assert phones[..|phones|] == phones;
  }

  /** The number of positions where a variant and the observed phones agree. */
  function Score(t: seq<string>, a: seq<string>): nat
    requires |t| == |a|
  {
    if t == [] then 0
    else Score(t[..|t| - 1], a[..|a| - 1]) + (if t[|t| - 1] == a[|a| - 1] then 1 else 0)
  }

  /** The score counts agreements: it is at most the length, it is the length
      exactly when the two are equal, and it is zero exactly when they agree
      nowhere. */
  lemma {:induction false} ScoreSpec(t: seq<string>, a: seq<string>)
    requires |t| == |a|
    ensures Score(t, a) <= |t|
    ensures Score(t, a) == |t| <==> t == a
    ensures Score(t, a) == 0 <==> forall i :: 0 <= i < |t| ==> t[i] != a[i]
  {
    if t != [] {
      var t', a' := t[..|t| - 1], a[..|a| - 1];
      ScoreSpec(t', a');
      assert t == t' + [t[|t| - 1]] && a == a' + [a[|a| - 1]];
      if Score(t, a) == |t| {
        assert t' == a';
      }
      if t == a {
        assert t' == a';
      }
      if forall i :: 0 <= i < |t'| ==> t'[i] != a'[i] {
        if t[|t| - 1] != a[|a| - 1] {
          assert forall i :: 0 <= i < |t| ==> t[i] != a[i] by {
            forall i | 0 <= i < |t| ensures t[i] != a[i] {
              if i < |t'| {
                assert t[i] == t'[i] && a[i] == a'[i];
              }
            }
          }
        }
      }
      if forall i :: 0 <= i < |t| ==> t[i] != a[i] {
        assert forall i :: 0 <= i < |t'| ==> t'[i] != a'[i] by {
          forall i | 0 <= i < |t'| ensures t'[i] != a'[i] {
            assert t[i] == t'[i] && a[i] == a'[i];
          }
        }
      }
    }
  }

  /** The search of lines 262-270 as a fold over the variants: the index of
      the first variant of the observed length with the highest positive score
      (or -1), and that score (or 0). */
  function BestVariant(vs: seq<Variant>, a: seq<string>): (r: (int, nat))
    ensures -1 <= r.0 < |vs|
    ensures r.0 == -1 ==> r.1 == 0
    ensures r.0 >= 0 ==> |vs[r.0]| == |a| && r.1 == Score(vs[r.0], a) > 0
    ensures forall i :: 0 <= i < |vs| && |vs[i]| == |a| ==> Score(vs[i], a) <= r.1
    ensures forall i :: 0 <= i < r.0 && |vs[i]| == |a| ==> Score(vs[i], a) < r.1
  {
    if vs == [] then (-1, 0)
    else
      var front := vs[..|vs| - 1];
      var v := vs[|vs| - 1];
      var prev := BestVariant(front, a);
      assert forall i :: 0 <= i < |front| ==> front[i] == vs[i];
      if |v| == |a| && Score(v, a) > prev.1 then (|vs| - 1, Score(v, a)) else prev
  }

  /** No variant is chosen exactly when every variant of the observed length
      agrees with the observed phones nowhere. */
  lemma NoMatchIff(vs: seq<Variant>, a: seq<string>)
    ensures BestVariant(vs, a).0 == -1 <==>
      forall i :: 0 <= i < |vs| && |vs[i]| == |a| ==> Score(vs[i], a) == 0
  {
    var r := BestVariant(vs, a);
    if r.0 >= 0 {
      assert |vs[r.0]| == |a| && Score(vs[r.0], a) > 0;
    }
  }

  /** An exact match wins: if some variant equals the observed phones, the
      chosen one equals them too, and it is the first such. */
  lemma ExactMatchChosen(vs: seq<Variant>, a: seq<string>, k: nat)
    requires a != [] && k < |vs| && vs[k] == a
    ensures 0 <= BestVariant(vs, a).0 <= k
    ensures vs[BestVariant(vs, a).0] == a
  {
    var r := BestVariant(vs, a);
    ScoreSpec(vs[k], a);
    assert Score(vs[k], a) == |a|;
    ScoreSpec(vs[r.0], a);
  }

  /** The search loop of lines 262-270. */
  method SelectBestVariant(vs: seq<Variant>, annotKaldi: seq<string>) returns (bestTrans: int, bestTransCorr: nat)
    ensures (bestTrans, bestTransCorr) == BestVariant(vs, annotKaldi)
  {
    bestTrans, bestTransCorr := -1, 0;
    for transIdx := 0 to |vs|
      invariant (bestTrans, bestTransCorr) == BestVariant(vs[..transIdx], annotKaldi)
    {
      assert vs[..transIdx + 1][..transIdx] == vs[..transIdx];
      var trans := vs[transIdx];
      if |trans| == |annotKaldi| {
        var numCorrect := Score(trans, annotKaldi);
        if numCorrect > bestTransCorr {
          bestTransCorr := numCorrect;
          bestTrans := transIdx;
        }
      }
    }
    assert vs[..|vs|] == vs;
  }
}
