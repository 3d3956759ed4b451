/** Grammar expansion: `generate_dict_from_transcripctions` in
    get_kaldi_labels_from_alignments.py. Each `TRANSCRIPTION` line lists one
    slot per position, every slot a `/`-separated set of allowed phones; the
    line stands for every way of choosing one phone per slot. A `TEXT` line
    gives the sentence's words. */
module Grammar {
  import opened Text
  import opened Seqs

  /** One concrete canonical phone sequence. */
  type Variant = seq<string>

  /** The phone that marks an optional, possibly deleted, position. */
  const Deleted: string := "0"

  /** The choices of one slot: the field split on `/`, each piece stripped. */
  function SlotChoices(field: string): (choices: seq<string>)
    ensures |choices| >= 1
  {
    var pieces := Split(field, {'/'});
    seq(|pieces|, i requires 0 <= i < |pieces| => Strip(pieces[i], Whitespace))
  }

  function Slots(fields: seq<string>): (slots: seq<seq<string>>)
    ensures |slots| == |fields|
    ensures forall i :: 0 <= i < |fields| ==> slots[i] == SlotChoices(fields[i])
  {
    seq(|fields|, i requires 0 <= i < |fields| => SlotChoices(fields[i]))
  }

  function AppendEach(ts: seq<Variant>, p: string): seq<Variant>
  {
    seq(|ts|, i requires 0 <= i < |ts| => ts[i] + [p])
  }

  /** One step of the expansion: for every choice in turn, every sequence so
      far followed by that choice. */
  function Extend(ts: seq<Variant>, choices: seq<string>): seq<Variant>
  {
    if choices == [] then []
    else Extend(ts, choices[..|choices| - 1]) + AppendEach(ts, choices[|choices| - 1])
  }

  /** All variants of a line, in the order the source builds them. */
  function Expand(slots: seq<seq<string>>): seq<Variant>
  {
    if slots == [] then [[]]
    else Extend(Expand(slots[..|slots| - 1]), slots[|slots| - 1])
  }

  /** The product of the slots' choice counts. */
  function Product(slots: seq<seq<string>>): nat
  {
    if slots == [] then 1 else Product(slots[..|slots| - 1]) * |slots[|slots| - 1]|
  }

  // ---- Index arithmetic for the mixed-radix numbering of variants ----

  lemma MulStep(a: nat, b: nat)
    requires b >= 1
    ensures a * (b - 1) + a == a * b
  {
  }

  lemma MulBelow(j: nat, k: nat, m: nat, i: nat)
    requires j < k && i < m
    ensures j * m + i < k * m
    ensures j * m + i < m * k
  {
    assert (j + 1) * m <= k * m by {
      MulMonotone(j + 1, k, m);
    }
  }

  lemma MulCancelLess(p: nat, q: nat, n: nat)
    requires p * q < p * n
    ensures q < n
  {
  }

  lemma MulMonotone(a: nat, b: nat, m: nat)
    requires a <= b
    ensures a * m <= b * m
  {
  }

  lemma DivBelow(k: nat, p: nat, n: nat)
    requires k < p * n
    ensures p > 0 && k / p < n && k % p < p
  {
    var q := k / p;
    assert p * q <= k;
    MulCancelLess(p, q, n);
  }

  lemma {:induction false} ExtendLength(ts: seq<Variant>, choices: seq<string>)
    ensures |Extend(ts, choices)| == |ts| * |choices|
  {
    if choices != [] {
      ExtendLength(ts, choices[..|choices| - 1]);
      MulStep(|ts|, |choices|);
    }
  }

  /** Position `j * |ts| + i` of an extension is sequence `i` followed by choice `j`. */
  lemma {:induction false} ExtendAt(ts: seq<Variant>, choices: seq<string>, j: nat, i: nat)
    requires j < |choices| && i < |ts|
    ensures j * |ts| + i < |Extend(ts, choices)|
    ensures Extend(ts, choices)[j * |ts| + i] == ts[i] + [choices[j]]
  {
    ExtendLength(ts, choices);
    MulBelow(j, |choices|, |ts|, i);
    if j == |choices| - 1 {
      ExtendAtLast(ts, choices, i);
    } else {
      var front := choices[..|choices| - 1];
      MulBelow(j, |front|, |ts|, i);
      ExtendAt(ts, front, j, i);
      ExtendKeepsFront(ts, choices, j * |ts| + i);
      assert front[j] == choices[j];
    }
  }

  /** The last choice's block follows the blocks of all earlier choices. */
  lemma ExtendAtLast(ts: seq<Variant>, choices: seq<string>, i: nat)
    requires choices != [] && i < |ts|
    ensures (|choices| - 1) * |ts| + i < |Extend(ts, choices)|
    ensures Extend(ts, choices)[(|choices| - 1) * |ts| + i] == ts[i] + [choices[|choices| - 1]]
  {
    var front := choices[..|choices| - 1];
    var last := AppendEach(ts, choices[|choices| - 1]);
    ExtendLength(ts, front);
    var m := |Extend(ts, front)|;
    MulCommute(|choices| - 1, |ts|);
    assert (|choices| - 1) * |ts| == m;
    ConcatAt(Extend(ts, front), last, i);
  }

  lemma MulCommute(a: nat, b: nat)
    ensures a * b == b * a
  {
  }

  /** Adding a choice keeps the blocks already there. */
  lemma ExtendKeepsFront(ts: seq<Variant>, choices: seq<string>, n: nat)
    requires choices != [] && n < (|choices| - 1) * |ts|
    ensures n < |Extend(ts, choices[..|choices| - 1])|
    ensures Extend(ts, choices)[n] == Extend(ts, choices[..|choices| - 1])[n]
  {
    var front := choices[..|choices| - 1];
    ExtendLength(ts, front);
    assert (|choices| - 1) * |ts| == |ts| * |front|;
  }

  /** A line with choice counts c1..cn yields exactly c1 * ... * cn variants. */
  lemma {:induction false} ExpandLength(slots: seq<seq<string>>)
    ensures |Expand(slots)| == Product(slots)
  {
    if slots != [] {
      ExpandLength(slots[..|slots| - 1]);
      ExtendLength(Expand(slots[..|slots| - 1]), slots[|slots| - 1]);
    }
  }

  /** A choice of one index per slot. */
  predicate ValidPick(slots: seq<seq<string>>, js: seq<nat>)
  {
    |js| == |slots| && forall i :: 0 <= i < |js| ==> js[i] < |slots[i]|
  }

  /** The variant that a choice of indices names. */
  function Pick(slots: seq<seq<string>>, js: seq<nat>): (v: Variant)
    requires ValidPick(slots, js)
    ensures |v| == |slots|
    ensures forall i :: 0 <= i < |slots| ==> v[i] == slots[i][js[i]]
  {
    if slots == [] then []
    else Pick(slots[..|slots| - 1], js[..|js| - 1]) + [slots[|slots| - 1][js[|js| - 1]]]
  }

  /** Where the source puts the variant with indices `js`: mixed radix, the
      last slot most significant. */
  function Rank(slots: seq<seq<string>>, js: seq<nat>): (r: nat)
    requires ValidPick(slots, js)
    ensures r < Product(slots)
  {
    if slots == [] then 0
    else
      var front := slots[..|slots| - 1];
      var r := Rank(front, js[..|js| - 1]);
      MulBelow(js[|js| - 1], |slots[|slots| - 1]|, Product(front), r);
      r + js[|js| - 1] * Product(front)
  }

  /** The indices of the variant at position `k`. */
  function Unrank(slots: seq<seq<string>>, k: nat): (js: seq<nat>)
    requires k < Product(slots)
    ensures |js| == |slots|
  {
    if slots == [] then []
    else
      var p := Product(slots[..|slots| - 1]);
      DivBelow(k, p, |slots[|slots| - 1]|);
      Unrank(slots[..|slots| - 1], k % p) + [k / p]
  }

  /** `Unrank` inverts `Rank`: it names a valid choice whose position is `k`. */
  lemma {:induction false} UnrankSpec(slots: seq<seq<string>>, k: nat)
    requires k < Product(slots)
    ensures ValidPick(slots, Unrank(slots, k)) && Rank(slots, Unrank(slots, k)) == k
  {
    if slots != [] {
      var front := slots[..|slots| - 1];
      var p := Product(front);
      DivBelow(k, p, |slots[|slots| - 1]|);
      UnrankSpec(front, k % p);
      RankStep(slots, Unrank(front, k % p), k);
    }
  }

  /** Putting the quotient after the indices of the remainder gives back `k`. */
  lemma RankStep(slots: seq<seq<string>>, jf: seq<nat>, k: nat)
    requires slots != [] && Product(slots[..|slots| - 1]) > 0
    requires k / Product(slots[..|slots| - 1]) < |slots[|slots| - 1]|
    requires ValidPick(slots[..|slots| - 1], jf)
    requires Rank(slots[..|slots| - 1], jf) == k % Product(slots[..|slots| - 1])
    ensures ValidPick(slots, jf + [k / Product(slots[..|slots| - 1])])
    ensures Rank(slots, jf + [k / Product(slots[..|slots| - 1])]) == k
  {
    var p := Product(slots[..|slots| - 1]);
    var js := jf + [k / p];
    AppendLast(jf, k / p);
    DivMod(k, p);
  }

  lemma DivMod(k: nat, p: nat)
    requires p > 0
    ensures k % p + k / p * p == k
  {
  }

  /** Every choice of one phone per slot is a variant, at position `Rank`. */
  lemma {:induction false} ExpandAt(slots: seq<seq<string>>, js: seq<nat>)
    requires ValidPick(slots, js)
    ensures Rank(slots, js) < |Expand(slots)|
    ensures Expand(slots)[Rank(slots, js)] == Pick(slots, js)
  {
    ExpandLength(slots);
    if slots != [] {
      var front := slots[..|slots| - 1];
      var jf := js[..|js| - 1];
      ExpandAt(front, jf);
      ExpandLength(front);
      ExtendAt(Expand(front), slots[|slots| - 1], js[|js| - 1], Rank(front, jf));
    }
  }

  /** Every variant is such a choice: position `k` holds the choice `Unrank(k)`;
      so each variant has one phone per slot, drawn from that slot. */
  lemma ExpandCovers(slots: seq<seq<string>>, k: nat)
    requires k < |Expand(slots)|
    ensures k < Product(slots)
    ensures ValidPick(slots, Unrank(slots, k)) && Rank(slots, Unrank(slots, k)) == k
    ensures Expand(slots)[k] == Pick(slots, Unrank(slots, k))
    ensures |Expand(slots)[k]| == |slots|
    ensures forall i :: 0 <= i < |slots| ==> Expand(slots)[k][i] in slots[i]
  {
    ExpandLength(slots);
    var js := Unrank(slots, k);
    UnrankSpec(slots, k);
    ExpandAt(slots, js);
  }

  /** Distinct choices sit at distinct positions, so every combination of
      choices appears exactly once. */
  lemma {:induction false} RankInjective(slots: seq<seq<string>>, a: seq<nat>, b: seq<nat>)
    requires ValidPick(slots, a) && ValidPick(slots, b)
    requires Rank(slots, a) == Rank(slots, b)
    ensures a == b
  {
    if slots != [] {
      var front := slots[..|slots| - 1];
      var p := Product(front);
      var ra, rb := Rank(front, a[..|a| - 1]), Rank(front, b[..|b| - 1]);
      var ja, jb := a[|a| - 1], b[|b| - 1];
      if ja < jb {
        MulBelow(ja, jb, p, ra);
        assert false;
      } else if jb < ja {
        MulBelow(jb, ja, p, rb);
        assert false;
      }
      RankInjective(front, a[..|a| - 1], b[..|b| - 1]);
      SplitLast(a);
      SplitLast(b);
    }
  }

  // ---- Removing the deletion marker ----

  /** `[x for x in t if x != '0']`. */
  function Clean(t: Variant): (r: Variant)
    ensures Deleted !in r
    ensures |r| <= |t|
  {
    if t == [] then []
    else Clean(t[..|t| - 1]) + (if t[|t| - 1] == Deleted then [] else [t[|t| - 1]])
  }

  function CleanEach(ts: seq<Variant>): seq<Variant>
  {
    seq(|ts|, k requires 0 <= k < |ts| => Clean(ts[k]))
  }

  /** The clean table: each sentence's variants, index for index, without `0`. */
  function CleanAll(trans: map<string, seq<Variant>>): map<string, seq<Variant>>
  {
    map s | s in trans :: CleanEach(trans[s])
  }

  /** The clean table has the raw table's sentences and, for each, as many
      variants, each the raw one with every `0` removed. */
  lemma CleanAllSpec(trans: map<string, seq<Variant>>, s: string, k: nat)
    requires s in trans && k < |trans[s]|
    ensures CleanAll(trans).Keys == trans.Keys
    ensures |CleanAll(trans)[s]| == |trans[s]|
    ensures CleanAll(trans)[s][k] == Clean(trans[s][k])
  {
  }

  /** A variant without `0` is its own clean form, and cleaning distributes
      over concatenation, so order is kept. */
  lemma {:induction false} CleanKeepsOthers(t: Variant)
    ensures Deleted !in t ==> Clean(t) == t
  {
    if t != [] {
      CleanKeepsOthers(t[..|t| - 1]);
      SplitLast(t);
    }
  }

  lemma {:induction false} CleanAppend(a: Variant, b: Variant)
    ensures Clean(a + b) == Clean(a) + Clean(b)
  {
    if b == [] {
      AppendEmpty(a);
    } else {
      DropLastOfAppend(a, b);
      CleanAppend(a, b[..|b| - 1]);
    }
  }

  // ---- The whole grammar file ----

  /** The sentence a line speaks of: its second field without `:` at its ends. */
  function SentenceOf(fields: seq<string>): string
    requires |fields| >= 2
  {
    Strip(fields[1], {':'})
  }

  predicate IsTranscriptionFor(fields: seq<string>, sent: string)
  {
    |fields| > 2 && fields[0] == "TRANSCRIPTION" && SentenceOf(fields) == sent
  }

  predicate IsTextFor(fields: seq<string>, sent: string)
  {
    |fields| > 2 && fields[0] == "TEXT" && SentenceOf(fields) == sent
  }

  /** The variants one `TRANSCRIPTION` line stands for. */
  function LineVariants(fields: seq<string>): seq<Variant>
    requires |fields| > 2
  {
    Expand(Slots(fields[2..]))
  }

  /** One line taken into the raw variant table: a `TRANSCRIPTION` line with
      more than two fields appends its variants to its sentence's; any other
      line changes nothing. */
  function AddTranscription(t: map<string, seq<Variant>>, fields: seq<string>): map<string, seq<Variant>>
  {
    if |fields| > 2 && fields[0] == "TRANSCRIPTION" then
      var sent := SentenceOf(fields);
      t[sent := (if sent in t then t[sent] else []) + LineVariants(fields)]
    else t
  }

  /** One line taken into the sentence table: a `TEXT` line with more than
      two fields sets its sentence's words. */
  function AddText(t: map<string, seq<string>>, fields: seq<string>): map<string, seq<string>>
  {
    if |fields| > 2 && fields[0] == "TEXT" then t[SentenceOf(fields) := fields[2..]] else t
  }

  /** The raw variant table after reading the lines in order. */
  function Transcriptions(lines: seq<seq<string>>): map<string, seq<Variant>>
  {
    if lines == [] then map[]
    else AddTranscription(Transcriptions(lines[..|lines| - 1]), lines[|lines| - 1])
  }

  /** The sentence words after reading the lines in order. */
  function Texts(lines: seq<seq<string>>): map<string, seq<string>>
  {
    if lines == [] then map[]
    else AddText(Texts(lines[..|lines| - 1]), lines[|lines| - 1])
  }

  lemma TablesStep(lines: seq<seq<string>>, n: nat)
    requires n < |lines|
    ensures Transcriptions(lines[..n + 1]) == AddTranscription(Transcriptions(lines[..n]), lines[n])
    ensures Texts(lines[..n + 1]) == AddText(Texts(lines[..n]), lines[n])
  {
    TakeStep(lines, n);
  }

  /** A sentence has variants only if some `TRANSCRIPTION` line names it ... */
  lemma {:induction false} TransKeysSound(lines: seq<seq<string>>, sent: string) returns (i: nat)
    requires sent in Transcriptions(lines)
    ensures i < |lines| && IsTranscriptionFor(lines[i], sent)
  {
    var front := lines[..|lines| - 1];
    if sent in Transcriptions(front) {
      i := TransKeysSound(front, sent);
      assert lines[i] == front[i];
    } else {
      i := |lines| - 1;
    }
  }

  /** ... and every sentence a `TRANSCRIPTION` line names has variants. */
  lemma {:induction false} TransKeysComplete(lines: seq<seq<string>>, i: nat, sent: string)
    requires i < |lines| && IsTranscriptionFor(lines[i], sent)
    ensures sent in Transcriptions(lines)
  {
    var front := lines[..|lines| - 1];
    if i < |front| {
      assert front[i] == lines[i];
      TransKeysComplete(front, i, sent);
    }
  }

  /** A `TRANSCRIPTION` line adds the product of its choice counts to the
      sentence's variants, after the ones it had, each with one phone per
      slot. */
  lemma TranscriptionAdds(lines: seq<seq<string>>, fields: seq<string>)
    requires |fields| > 2 && fields[0] == "TRANSCRIPTION"
    ensures var sent := SentenceOf(fields);
      var before := Transcriptions(lines);
      var after := Transcriptions(lines + [fields]);
      var kept := if sent in before then before[sent] else [];
      && sent in after
      && after[sent] == kept + Expand(Slots(fields[2..]))
      && |after[sent]| == |kept| + Product(Slots(fields[2..]))
      && kept <= after[sent]
      && (forall k :: |kept| <= k < |after[sent]| ==> |after[sent][k]| == |fields| - 2)
  {
    var sent := SentenceOf(fields);
    var slots := Slots(fields[2..]);
    AppendLast(lines, fields);
    ExpandLength(slots);
    var before := Transcriptions(lines);
    var kept := if sent in before then before[sent] else [];
    var after := Transcriptions(lines + [fields]);
    assert after[sent] == kept + Expand(slots);
    forall k | |kept| <= k < |after[sent]|
      ensures |after[sent][k]| == |fields| - 2
    {
      ExpandCovers(slots, k - |kept|);
      assert after[sent][k] == Expand(slots)[k - |kept|];
    }
  }

  /** Later lines never take variants away: they only append. */
  lemma {:induction false} VariantsOnlyGrow(lines: seq<seq<string>>, more: seq<seq<string>>, sent: string)
    requires sent in Transcriptions(lines)
    ensures sent in Transcriptions(lines + more)
    ensures Transcriptions(lines)[sent] <= Transcriptions(lines + more)[sent]
  {
    if more == [] {
      AppendEmpty(lines);
    } else {
      var front := more[..|more| - 1];
      VariantsOnlyGrow(lines, front, sent);
      DropLastOfAppend(lines, more);
    }
  }

  /** The words of a sentence are those of its last `TEXT` line. */
  lemma {:induction false} TextLastWins(lines: seq<seq<string>>, fields: seq<string>, rest: seq<seq<string>>)
    requires |fields| > 2 && fields[0] == "TEXT"
    requires forall i :: 0 <= i < |rest| ==> !IsTextFor(rest[i], SentenceOf(fields))
    ensures SentenceOf(fields) in Texts(lines + [fields] + rest)
    ensures Texts(lines + [fields] + rest)[SentenceOf(fields)] == fields[2..]
  {
    if rest == [] {
      AppendEmpty(lines + [fields]);
      AppendLast(lines, fields);
    } else {
      var front := rest[..|rest| - 1];
      TextLastWins(lines, fields, front);
      DropLastOfAppend(lines + [fields], rest);
      assert rest[|rest| - 1] == (lines + [fields] + rest)[|lines + [fields] + rest| - 1];
    }
  }

  // ---- The imperative source ----

  /** The body of the slot loop, lines 82-93: every sequence so far, copied
      once per choice of the slot with that choice, stripped, added. */
  method ExtendSlot(trans: seq<Variant>, field: string) returns (transNew: seq<Variant>)
    ensures transNew == Extend(trans, SlotChoices(field))
  {
    var phones := Split(field, {'/'});
    ghost var choices := SlotChoices(field);
    transNew := [];
    var j := 0;
    while j < |phones|
      invariant 0 <= j <= |phones| == |choices|
      invariant transNew == Extend(trans, choices[..j])
    {
      var p := Strip(phones[j], Whitespace);
      transNew := AppendChoice(transNew, trans, p);
      TakeStep(choices, j);
      j := j + 1;
    }
    TakeAll(choices);
  }

  /** The inner loop: every sequence so far followed by one choice, appended. */
  method AppendChoice(acc: seq<Variant>, trans: seq<Variant>, p: string) returns (r: seq<Variant>)
    ensures r == acc + AppendEach(trans, p)
  {
    r := acc;
    var k := 0;
    while k < |trans|
      invariant 0 <= k <= |trans|
      invariant r == acc + AppendEach(trans[..k], p)
    {
      AppendEachStep(trans, k, p);
      r := r + [trans[k] + [p]];
      k := k + 1;
    }
    TakeAll(trans);
  }

  lemma AppendEachStep(ts: seq<Variant>, k: nat, p: string)
    requires k < |ts|
    ensures AppendEach(ts[..k + 1], p) == AppendEach(ts[..k], p) + [ts[k] + [p]]
  {
  }


  /** Lines 80-93: start from one empty sequence and extend it slot by slot. */
  method ExpandFields(fields: seq<string>) returns (trans: seq<Variant>)
    requires |fields| > 2
    ensures trans == LineVariants(fields)
  {
    trans := [[]];
    var i := 2;
    while i < |fields|
      invariant 2 <= i <= |fields|
      invariant trans == Expand(Slots(fields[2..i]))
    {
      trans := ExtendSlot(trans, fields[i]);
      assert Slots(fields[2..i + 1])[..i - 2] == Slots(fields[2..i]);
      i := i + 1;
    }
    assert fields[2..i] == fields[2..];
  }

  /** Lines 97-105: append to each sentence's clean list the clean form of
      each of its variants, index for index. */
  method FillCleanTable(transDict: map<string, seq<Variant>>, emptyClean: map<string, seq<Variant>>)
    returns (transDictClean: map<string, seq<Variant>>)
    requires emptyClean.Keys == transDict.Keys
    requires forall s :: s in emptyClean ==> emptyClean[s] == []
    ensures transDictClean == CleanAll(transDict)
  {
    transDictClean := emptyClean;
    var pending := transDict.Keys;
    while pending != {}
      invariant pending <= transDict.Keys
      invariant transDictClean.Keys == transDict.Keys
      invariant forall s :: s in transDict ==>
        transDictClean[s] == if s in pending then [] else CleanEach(transDict[s])
      decreases pending
    {
      var sent :| sent in pending;
      var trans := transDict[sent];
      var transCleanNew: seq<Variant> := [];
      var k := 0;
      while k < |trans|
        invariant 0 <= k <= |trans|
        invariant transCleanNew == CleanEach(trans[..k])
      {
        transCleanNew := transCleanNew + [Clean(trans[k])];
        k := k + 1;
      }
      TakeAll(trans);
      transDictClean := transDictClean[sent := transDictClean[sent] + transCleanNew];
      pending := pending - {sent};
    }
  }

  /** The body of the loop of lines 55-95 for one line: a `TEXT` line sets
      the sentence's words, a `TRANSCRIPTION` line opens the sentence's lists
      when they are missing and appends its variants. */
  method ReadGrammarLine(fields: seq<string>, transDict: map<string, seq<Variant>>,
                         transDictClean: map<string, seq<Variant>>, sentDict: map<string, seq<string>>)
    returns (transDict': map<string, seq<Variant>>, transDictClean': map<string, seq<Variant>>,
             sentDict': map<string, seq<string>>)
    requires transDictClean.Keys == transDict.Keys
    requires forall s :: s in transDictClean ==> transDictClean[s] == []
    ensures transDict' == AddTranscription(transDict, fields)
    ensures sentDict' == AddText(sentDict, fields)
    ensures transDictClean'.Keys == transDict'.Keys
    ensures forall s :: s in transDictClean' ==> transDictClean'[s] == []
  {
    transDict', transDictClean', sentDict' := transDict, transDictClean, sentDict;
    if |fields| <= 2 {
      return;
    }
    var sent := Strip(fields[1], {':'});
    if fields[0] == "TEXT" {
      sentDict' := sentDict'[sent := fields[2..]];
    }
    if fields[0] != "TRANSCRIPTION" {
      return;
    }
    if sent !in transDictClean' {
      transDict' := transDict'[sent := []];
      transDictClean' := transDictClean'[sent := []];
    }
    var trans := ExpandFields(fields);
    transDict' := transDict'[sent := transDict'[sent] + trans];
  }

  /** `generate_dict_from_transcripctions` on the file's lines, each already
      split into fields. */
  method GenerateDicts(lines: seq<seq<string>>)
    returns (transDict: map<string, seq<Variant>>, transDictClean: map<string, seq<Variant>>,
             sentDict: map<string, seq<string>>)
    ensures transDict == Transcriptions(lines)
    ensures sentDict == Texts(lines)
    ensures transDictClean == CleanAll(transDict)
  {
    transDict, transDictClean, sentDict := map[], map[], map[];
    var n := 0;
    while n < |lines|
      invariant 0 <= n <= |lines|
      invariant transDict == Transcriptions(lines[..n])
      invariant sentDict == Texts(lines[..n])
      invariant transDictClean.Keys == transDict.Keys
      invariant forall s :: s in transDictClean ==> transDictClean[s] == []
    {
      TablesStep(lines, n);
      transDict, transDictClean, sentDict := ReadGrammarLine(lines[n], transDict, transDictClean, sentDict);
      n := n + 1;
    }
    TakeAll(lines);

    transDictClean := FillCleanTable(transDict, transDictClean);
  }
}
