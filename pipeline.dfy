/** The per-utterance reconciliation of get_kaldi_labels_from_alignments.py
    (lines 229-309): pick the grammar variant that best matches what the
    aligner heard, bring the reference labels to the observed length, and
    write one six-column row per observed phone. */
module Pipeline {
  import opened Wrappers
  import opened Text
  import opened Grammar
  import opened Failures
  import opened KaldiAlignments
  import opened Reference
  import opened Filters
  import opened Matching

  /** The five columns carried through the two filtering passes: reference
      phones, observed phones, labels, start times and end times. */
  datatype Columns = Columns(reff: seq<string>, annot: seq<string>, labels: seq<string>,
                             starts: seq<string>, ends: seq<string>)

  predicate SameLength(c: Columns)
  {
    |c.reff| == |c.annot| == |c.labels| == |c.starts| == |c.ends|
  }

  /** One line of an output labels file. */
  datatype Row = Row(id: string, canonical: string, observed: string, refLabel: string,
                     startTime: string, endTime: string)

  /** Every line of a file split on white space. */
  function FieldsOf(lines: seq<string>): (fields: seq<seq<string>>)
    ensures |fields| == |lines|
    ensures forall i :: 0 <= i < |lines| ==> fields[i] == Words(lines[i])
  {
    seq(|lines|, i requires 0 <= i < |lines| => Words(lines[i]))
  }

  /** `spk, sent = utterance.split("_")`. */
  function SpeakerSentence(utt: string): Result<(string, string), Failure>
  {
    var parts := Split(utt, {'_'});
    if |parts| != 2 then Err(MalformedUtteranceId) else Ok((parts[0], parts[1]))
  }

  /** What the script knows about an utterance before choosing a variant. */
  datatype Inputs = Inputs(sent: string, ref: ReferenceColumns, annot: seq<string>)

  /** Lines 231-256: the sentence, the reference file and the observed
      phones, with the failures in the order the script meets them. */
  function Prepare(utt: string, text: map<string, seq<string>>, aligns: seq<PhoneRecord>,
                   refs: map<string, seq<string>>): Result<Inputs, Failure>
  {
    match SpeakerSentence(utt)
    case Err(e) => Err(e)
    case Ok(ss) =>
      var sent := ss.1;
      if sent !in text then Err(MissingSentenceText)
      else if utt !in refs then Err(MissingReferenceFile)
      else match ReadReference(FieldsOf(refs[utt]))
        case Err(e) => Err(e)
        case Ok(ref) =>
          match Lookup(aligns, utt)
          case None => Err(MissingAlignment)
          case Some(phones) => Ok(Inputs(sent, ref, Observed(phones)))
  }

  /** Lines 262-277: the raw variant (with its `0` entries) whose clean form
      matches the observed phones best. */
  function Choose(sent: string, trans: map<string, seq<Variant>>, clean: map<string, seq<Variant>>,
                  annot: seq<string>): Result<Variant, Failure>
    requires clean == CleanAll(trans)
  {
    if sent !in clean then Err(MissingTranscription)
    else
      var best := BestVariant(clean[sent], annot).0;
      if best == -1 then Err(NoMatchingVariant) else Ok(trans[sent][best])
  }

  /** Line 290: when there are more labels than observed phones, keep the
      reference rows where the chosen raw variant is not `0`. */
  function DeletionPass(transZero: seq<string>, c: Columns): Result<Columns, Failure>
  {
    if |c.labels| <= |c.annot| then Ok(c)
    else if !(Covers(transZero, |c.labels|) && Covers(transZero, |c.reff|)
              && Covers(transZero, |c.starts|) && Covers(transZero, |c.ends|))
    then Err(IndexOutOfRange)
    else Ok(Columns(Project(transZero, c.reff), c.annot, Project(transZero, c.labels),
                    Project(transZero, c.starts), Project(transZero, c.ends)))
  }

  /** Line 296: when the reference column holds `0`, keep every column's
      rows where it does not. */
  function ZeroPass(c: Columns): Result<Columns, Failure>
  {
    if Deleted !in c.reff then Ok(c)
    else if !(Covers(c.reff, |c.annot|) && Covers(c.reff, |c.labels|)
              && Covers(c.reff, |c.starts|) && Covers(c.reff, |c.ends|))
    then Err(IndexOutOfRange)
    else Ok(Columns(Clean(c.reff), Project(c.reff, c.annot), Project(c.reff, c.labels),
                    Project(c.reff, c.starts), Project(c.reff, c.ends)))
  }

  /** Lines 289-296: both passes and the length check between them. */
  function Passes(transZero: seq<string>, c0: Columns): Result<Columns, Failure>
  {
    match DeletionPass(transZero, c0)
    case Err(e) => Err(e)
    case Ok(c1) =>
      if |c1.labels| < |c1.annot| then Err(LabelsShorterThanObserved) else ZeroPass(c1)
  }

  /** The id of the `i`-th output row. */
  function RowId(utt: string, i: nat): string
  {
    utt + "_" + NatToString(i)
  }

  /** Line 301: the rows `np.savetxt` writes, numbered from 0; `np.c_` needs
      columns of one length. */
  function RowsOf(utt: string, c: Columns): Result<seq<Row>, Failure>
  {
    var n := |c.annot|;
    if !SameLength(c) then Err(ColumnLengthMismatch)
    else Ok(seq(n, i requires 0 <= i < n =>
      Row(RowId(utt, i), c.reff[i], c.annot[i], c.labels[i], c.starts[i], c.ends[i])))
  }

  /** The reference columns with the observed phones in second place. */
  function Initial(inp: Inputs): Columns
  {
    Columns(inp.ref.reference, inp.annot, inp.ref.labels, inp.ref.startTimes, inp.ref.endTimes)
  }

  /** One pass of the main loop: the rows written for `utt`, or why the
      script stops there. */
  function Reconcile(utt: string, trans: map<string, seq<Variant>>, clean: map<string, seq<Variant>>,
                     text: map<string, seq<string>>, aligns: seq<PhoneRecord>,
                     refs: map<string, seq<string>>): Result<seq<Row>, Failure>
    requires clean == CleanAll(trans)
  {
    match Prepare(utt, text, aligns, refs)
    case Err(e) => Err(e)
    case Ok(inp) =>
      match Choose(inp.sent, trans, clean, inp.annot)
      case Err(e) => Err(e)
      case Ok(transZero) =>
        match Passes(transZero, Initial(inp))
        case Err(e) => Err(e)
        case Ok(c) => RowsOf(utt, c)
  }

  // ---- What each stage guarantees ----

  /** An utterance id is a speaker and a sentence joined by `_`, neither
      holding `_`, and every such join is read back as that pair. */
  lemma SpeakerSentenceSpec(utt: string)
    ensures SpeakerSentence(utt).Ok? ==>
      var (spk, sent) := SpeakerSentence(utt).value;
      utt == spk + "_" + sent && NoneOf(spk, {'_'}) && NoneOf(sent, {'_'})
  {
    var parts := Split(utt, {'_'});
    if |parts| == 2 {
      JoinSplit(utt, '_');
      assert parts[1..] == [parts[1]];
    }
  }

  lemma SpeakerSentenceOf(spk: string, sent: string)
    requires NoneOf(spk, {'_'}) && NoneOf(sent, {'_'})
    ensures SpeakerSentence(spk + "_" + sent) == Ok((spk, sent))
  {
    var parts := [spk, sent];
    assert parts[1..] == [sent];
    assert Join(parts, '_') == spk + "_" + sent;
    SplitJoin(parts, '_', {'_'});
  }

  /** The chosen raw variant is one of the sentence's variants; its clean form
      has the observed length, a positive score and no rival of that length
      scores higher. No variant is chosen exactly when the sentence has none
      or every one of the observed length agrees with the observed phones
      nowhere. */
  lemma ChooseSpec(sent: string, trans: map<string, seq<Variant>>, clean: map<string, seq<Variant>>,
                   annot: seq<string>)
    requires clean == CleanAll(trans)
    ensures Choose(sent, trans, clean, annot).Ok? ==>
      var transZero := Choose(sent, trans, clean, annot).value;
      && sent in trans && transZero in trans[sent]
      && Clean(transZero) in clean[sent]
      && |Clean(transZero)| == |annot|
      && Score(Clean(transZero), annot) > 0
      && forall v :: v in clean[sent] && |v| == |annot| ==> Score(v, annot) <= Score(Clean(transZero), annot)
    ensures Choose(sent, trans, clean, annot) == Err(MissingTranscription) <==> sent !in clean
    ensures Choose(sent, trans, clean, annot) == Err(NoMatchingVariant) <==>
      sent in clean && forall v :: v in clean[sent] && |v| == |annot| ==> Score(v, annot) == 0
  {
    if sent in clean {
      var vs := clean[sent];
      var best := BestVariant(vs, annot);
      NoMatchIff(vs, annot);
      if best.0 >= 0 {
        CleanAllSpec(trans, sent, best.0);
      }
    }
  }

  /** The deletion pass keeps the four reference columns aligned (one
      increasing selection of rows for all four), leaves the observed phones
      alone, and brings the labels to the observed length when it runs; it
      fails only when the chosen variant keeps a position past the end of the
      reference file. */
  lemma DeletionPassSpec(transZero: seq<string>, c0: Columns) returns (ks: seq<nat>)
    requires |c0.reff| == |c0.labels| == |c0.starts| == |c0.ends|
    requires |Clean(transZero)| == |c0.annot|
    ensures DeletionPass(transZero, c0).Err? ==>
      DeletionPass(transZero, c0).error == IndexOutOfRange
      && |c0.labels| > |c0.annot| && !Covers(transZero, |c0.labels|)
    ensures DeletionPass(transZero, c0).Ok? ==>
      var c1 := DeletionPass(transZero, c0).value;
      && c1.annot == c0.annot
      && |c1.reff| == |c1.labels| == |c1.starts| == |c1.ends|
      && (|c0.labels| > |c0.annot| ==> |c1.labels| == |c0.annot|)
      && (|c0.labels| <= |c0.annot| ==> c1 == c0)
      && Increasing(ks)
      && Selects(ks, c0.reff, c1.reff) && Selects(ks, c0.labels, c1.labels)
      && Selects(ks, c0.starts, c1.starts) && Selects(ks, c0.ends, c1.ends)
  {
    if |c0.labels| <= |c0.annot| || !Covers(transZero, |c0.labels|) {
      ks := Upto(|c0.reff|);
    } else {
      ks := KeptIndices(transZero);
      ProjectSelects(transZero, c0.reff);
      ProjectSelects(transZero, c0.labels);
      ProjectSelects(transZero, c0.starts);
      ProjectSelects(transZero, c0.ends);
      ProjectSelf(transZero);
      ProjectAt(transZero, transZero);
    }
  }

  /** On columns of one length the zero pass never fails; it removes every
      `0` from the reference column and keeps all five columns aligned. */
  lemma ZeroPassSpec(c1: Columns) returns (ks: seq<nat>)
    requires SameLength(c1)
    ensures ZeroPass(c1).Ok?
    ensures var c2 := ZeroPass(c1).value;
      && SameLength(c2) && Deleted !in c2.reff && Increasing(ks)
      && Selects(ks, c1.reff, c2.reff) && Selects(ks, c1.annot, c2.annot)
      && Selects(ks, c1.labels, c2.labels) && Selects(ks, c1.starts, c2.starts)
      && Selects(ks, c1.ends, c2.ends)
  {
    if Deleted !in c1.reff {
      ks := Upto(|c1.reff|);
    } else {
      ks := KeptIndices(c1.reff);
      ProjectSelf(c1.reff);
      ProjectSelects(c1.reff, c1.reff);
      ProjectSelects(c1.reff, c1.annot);
      ProjectSelects(c1.reff, c1.labels);
      ProjectSelects(c1.reff, c1.starts);
      ProjectSelects(c1.reff, c1.ends);
    }
  }

  /** Both passes together: the result has one length, no `0` among the
      reference phones, reference rows kept in order by one selection and
      observed phones kept in order by another; the only failures are a
      reference file shorter than the observed phones and a chosen variant
      reaching past the reference file. */
  lemma PassesSpec(transZero: seq<string>, c0: Columns) returns (ks: seq<nat>, js: seq<nat>)
    requires |c0.reff| == |c0.labels| == |c0.starts| == |c0.ends|
    requires |Clean(transZero)| == |c0.annot|
    ensures Passes(transZero, c0) == Err(LabelsShorterThanObserved) <==> |c0.labels| < |c0.annot|
    ensures Passes(transZero, c0).Err? ==>
      Passes(transZero, c0) == Err(LabelsShorterThanObserved)
      || (Passes(transZero, c0) == Err(IndexOutOfRange)
          && |c0.labels| > |c0.annot| && !Covers(transZero, |c0.labels|))
    ensures Passes(transZero, c0).Ok? ==>
      var c := Passes(transZero, c0).value;
      && SameLength(c) && Deleted !in c.reff
      && Increasing(ks) && Increasing(js)
      && Selects(ks, c0.reff, c.reff) && Selects(ks, c0.labels, c.labels)
      && Selects(ks, c0.starts, c.starts) && Selects(ks, c0.ends, c.ends)
      && Selects(js, c0.annot, c.annot)
  {
    var ks1 := DeletionPassSpec(transZero, c0);
    ks, js := [], [];
    if DeletionPass(transZero, c0).Ok? {
      var c1 := DeletionPass(transZero, c0).value;
      if |c1.labels| >= |c1.annot| {
        assert SameLength(c1);
        var ks2 := ZeroPassSpec(c1);
        var c := ZeroPass(c1).value;
        ComposeSelects(ks1, ks2, c0.reff, c1.reff, c.reff);
        ComposeSelects(ks1, ks2, c0.labels, c1.labels, c.labels);
        ComposeSelects(ks1, ks2, c0.starts, c1.starts, c.starts);
        ComposeSelects(ks1, ks2, c0.ends, c1.ends, c.ends);
        ks, js := Compose(ks1, ks2), ks2;
      }
    }
  }

  /** An increasing selection from `n` positions has at most `n` elements. */
  lemma {:induction false} IncreasingBound(ks: seq<nat>, n: nat)
    requires Increasing(ks) && forall j :: 0 <= j < |ks| ==> ks[j] < n
    ensures |ks| <= n
  {
    if ks != [] {
      var front := ks[..|ks| - 1];
      assert forall j :: 0 <= j < |front| ==> front[j] < ks[|ks| - 1];
      IncreasingBound(front, ks[|ks| - 1]);
    }
  }

  /** Row ids are distinct: the number after the utterance id determines the
      row. */
  lemma RowIdsDistinct(utt: string, i: nat, j: nat)
    requires RowId(utt, i) == RowId(utt, j)
    ensures i == j
  {
    assert RowId(utt, i)[|utt| + 1..] == NatToString(i);
    assert RowId(utt, j)[|utt| + 1..] == NatToString(j);
    NatToStringInjective(i, j);
  }

  // ---- What one utterance yields ----

  /** The inputs of an utterance come from its reference file and its aligner
      record. */
  lemma PrepareSpec(utt: string, text: map<string, seq<string>>, aligns: seq<PhoneRecord>,
                    refs: map<string, seq<string>>)
    requires Prepare(utt, text, aligns, refs).Ok?
    ensures utt in refs && ReadReference(FieldsOf(refs[utt])).Ok? && Lookup(aligns, utt).Some?
    ensures var inp := Prepare(utt, text, aligns, refs).value;
      && inp.ref == ReadReference(FieldsOf(refs[utt])).value
      && inp.annot == Observed(Lookup(aligns, utt).value)
      && SpeakerSentence(utt).Ok? && inp.sent == SpeakerSentence(utt).value.1 && inp.sent in text
  {
  }

  /** A written utterance went through every stage. */
  lemma ReconcileStages(utt: string, trans: map<string, seq<Variant>>, clean: map<string, seq<Variant>>,
                        text: map<string, seq<string>>, aligns: seq<PhoneRecord>,
                        refs: map<string, seq<string>>)
    requires clean == CleanAll(trans)
    requires Reconcile(utt, trans, clean, text, aligns, refs).Ok?
    ensures Prepare(utt, text, aligns, refs).Ok?
    ensures var inp := Prepare(utt, text, aligns, refs).value;
      && Choose(inp.sent, trans, clean, inp.annot).Ok?
      && var transZero := Choose(inp.sent, trans, clean, inp.annot).value;
      && Passes(transZero, Initial(inp)).Ok?
      && Reconcile(utt, trans, clean, text, aligns, refs) == RowsOf(utt, Passes(transZero, Initial(inp)).value)
  {
  }

  /** Rows built from selections of the reference lines and of the observed
      phones. */
  lemma RowsFromSelections(utt: string, lines: seq<seq<string>>, annot: seq<string>, c: Columns,
                           ks: seq<nat>, js: seq<nat>)
    requires AllHaveSixFields(lines) && SameLength(c)
    requires Selects(ks, Column(lines, 1), c.reff) && Selects(ks, Column(lines, 3), c.labels)
    requires Selects(ks, Column(lines, 4), c.starts) && Selects(ks, Column(lines, 5), c.ends)
    requires Selects(js, annot, c.annot)
    ensures RowsOf(utt, c).Ok?
    ensures var rows := RowsOf(utt, c).value;
      && |rows| == |c.annot| == |ks| == |js|
      && forall i :: 0 <= i < |rows| ==>
        && ks[i] < |lines| && js[i] < |annot|
        && rows[i] == Row(RowId(utt, i), lines[ks[i]][1], annot[js[i]], lines[ks[i]][3],
                          lines[ks[i]][4], lines[ks[i]][5])
        && rows[i].canonical == c.reff[i]
  {
  }

  /** Every written row is one reference line and one observed phone: row
      `i` carries the id `utt_i`, the reference phone, label and times of one
      line of the utterance's reference file, and one of its observed phones;
      both are read in increasing order, so no line and no phone is used
      twice and none is reordered; no row's reference phone is `0`; and there
      are at most as many rows as observed phones. */
  lemma ReconcileRows(utt: string, trans: map<string, seq<Variant>>, clean: map<string, seq<Variant>>,
                      text: map<string, seq<string>>, aligns: seq<PhoneRecord>,
                      refs: map<string, seq<string>>) returns (lineOf: seq<nat>, obsOf: seq<nat>)
    requires clean == CleanAll(trans)
    requires Reconcile(utt, trans, clean, text, aligns, refs).Ok?
    ensures utt in refs && AllHaveSixFields(FieldsOf(refs[utt])) && Lookup(aligns, utt).Some?
    ensures var rows := Reconcile(utt, trans, clean, text, aligns, refs).value;
      var lines := FieldsOf(refs[utt]);
      var annot := Observed(Lookup(aligns, utt).value);
      && |lineOf| == |rows| && |obsOf| == |rows| && |rows| <= |annot|
      && Increasing(lineOf) && Increasing(obsOf)
      && forall i :: 0 <= i < |rows| ==>
        && lineOf[i] < |lines| && obsOf[i] < |annot|
        && rows[i] == Row(RowId(utt, i), lines[lineOf[i]][1], annot[obsOf[i]], lines[lineOf[i]][3],
                          lines[lineOf[i]][4], lines[lineOf[i]][5])
        && rows[i].canonical != Deleted
  {
    ReconcileStages(utt, trans, clean, text, aligns, refs);
    PrepareSpec(utt, text, aligns, refs);
    var inp := Prepare(utt, text, aligns, refs).value;
    ChooseSpec(inp.sent, trans, clean, inp.annot);
    var transZero := Choose(inp.sent, trans, clean, inp.annot).value;
    lineOf, obsOf := PassesSpec(transZero, Initial(inp));
    var c := Passes(transZero, Initial(inp)).value;
    RowsFromSelections(utt, FieldsOf(refs[utt]), inp.annot, c, lineOf, obsOf);
    IncreasingBound(obsOf, |inp.annot|);
  }

  /** When nothing needs removing (as many reference lines as observed
      phones, none of them canonically `0`), row `i` pairs line `i` with
      observed phone `i`. */
  lemma ReconcileUnedited(utt: string, trans: map<string, seq<Variant>>, clean: map<string, seq<Variant>>,
                          text: map<string, seq<string>>, aligns: seq<PhoneRecord>,
                          refs: map<string, seq<string>>)
    requires clean == CleanAll(trans)
    requires Reconcile(utt, trans, clean, text, aligns, refs).Ok?
    requires utt in refs && Lookup(aligns, utt).Some?
    requires |refs[utt]| == |Observed(Lookup(aligns, utt).value)|
    requires forall k :: 0 <= k < |refs[utt]| && |Words(refs[utt][k])| >= 2 ==> Words(refs[utt][k])[1] != Deleted
    ensures AllHaveSixFields(FieldsOf(refs[utt]))
    ensures var rows := Reconcile(utt, trans, clean, text, aligns, refs).value;
      var lines := FieldsOf(refs[utt]);
      var annot := Observed(Lookup(aligns, utt).value);
      && |rows| == |annot|
      && forall i :: 0 <= i < |rows| ==>
        rows[i] == Row(RowId(utt, i), lines[i][1], annot[i], lines[i][3], lines[i][4], lines[i][5])
  {
    ReconcileStages(utt, trans, clean, text, aligns, refs);
    PrepareSpec(utt, text, aligns, refs);
    var lines := FieldsOf(refs[utt]);
    var inp := Prepare(utt, text, aligns, refs).value;
    var transZero := Choose(inp.sent, trans, clean, inp.annot).value;
    var c0 := Initial(inp);
    assert DeletionPass(transZero, c0) == Ok(c0);
    assert Deleted !in c0.reff by {
      forall k | 0 <= k < |c0.reff| ensures c0.reff[k] != Deleted {
        assert c0.reff[k] == lines[k][1];
      }
    }
    assert Passes(transZero, c0) == Ok(c0);
    RowsFromSelections(utt, lines, inp.annot, c0, Upto(|lines|), Upto(|inp.annot|));
  }

  /** How an utterance can fail after its inputs are read: `np.c_` never sees
      columns of different lengths, the second pass never indexes out of
      range, "annotation longer than labels" means exactly that the reference
      file has fewer lines than there are observed phones, and an index error
      means the deletion pass ran with a chosen variant that keeps a position
      past the end of the reference file. */
  lemma ReconcileFailures(utt: string, trans: map<string, seq<Variant>>, clean: map<string, seq<Variant>>,
                          text: map<string, seq<string>>, aligns: seq<PhoneRecord>,
                          refs: map<string, seq<string>>)
    requires clean == CleanAll(trans)
    ensures Reconcile(utt, trans, clean, text, aligns, refs) != Err(ColumnLengthMismatch)
    ensures Reconcile(utt, trans, clean, text, aligns, refs) == Err(LabelsShorterThanObserved) ==>
      && Prepare(utt, text, aligns, refs).Ok?
      && |refs[utt]| < |Prepare(utt, text, aligns, refs).value.annot|
    ensures Reconcile(utt, trans, clean, text, aligns, refs) == Err(IndexOutOfRange) ==>
      && Prepare(utt, text, aligns, refs).Ok?
      && var inp := Prepare(utt, text, aligns, refs).value;
      && Choose(inp.sent, trans, clean, inp.annot).Ok?
      && |refs[utt]| > |inp.annot|
      && !Covers(Choose(inp.sent, trans, clean, inp.annot).value, |refs[utt]|)
  {
    if Prepare(utt, text, aligns, refs).Ok? {
      var inp := Prepare(utt, text, aligns, refs).value;
      ChooseSpec(inp.sent, trans, clean, inp.annot);
      if Choose(inp.sent, trans, clean, inp.annot).Ok? {
        var transZero := Choose(inp.sent, trans, clean, inp.annot).value;
        var ks, js := PassesSpec(transZero, Initial(inp));
      }
    }
  }

  // ---- The loop body as the script runs it ----

  /** Lines 231-256. */
  method PrepareUtterance(utt: string, text: map<string, seq<string>>, aligns: seq<PhoneRecord>,
                          refs: map<string, seq<string>>) returns (r: Result<Inputs, Failure>)
    ensures r == Prepare(utt, text, aligns, refs)
  {
    var parts := Split(utt, {'_'});
    if |parts| != 2 {
      return Err(MalformedUtteranceId);
    }
    var sent := parts[1];
    if sent !in text {
      return Err(MissingSentenceText);
    }
    if utt !in refs {
      return Err(MissingReferenceFile);
    }
    var ref := GetReference(FieldsOf(refs[utt]));
    if ref.Err? {
      return Err(ref.error);
    }
    var found := Lookup(aligns, utt);
    if found.None? {
      return Err(MissingAlignment);
    }
    var annotKaldi := ObservedPhones(found.value);
    return Ok(Inputs(sent, ref.value, annotKaldi));
  }

  /** Lines 262-277. */
  method ChooseVariant(sent: string, trans: map<string, seq<Variant>>, clean: map<string, seq<Variant>>,
                       annotKaldi: seq<string>) returns (r: Result<Variant, Failure>)
    requires clean == CleanAll(trans)
    ensures r == Choose(sent, trans, clean, annotKaldi)
  {
    if sent !in clean {
      return Err(MissingTranscription);
    }
    var bestTrans, bestTransCorr := SelectBestVariant(clean[sent], annotKaldi);
    if bestTrans == -1 {
      return Err(NoMatchingVariant);
    }
    return Ok(trans[sent][bestTrans]);
  }

  /** Lines 289-296. */
  method FilterColumns(transZero: seq<string>, c0: Columns) returns (r: Result<Columns, Failure>)
    ensures r == Passes(transZero, c0)
  {
    var transReffComplete, annotKaldi, labels, startTimes, endTimes :=
      c0.reff, c0.annot, c0.labels, c0.starts, c0.ends;
    if |labels| > |annotKaldi| {
      if !(Covers(transZero, |labels|) && Covers(transZero, |transReffComplete|)
           && Covers(transZero, |startTimes|) && Covers(transZero, |endTimes|)) {
        return Err(IndexOutOfRange);
      }
      labels, transReffComplete, startTimes, endTimes :=
        RemoveDeletionLabelsAndTimes(transZero, transReffComplete, labels, startTimes, endTimes);
    }
    if |labels| < |annotKaldi| {
      return Err(LabelsShorterThanObserved);
    }
    if Deleted in transReffComplete {
      if !(Covers(transReffComplete, |annotKaldi|) && Covers(transReffComplete, |labels|)
           && Covers(transReffComplete, |startTimes|) && Covers(transReffComplete, |endTimes|)) {
        return Err(IndexOutOfRange);
      }
      transReffComplete, annotKaldi, labels, startTimes, endTimes :=
        RemoveZeroCanonicPhone(transReffComplete, annotKaldi, labels, startTimes, endTimes);
    }
    return Ok(Columns(transReffComplete, annotKaldi, labels, startTimes, endTimes));
  }

  /** Line 301. */
  method WriteRows(utt: string, c: Columns) returns (r: Result<seq<Row>, Failure>)
    ensures r == RowsOf(utt, c)
  {
    var n := |c.annot|;
    if !(|c.reff| == n && |c.labels| == n && |c.starts| == n && |c.ends| == n) {
      return Err(ColumnLengthMismatch);
    }
    var rows: seq<Row> := [];
    for i := 0 to n
      invariant |rows| == i
      invariant forall k :: 0 <= k < i ==>
        rows[k] == Row(RowId(utt, k), c.reff[k], c.annot[k], c.labels[k], c.starts[k], c.ends[k])
    {
      rows := rows + [Row(utt + "_" + NatToString(i), c.reff[i], c.annot[i],
                          c.labels[i], c.starts[i], c.ends[i])];
    }
    assert rows == RowsOf(utt, c).value;
    return Ok(rows);
  }

  /** The body of the main loop, lines 229-309. */
  method ReconcileUtterance(utt: string, trans: map<string, seq<Variant>>, clean: map<string, seq<Variant>>,
                            text: map<string, seq<string>>, aligns: seq<PhoneRecord>,
                            refs: map<string, seq<string>>) returns (r: Result<seq<Row>, Failure>)
    requires clean == CleanAll(trans)
    ensures r == Reconcile(utt, trans, clean, text, aligns, refs)
  {
    var inp := PrepareUtterance(utt, text, aligns, refs);
    if inp.Err? {
      return Err(inp.error);
    }
    var transZero := ChooseVariant(inp.value.sent, trans, clean, inp.value.annot);
    if transZero.Err? {
      return Err(transZero.error);
    }
    var columns := FilterColumns(transZero.value, Initial(inp.value));
    if columns.Err? {
      return Err(columns.error);
    }
    r := WriteRows(utt, columns.value);
  }

  // ---- Output lines ----

  /** The line `np.savetxt` writes for a row: the six fields one space apart. */
  function FormatRow(row: Row): string
  {
    Join([row.id, row.canonical, row.observed, row.refLabel, row.startTime, row.endTime], ' ')
  }

  /** A written line splits back into its row's six fields when none of them
      is empty or holds white space. */
  lemma FormatRowWords(row: Row)
    requires var fields := [row.id, row.canonical, row.observed, row.refLabel, row.startTime, row.endTime];
      forall k :: 0 <= k < 6 ==> fields[k] != "" && NoneOf(fields[k], Whitespace)
    ensures Words(FormatRow(row)) ==
      [row.id, row.canonical, row.observed, row.refLabel, row.startTime, row.endTime]
  {
    WordsJoin([row.id, row.canonical, row.observed, row.refLabel, row.startTime, row.endTime]);
  }

  // ---- The whole run ----

  /** `line.split(' ')[0]` for a line of the utterance list. */
  function UtteranceId(line: string): string
  {
    Split(line, {' '})[0]
  }

  /** A line that starts with an id and a space is read as that id, and an
      id read from any line holds no space. */
  lemma UtteranceIdOf(id: string, rest: string)
    requires NoneOf(id, {' '})
    ensures UtteranceId(id + " " + rest) == id
    ensures NoneOf(UtteranceId(rest), {' '})
  {
    assert id + " " + rest == id + (" " + rest);
    SplitPrefix(id, " " + rest, {' '});
    assert Split(" " + rest, {' '})[0] == "";
    assert id + "" == id;
  }

  function UtteranceIds(lines: seq<string>): (utts: seq<string>)
    ensures |utts| == |lines|
    ensures forall i :: 0 <= i < |lines| ==> utts[i] == UtteranceId(lines[i])
  {
    seq(|lines|, i requires 0 <= i < |lines| => UtteranceId(lines[i]))
  }

  /** What a run leaves behind: the label files written, in order, as
      (utterance, rows) pairs, and the failure that stopped it, if any. */
  datatype Outcome = Outcome(written: seq<(string, seq<Row>)>, failure: Option<Failure>)

  /** Processing utterances in turn with their outcomes known: each success is
      written and the first failure stops the run. */
  function FirstFailure(utts: seq<string>, results: seq<Result<seq<Row>, Failure>>): (o: Outcome)
    requires |results| == |utts|
    ensures |o.written| <= |utts|
    ensures forall i :: 0 <= i < |o.written| ==> o.written[i].0 == utts[i] && results[i] == Ok(o.written[i].1)
    ensures o.failure.None? ==> |o.written| == |utts|
    ensures o.failure.Some? ==> (|o.written| < |utts| && results[|o.written|] == Err(o.failure.value))
  {
    if utts == [] then Outcome([], None)
    else
      match results[0]
      case Err(e) => Outcome([], Some(e))
      case Ok(rows) =>
        var rest := FirstFailure(utts[1..], results[1..]);
        Outcome([(utts[0], rows)] + rest.written, rest.failure)
  }

  /** `written` holds the first utterances, each with its successful rows. */
  predicate WrittenPrefix(utts: seq<string>, results: seq<Result<seq<Row>, Failure>>,
                          written: seq<(string, seq<Row>)>)
    requires |results| == |utts|
  {
    |written| <= |utts| &&
    forall i :: 0 <= i < |written| ==> written[i].0 == utts[i] && results[i] == Ok(written[i].1)
  }

  lemma WrittenPrefixStep(utts: seq<string>, results: seq<Result<seq<Row>, Failure>>,
                          written: seq<(string, seq<Row>)>, rows: seq<Row>)
    requires |results| == |utts| && WrittenPrefix(utts, results, written)
    requires |written| < |utts| && results[|written|] == Ok(rows)
    ensures WrittenPrefix(utts, results, written + [(utts[|written|], rows)])
  {
  }

  /** The fold stops exactly at the first failure: a written prefix that ends
      at the end of the list or at a failure is the fold's outcome. */
  lemma {:induction false} FirstFailureOf(utts: seq<string>, results: seq<Result<seq<Row>, Failure>>,
                                          written: seq<(string, seq<Row>)>)
    requires |results| == |utts| && WrittenPrefix(utts, results, written)
    requires |written| < |utts| ==> results[|written|].Err?
    ensures FirstFailure(utts, results) ==
      Outcome(written, if |written| == |utts| then None else Some(results[|written|].error))
  {
    if written != [] {
      assert WrittenPrefix(utts[1..], results[1..], written[1..]);
      FirstFailureOf(utts[1..], results[1..], written[1..]);
      assert [(utts[0], written[0].1)] + written[1..] == written;
    }
  }

  /** The outcome of every utterance of the list. */
  function Results(utts: seq<string>, trans: map<string, seq<Variant>>, clean: map<string, seq<Variant>>,
                   text: map<string, seq<string>>, aligns: seq<PhoneRecord>,
                   refs: map<string, seq<string>>): (results: seq<Result<seq<Row>, Failure>>)
    requires clean == CleanAll(trans)
    ensures |results| == |utts|
    ensures forall i :: 0 <= i < |utts| ==> results[i] == Reconcile(utts[i], trans, clean, text, aligns, refs)
  {
    seq(|utts|, i requires 0 <= i < |utts| => Reconcile(utts[i], trans, clean, text, aligns, refs))
  }

  /** No utterance of the list has two aligner records (or the aligner file
      is rejected before any lookup). */
  predicate AlignerIdsUnique(alignLines: seq<string>, uttLines: seq<string>)
  {
    AllHaveTwoFields(FieldsOf(alignLines)) ==>
      var records := KaldiRecords(FieldsOf(alignLines));
      var utts := UtteranceIds(uttLines);
      forall i, j :: 0 <= i < j < |records| && records[i].logid in utts ==> records[i].logid != records[j].logid
  }

  /** The script from its inputs: the grammar file, the aligner output, the
      utterance list and the reference label file of each utterance. */
  function RunResult(grammarLines: seq<string>, alignLines: seq<string>, uttLines: seq<string>,
                     refs: map<string, seq<string>>): Outcome
    requires AlignerIdsUnique(alignLines, uttLines)
  {
    var grammar := FieldsOf(grammarLines);
    var trans := Transcriptions(grammar);
    match KaldiTable(FieldsOf(alignLines))
    case Err(e) => Outcome([], Some(e))
    case Ok(aligns) =>
      var utts := UtteranceIds(uttLines);
      FirstFailure(utts, Results(utts, trans, CleanAll(trans), Texts(grammar), aligns, refs))
  }

  /** Lines 221-225: the first space-separated field of each line. */
  method ReadUtteranceList(uttLines: seq<string>) returns (utteranceList: seq<string>)
    ensures utteranceList == UtteranceIds(uttLines)
  {
    utteranceList := [];
    for k := 0 to |uttLines|
      invariant utteranceList == UtteranceIds(uttLines[..k])
    {
      utteranceList := utteranceList + [Split(uttLines[k], {' '})[0]];
    }
    assert uttLines[..|uttLines|] == uttLines;
  }

  /** Lines 229-309: the loop over the utterance list. */
  method ProcessUtterances(utteranceList: seq<string>, trans: map<string, seq<Variant>>,
                           clean: map<string, seq<Variant>>, text: map<string, seq<string>>,
                           aligns: seq<PhoneRecord>, refs: map<string, seq<string>>)
    returns (written: seq<(string, seq<Row>)>, failure: Option<Failure>)
    requires clean == CleanAll(trans)
    ensures Outcome(written, failure) ==
      FirstFailure(utteranceList, Results(utteranceList, trans, clean, text, aligns, refs))
  {
    ghost var results := Results(utteranceList, trans, clean, text, aligns, refs);
    written := [];
    var n := 0;
    while n < |utteranceList|
      invariant 0 <= n <= |utteranceList| && |written| == n
      invariant WrittenPrefix(utteranceList, results, written)
    {
      var utterance := utteranceList[n];
      var rows := ReconcileUtterance(utterance, trans, clean, text, aligns, refs);
      assert rows == results[n];
      if rows.Err? {
        FirstFailureOf(utteranceList, results, written);
        return written, Some(rows.error);
      }
      WrittenPrefixStep(utteranceList, results, written, rows.value);
      written := written + [(utterance, rows.value)];
      n := n + 1;
    }
    FirstFailureOf(utteranceList, results, written);
    return written, None;
  }

  /** Lines 213-309 of the script. */
  method Run(grammarLines: seq<string>, alignLines: seq<string>, uttLines: seq<string>,
             refs: map<string, seq<string>>) returns (written: seq<(string, seq<Row>)>, failure: Option<Failure>)
    requires AlignerIdsUnique(alignLines, uttLines)
    ensures Outcome(written, failure) == RunResult(grammarLines, alignLines, uttLines, refs)
  {
    var transDictComplete, transDictCleanComplete, sentDictComplete := GenerateDicts(FieldsOf(grammarLines));
    var kaldiAlignments := GetKaldiAlignments(FieldsOf(alignLines));
    if kaldiAlignments.Err? {
      return [], Some(kaldiAlignments.error);
    }
    var utteranceList := ReadUtteranceList(uttLines);
    written, failure := ProcessUtterances(utteranceList, transDictComplete, transDictCleanComplete,
                                          sentDictComplete, kaldiAlignments.value, refs);
  }
}
