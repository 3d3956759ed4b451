/** The manual reference labels of one utterance: `get_reference` in
    get_kaldi_labels_from_alignments.py. Each line holds an index and then the
    reference phone, the manual annotation, the label, the start time and the
    end time. */
module Reference {
  import opened Wrappers
  import opened Failures

  /** The five payload columns, in file order. */
  datatype ReferenceColumns = ReferenceColumns(
    reference: seq<string>,
    annotManual: seq<string>,
    labels: seq<string>,
    startTimes: seq<string>,
    endTimes: seq<string>)

  predicate AllHaveSixFields(lines: seq<seq<string>>)
  {
    forall i :: 0 <= i < |lines| ==> |lines[i]| >= 6
  }

  /** Field `c` of every line. */
  function Column(lines: seq<seq<string>>, c: nat): (col: seq<string>)
    requires forall i :: 0 <= i < |lines| ==> |lines[i]| > c
    ensures |col| == |lines|
    ensures forall i :: 0 <= i < |lines| ==> col[i] == lines[i][c]
  {
    seq(|lines|, i requires 0 <= i < |lines| => lines[i][c])
  }

  /** What `get_reference` returns or raises: field 0 is ignored, fields 1 to
      5 become the five columns, and a line with fewer than six fields stops
      the read. */
  function ReadReference(lines: seq<seq<string>>): (r: Result<ReferenceColumns, Failure>)
    ensures r.Ok? <==> AllHaveSixFields(lines)
    ensures r.Err? ==> r.error == MalformedReferenceLine
    ensures r.Ok? ==> var cols := r.value;
      && |cols.reference| == |cols.annotManual| == |cols.labels| == |lines|
      && |cols.startTimes| == |cols.endTimes| == |lines|
  {
    if !AllHaveSixFields(lines) then Err(MalformedReferenceLine)
    else Ok(ReferenceColumns(Column(lines, 1), Column(lines, 2), Column(lines, 3),
                             Column(lines, 4), Column(lines, 5)))
  }

  /** The read loop of lines 154-164. */
  method GetReference(lines: seq<seq<string>>) returns (r: Result<ReferenceColumns, Failure>)
    ensures r == ReadReference(lines)
  {
    var reference, annotManual, labels, startTimes, endTimes := [], [], [], [], [];
    var i := 0;
    while i < |lines|
      invariant 0 <= i <= |lines|
      invariant AllHaveSixFields(lines[..i])
      invariant reference == Column(lines[..i], 1) && annotManual == Column(lines[..i], 2)
      invariant labels == Column(lines[..i], 3) && startTimes == Column(lines[..i], 4)
      invariant endTimes == Column(lines[..i], 5)
    {
      var l := lines[i];
      if |l| < 6 {
        return Err(MalformedReferenceLine);
      }
      reference := reference + [l[1]];
      annotManual := annotManual + [l[2]];
      labels := labels + [l[3]];
      startTimes := startTimes + [l[4]];
      endTimes := endTimes + [l[5]];
      i := i + 1;
    }
    assert lines[..i] == lines;
    return Ok(ReferenceColumns(reference, annotManual, labels, startTimes, endTimes));
  }
}
