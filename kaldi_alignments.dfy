/** Aligner output parsing: `get_kaldi_alignments` in
    get_kaldi_labels_from_alignments.py. A line whose second field is `phones`
    holds an utterance id and then `(phone, start, duration)` triples; only the
    phone of each triple is kept, reduced to a bare phone name. */
module KaldiAlignments {
  import opened Text
  import opened Wrappers
  import opened Failures
  import opened Seqs

  /** The characters of the class `[\[\]()\'\",]` that are deleted from a token. */
  const Decoration: set<char> := {'[', ']', '(', ')', '\'', '"', ','}

  /** Python's `s[:-n]` for `n >= 1`: all but the last `n` characters, or
      nothing when the string is shorter. */
  function DropLast(s: string, n: nat): (r: string)
    requires n >= 1
    ensures r <= s
    ensures |r| == if |s| >= n then |s| - n else 0
  {
    if |s| >= n then s[..|s| - n] else ""
  }

  /** One token made a phone name, in the source's order: delete decoration;
      if it holds `_`, drop two characters (a context tag); then, if it holds a
      `0` or a `1` anywhere, drop the last character (a stress marker). */
  function NormalizePhone(token: string): string
  {
    var bare := FilterOut(token, Decoration);
    var untagged := if '_' in bare then DropLast(bare, 2) else bare;
    if '0' in untagged || '1' in untagged then DropLast(untagged, 1) else untagged
  }

  /** A normalised phone is the decoration-free token less at most three
      final characters; it holds no decoration; a token without `_`, `0` and
      `1` only loses its decoration. */
  lemma NormalizePhoneSpec(token: string)
    ensures var bare := FilterOut(token, Decoration); var name := NormalizePhone(token);
      && name <= bare
      && |bare| - 3 <= |name|
      && NoneOf(name, Decoration)
      && ('_' !in bare && '0' !in bare && '1' !in bare ==> name == bare)
  {
    var bare := FilterOut(token, Decoration);
    var untagged := if '_' in bare then DropLast(bare, 2) else bare;
    assert untagged <= bare;
    if '_' !in bare && '0' !in bare && '1' !in bare {
      assert untagged == bare;
    }
  }

  /** The digit test looks for `0` or `1` anywhere in the name, not only at its
      end: a digit inside the name survives and the final letter is dropped. */
  lemma DigitInsideName()
    ensures NormalizePhone("T1H") == "T1"
  {
    assert FilterOut("H", Decoration) == "H";
    assert FilterOut("1H", Decoration) == "1H";
    assert FilterOut("T1H", Decoration) == "T1H";
    assert "T1H"[..2] == "T1";
  }

  /** A context tag goes first, then the stress digit it exposed. */
  lemma TagThenStress()
    ensures NormalizePhone("AH0_B") == "AH"
  {
    assert FilterOut("AH0_B", Decoration) == "AH0_B" by {
      assert NoneOf("AH0_B", Decoration);
    }
    assert "AH0_B"[..3] == "AH0";
    assert "AH0"[..2] == "AH";
  }

  /** The phones of a line's fields after the first two: the tokens at offsets
      0, 3, 6, ..., so ceil(n / 3) of them for n fields. */
  function PhonesOf(data: seq<string>): (phones: seq<string>)
  {
    seq((|data| + 2) / 3, j requires 0 <= j < (|data| + 2) / 3 => NormalizePhone(data[3 * j]))
  }

  /** One record of the source's `output` list. */
  datatype PhoneRecord = PhoneRecord(logid: string, phones: seq<string>)

  predicate AllHaveTwoFields(lines: seq<seq<string>>)
  {
    forall i :: 0 <= i < |lines| ==> |lines[i]| >= 2
  }

  /** The record a line contributes: one for a `phones` line, none otherwise. */
  function LineRecords(l: seq<string>): seq<PhoneRecord>
    requires |l| >= 2
  {
    if l[1] == "phones" then [PhoneRecord(l[0], PhonesOf(l[2..]))] else []
  }

  /** The records of the `phones` lines, in file order. */
  function KaldiRecords(lines: seq<seq<string>>): seq<PhoneRecord>
    requires AllHaveTwoFields(lines)
  {
    if lines == [] then []
    else KaldiRecords(lines[..|lines| - 1]) + LineRecords(lines[|lines| - 1])
  }

  /** What `get_kaldi_alignments` returns or raises. */
  function KaldiTable(lines: seq<seq<string>>): Result<seq<PhoneRecord>, Failure>
  {
    if !AllHaveTwoFields(lines) then Err(MalformedAlignmentLine)
    else if KaldiRecords(lines) == [] then Err(NoPhonesLines)
    else Ok(KaldiRecords(lines))
  }

  /** Records keep file order: the records of two files read one after the
      other are the records of the first followed by those of the second. */
  lemma {:induction false} KaldiRecordsAppend(a: seq<seq<string>>, b: seq<seq<string>>)
    requires AllHaveTwoFields(a) && AllHaveTwoFields(b)
    ensures AllHaveTwoFields(a + b)
    ensures KaldiRecords(a + b) == KaldiRecords(a) + KaldiRecords(b)
  {
    assert AllHaveTwoFields(a + b) by {
      forall i | 0 <= i < |a + b| ensures |(a + b)[i]| >= 2 {
        if i >= |a| {
          assert (a + b)[i] == b[i - |a|];
        }
      }
    }
    if b == [] {
      AppendEmpty(a);
    } else {
      var front := b[..|b| - 1];
      assert AllHaveTwoFields(front);
      KaldiRecordsAppend(a, front);
      DropLastOfAppend(a, b);
    }
  }

  /** Every record comes from a `phones` line: its id is the line's first
      field and its phones are the line's phones. */
  lemma {:induction false} RecordOrigin(lines: seq<seq<string>>, k: nat) returns (i: nat)
    requires AllHaveTwoFields(lines) && k < |KaldiRecords(lines)|
    ensures i < |lines| && lines[i][1] == "phones"
    ensures KaldiRecords(lines)[k] == PhoneRecord(lines[i][0], PhonesOf(lines[i][2..]))
  {
    var front := lines[..|lines| - 1];
    assert AllHaveTwoFields(front);
    if k < |KaldiRecords(front)| {
      i := RecordOrigin(front, k);
      assert lines[i] == front[i];
    } else {
      i := |lines| - 1;
    }
  }

  /** Every `phones` line yields a record. */
  lemma RecordFromLine(lines: seq<seq<string>>, i: nat)
    requires AllHaveTwoFields(lines) && i < |lines| && lines[i][1] == "phones"
    ensures PhoneRecord(lines[i][0], PhonesOf(lines[i][2..])) in KaldiRecords(lines)
  {
    var a, b := lines[..i + 1], lines[i + 1..];
    TakeDrop(lines, i + 1);
    assert AllHaveTwoFields(a) && AllHaveTwoFields(b);
    KaldiRecordsAppend(a, b);
    TakeTake(lines, i, i + 1);
    assert AllHaveTwoFields(lines[..i]);
  }

  lemma CeilThird(n: nat, k: nat)
    requires n <= 3 * k <= n + 2
    ensures k == (n + 2) / 3
  {
  }

  lemma ThirdBelow(n: nat, k: nat)
    requires 3 * k < n
    ensures k < (n + 2) / 3
  {
  }

  /** The body of that loop: lines 128-133. */
  method NormalizeToken(token: string) returns (phoneName: string)
    ensures phoneName == NormalizePhone(token)
  {
    phoneName := FilterOut(token, Decoration);
    if '_' in phoneName {
      phoneName := DropLast(phoneName, 2);
    }
    if '0' in phoneName || '1' in phoneName {
      phoneName := DropLast(phoneName, 1);
    }
  }

  /** The `while i < len(data)` loop of lines 127-136. */
  method LinePhones(data: seq<string>) returns (phonesName: seq<string>)
    ensures phonesName == PhonesOf(data)
  {
    ghost var all := PhonesOf(data);
    phonesName := [];
    var i := 0;
    while i < |data|
      invariant i == 3 * |phonesName| && i <= |data| + 2
      invariant |phonesName| <= |all| && phonesName == all[..|phonesName|]
    {
      ThirdBelow(|data|, |phonesName|);
      var phoneName := NormalizeToken(data[i]);
      TakeStep(all, |phonesName|);
      phonesName := phonesName + [phoneName];
      i := i + 3;
    }
    CeilThird(|data|, |phonesName|);
    TakeAll(all);
  }

  lemma KaldiRecordsStep(lines: seq<seq<string>>, n: nat)
    requires n < |lines| && AllHaveTwoFields(lines[..n]) && |lines[n]| >= 2
    ensures AllHaveTwoFields(lines[..n + 1])
    ensures KaldiRecords(lines[..n + 1]) == KaldiRecords(lines[..n]) + LineRecords(lines[n])
  {
    TakeStep(lines, n);
  }

  /** Lines 121-139, the loop body for a line with at least two fields. */
  method ReadRecordLine(l: seq<string>) returns (records: seq<PhoneRecord>)
    requires |l| >= 2
    ensures records == LineRecords(l)
  {
    records := [];
    if "phones" == l[1] {
      var logid := l[0];
      var phonesName := LinePhones(l[2..]);
      records := [PhoneRecord(logid, phonesName)];
    }
  }

  /** `get_kaldi_alignments` on the aligner file's lines, each already split
      into fields. */
  method GetKaldiAlignments(lines: seq<seq<string>>) returns (r: Result<seq<PhoneRecord>, Failure>)
    ensures r == KaldiTable(lines)
  {
    var output: seq<PhoneRecord> := [];
    var n := 0;
    while n < |lines|
      invariant 0 <= n <= |lines|
      invariant AllHaveTwoFields(lines[..n])
      invariant output == KaldiRecords(lines[..n])
    {
      var l := lines[n];
      if |l| < 2 {
        return Err(MalformedAlignmentLine);
      }
      KaldiRecordsStep(lines, n);
      var records := ReadRecordLine(l);
      output := output + records;
      n := n + 1;
    }
    TakeAll(lines);
    if output == [] {
      return Err(NoPhonesLines);
    }
    return Ok(output);
  }

  predicate UniqueLogids(records: seq<PhoneRecord>)
  {
    forall i, j :: 0 <= i < j < |records| ==> records[i].logid != records[j].logid
  }

  /** `utterance in df.index.values` and then `df.loc[utterance].phones_name`. */
  function Lookup(records: seq<PhoneRecord>, logid: string): Option<seq<string>>
  {
    if records == [] then None
    else if records[0].logid == logid then Some(records[0].phones)
    else Lookup(records[1..], logid)
  }

  /** The lookup finds exactly the records with that id: nothing when there is
      none, and with unique ids the phones of the one there is. */
  lemma {:induction false} LookupSpec(records: seq<PhoneRecord>, logid: string)
    ensures Lookup(records, logid).None? <==> forall k :: 0 <= k < |records| ==> records[k].logid != logid
    ensures forall k :: 0 <= k < |records| && records[k].logid == logid && UniqueLogids(records) ==>
      Lookup(records, logid) == Some(records[k].phones)
  {
    if records != [] {
      LookupSpec(records[1..], logid);
      forall k | 0 <= k < |records| && records[k].logid == logid && UniqueLogids(records)
        ensures Lookup(records, logid) == Some(records[k].phones)
      {
        if k > 0 {
          assert records[1..][k - 1] == records[k];
          assert UniqueLogids(records[1..]);
        }
      }
      if forall k :: 1 <= k < |records| ==> records[k].logid != logid {
        assert forall k :: 0 <= k < |records[1..]| ==> records[1..][k].logid != logid by {
          forall k | 0 <= k < |records[1..]| ensures records[1..][k].logid != logid {
            assert records[1..][k] == records[k + 1];
          }
        }
      }
      if Lookup(records, logid).None? {
        forall k | 0 <= k < |records| ensures records[k].logid != logid {
          if k > 0 {
            assert records[1..][k - 1] == records[k];
          }
        }
      }
    }
  }
}
