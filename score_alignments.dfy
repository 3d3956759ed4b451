/** The aligner parser of src/generate_score_txt.py: `removeSymbols` and
    `get_alignments`, which turn `phones` lines into (phone, start, end)
    triples measured in frames. */
module ScoreAlignments {
  import opened Wrappers
  import opened Text
  import opened Seqs

  /** The symbols passed to `removeSymbols`, in the source's order. The
      double quote is not among them. */
  const ScoreSymbols: seq<char> := ['[', ']', ',', ')', '(', '\'']

  const ScoreSymbolSet: set<char> := {'[', ']', ',', ')', '(', '\''}

  /** The characters of a symbol list. */
  function CharsOf(symbols: seq<char>): (cs: set<char>)
    ensures forall c :: c in cs <==> c in symbols
  {
    if symbols == [] then {} else CharsOf(symbols[..|symbols| - 1]) + {symbols[|symbols| - 1]}
  }

  /** `removeSymbols`: each symbol in turn is replaced by nothing. The result
      is the input without any of the symbols, other characters kept in
      order. */
  method RemoveSymbols(s: string, symbols: seq<char>) returns (r: string)
    ensures r == FilterOut(s, CharsOf(symbols))
    ensures NoneOf(r, CharsOf(symbols))
  {
    r := s;
    for i := 0 to |symbols|
      invariant r == FilterOut(s, CharsOf(symbols[..i]))
    {
      TakeStep(symbols, i);
      FilterOutUnion(s, CharsOf(symbols[..i]), {symbols[i]});
      r := FilterOutChar(r, symbols[i]);
    }
    TakeAll(symbols);
  }

  /** `str.replace(symbol, '')` for a one-character symbol. */
  method FilterOutChar(s: string, c: char) returns (r: string)
    ensures r == FilterOut(s, {c})
  {
    r := "";
    for k := 0 to |s|
      invariant r == FilterOut(s[..k], {c})
    {
      FilterOutAppend(s[..k], [s[k]], {c});
      TakeStep(s, k);
      if s[k] != c {
        r := r + [s[k]];
      }
    }
    TakeAll(s);
  }

  lemma ScoreSymbolChars()
    ensures CharsOf(ScoreSymbols) == ScoreSymbolSet
  {
  }

  /** Removing symbols twice is removing them once. */
  lemma RemoveSymbolsIdempotent(s: string, symbols: seq<char>)
    ensures FilterOut(FilterOut(s, CharsOf(symbols)), CharsOf(symbols)) == FilterOut(s, CharsOf(symbols))
  {
    FilterOutIdempotent(s, CharsOf(symbols));
  }

  /** A phone with its start and end frame. */
  datatype Triple = Triple(phone: string, startTime: int, endTime: int)

  /** Why `get_alignments` stops. */
  datatype ScoreError =
      /** `l[i+1]` or `l[i+2]` past the end of the line (IndexError). */
    | ShortTriple
      /** `int(...)` of a token that is not an integer (ValueError). */
    | NotAnInteger

  function Clean(token: string): string
  {
    FilterOut(token, ScoreSymbolSet)
  }

  /** One group of up to three tokens read as a triple, with the failures in
      the order the source meets them: the start token is read before the
      duration token is looked up. */
  function ReadTriple(group: seq<string>): Result<Triple, ScoreError>
    requires 1 <= |group| <= 3
  {
    var phone := Clean(group[0]);
    if |group| < 2 then Err(ShortTriple)
    else match ParseInt(Clean(group[1]))
      case None => Err(NotAnInteger)
      case Some(start) =>
        if |group| < 3 then Err(ShortTriple)
        else match ParseInt(Clean(group[2]))
          case None => Err(NotAnInteger)
          case Some(duration) => Ok(Triple(phone, start, start + duration))
  }

  /** A triple is read exactly from a whole group whose second and third
      tokens are integers; its phone is the cleaned first token and its end is
      its start plus the duration. A short group fails with an index error
      unless an integer test failed first. */
  lemma ReadTripleSpec(group: seq<string>)
    requires 1 <= |group| <= 3
    ensures var r := ReadTriple(group);
      && (r.Ok? ==>
          && |group| == 3
          && r.value.phone == Clean(group[0])
          && ParseInt(Clean(group[1])) == Some(r.value.startTime)
          && ParseInt(Clean(group[2])) == Some(r.value.endTime - r.value.startTime))
      && (r == Err(ShortTriple) ==> |group| < 3)
      && (|group| == 3 && ParseInt(Clean(group[1])).Some? && ParseInt(Clean(group[2])).Some? ==> r.Ok?)
  {
  }

  lemma ReadTripleOk(group: seq<string>, start: int, duration: int)
    requires |group| == 3
    requires ParseInt(Clean(group[1])) == Some(start) && ParseInt(Clean(group[2])) == Some(duration)
    ensures ReadTriple(group) == Ok(Triple(Clean(group[0]), start, start + duration))
  {
  }

  /** `ts` prefixed to a result, a failure kept. */
  function Prepend(ts: seq<Triple>, r: Result<seq<Triple>, ScoreError>): Result<seq<Triple>, ScoreError>
  {
    match r
    case Err(e) => Err(e)
    case Ok(rest) => Ok(ts + rest)
  }

  lemma PrependNothing(r: Result<seq<Triple>, ScoreError>)
    ensures Prepend([], r) == r
  {
    if r.Ok? {
      AppendEmpty(r.value);
    }
  }

  /** The triples of the tokens after a line's first two fields, read three at
      a time from the front, with the first failure in reading order. */
  function TriplesOf(tokens: seq<string>): Result<seq<Triple>, ScoreError>
    decreases |tokens|
  {
    if tokens == [] then Ok([])
    else
      match ReadTriple(Group(tokens))
      case Err(e) => Err(e)
      case Ok(t) => Prepend([t], TriplesOf(tokens[3..]))
  }

  /** A line reads as one triple per group of three tokens, in order. So the
      tokens come in whole groups, and an index error means they do not. */
  lemma TriplesOfSpec(tokens: seq<string>)
    ensures TriplesOf(tokens).Ok? ==>
      var ts := TriplesOf(tokens).value;
      && |tokens| == 3 * |ts|
      && forall j :: 0 <= j < |ts| ==> ReadTriple(tokens[3 * j..3 * j + 3]) == Ok(ts[j])
    ensures TriplesOf(tokens) == Err(ShortTriple) ==> |tokens| % 3 != 0
  {
    if TriplesOf(tokens).Ok? {
      TriplesOfGroups(tokens);
    }
    TriplesOfShort(tokens);
  }

  lemma {:induction false} TriplesOfGroups(tokens: seq<string>)
    requires TriplesOf(tokens).Ok?
    ensures var ts := TriplesOf(tokens).value;
      && |tokens| == 3 * |ts|
      && forall j :: 0 <= j < |ts| ==> ReadTriple(tokens[3 * j..3 * j + 3]) == Ok(ts[j])
    decreases |tokens|
  {
    if tokens != [] {
      var t := ReadTriple(Group(tokens)).value;
      TriplesOfStep(tokens, t);
      var rest := tokens[3..];
      TriplesOfGroups(rest);
      var ts := [t] + TriplesOf(rest).value;
      assert TriplesOf(tokens) == Ok(ts);
      forall j | 0 <= j < |ts| ensures ReadTriple(tokens[3 * j..3 * j + 3]) == Ok(ts[j]) {
        if j == 0 {
          SliceFront(tokens, 3);
        } else {
          SliceShift(tokens, 3, 3 * (j - 1), 3 * (j - 1) + 3);
        }
      }
    }
  }

  lemma {:induction false} TriplesOfShort(tokens: seq<string>)
    ensures TriplesOf(tokens) == Err(ShortTriple) ==> |tokens| % 3 != 0
    decreases |tokens|
  {
    if tokens != [] {
      var first := ReadTriple(Group(tokens));
      if first.Err? {
        TriplesOfStop(tokens, first.error);
        ReadTripleSpec(Group(tokens));
      } else {
        TriplesOfStep(tokens, first.value);
        TriplesOfShort(tokens[3..]);
        StepThree(|tokens|);
      }
    }
  }

  lemma StepThree(n: nat)
    requires n >= 3
    ensures (n - 3) % 3 == n % 3 && (n - 3) / 3 == n / 3 - 1
  {
  }

  /** Whole groups each with two integers are read without failure. */
  lemma {:induction false} TriplesOfComplete(tokens: seq<string>)
    requires |tokens| % 3 == 0
    requires NumbersInPlace(tokens)
    ensures TriplesOf(tokens).Ok?
    decreases |tokens|
  {
    if tokens != [] {
      var t := FirstTripleOk(tokens);
      StepThree(|tokens|);
      TriplesOfComplete(tokens[3..]);
      TriplesOfStep(tokens, t);
    }
  }

  /** The second and third token of every group of three, from the front,
      read as integers. */
  ghost predicate NumbersInPlace(tokens: seq<string>)
    decreases |tokens|
  {
    |tokens| < 3 ||
    (ParseInt(Clean(tokens[1])).Some? && ParseInt(Clean(tokens[2])).Some? && NumbersInPlace(tokens[3..]))
  }

  lemma FirstTripleOk(tokens: seq<string>) returns (t: Triple)
    requires |tokens| >= 3 && NumbersInPlace(tokens)
    ensures ReadTriple(Group(tokens)) == Ok(t)
  {
    var group := Group(tokens);
    assert |group| == 3 && group[1] == tokens[1] && group[2] == tokens[2];
    ReadTripleSpec(group);
    t := ReadTriple(group).value;
  }

  /** The lines the parser takes: more than three fields, the second `phones`. */
  predicate IsPhonesLine(l: seq<string>)
  {
    |l| > 3 && l[1] == "phones"
  }

  /** One line of the file taken into the table: a `phones` line sets its
      utterance's triples, any other line is skipped. */
  function AddLine(m: map<string, seq<Triple>>, l: seq<string>): Result<map<string, seq<Triple>>, ScoreError>
  {
    if !IsPhonesLine(l) then Ok(m)
    else match TriplesOf(l[2..])
      case Err(e) => Err(e)
      case Ok(ts) => Ok(m[l[0] := ts])
  }

  /** `get_alignments` on the file's lines, each already split into fields:
      the triples of each utterance's last `phones` line. */
  function AlignmentsOf(lines: seq<seq<string>>): Result<map<string, seq<Triple>>, ScoreError>
  {
    if lines == [] then Ok(map[])
    else
      match AlignmentsOf(lines[..|lines| - 1])
      case Err(e) => Err(e)
      case Ok(m) => AddLine(m, lines[|lines| - 1])
  }

  /** Every utterance of the table has a `phones` line. */
  lemma {:induction false} AlignmentKeysSound(lines: seq<seq<string>>, logid: string) returns (i: nat)
    requires AlignmentsOf(lines).Ok? && logid in AlignmentsOf(lines).value
    ensures i < |lines| && IsPhonesLine(lines[i]) && lines[i][0] == logid
  {
    var front := lines[..|lines| - 1];
    var l := lines[|lines| - 1];
    if IsPhonesLine(l) && l[0] == logid {
      i := |lines| - 1;
    } else {
      i := AlignmentKeysSound(front, logid);
      assert lines[i] == front[i];
    }
  }

  /** Every `phones` line's utterance is in the table. */
  lemma {:induction false} AlignmentKeysComplete(lines: seq<seq<string>>, i: nat)
    requires AlignmentsOf(lines).Ok? && i < |lines| && IsPhonesLine(lines[i])
    ensures lines[i][0] in AlignmentsOf(lines).value
  {
    var front := lines[..|lines| - 1];
    if i < |lines| - 1 {
      assert front[i] == lines[i];
      AlignmentKeysComplete(front, i);
    }
  }

  /** The last `phones` line of an utterance decides its triples. */
  lemma {:induction false} AlignmentLastWins(lines: seq<seq<string>>, l: seq<string>, rest: seq<seq<string>>)
    requires IsPhonesLine(l)
    requires forall k :: 0 <= k < |rest| ==> !(IsPhonesLine(rest[k]) && rest[k][0] == l[0])
    requires AlignmentsOf(lines + [l] + rest).Ok?
    ensures TriplesOf(l[2..]).Ok?
    ensures l[0] in AlignmentsOf(lines + [l] + rest).value
    ensures AlignmentsOf(lines + [l] + rest).value[l[0]] == TriplesOf(l[2..]).value
    decreases |rest|
  {
    var all := lines + [l] + rest;
    if rest == [] {
      AppendEmpty(lines + [l]);
      AppendLast(lines, l);
    } else {
      var front := rest[..|rest| - 1];
      DropLastOfAppend(lines + [l], rest);
      AlignmentLastWins(lines, l, front);
    }
  }

  /** A failure stops the whole read: once a prefix of the file fails, the
      file fails with the same error. */
  lemma {:induction false} AlignmentsFailurePersists(lines: seq<seq<string>>, n: nat)
    requires n <= |lines| && AlignmentsOf(lines[..n]).Err?
    ensures AlignmentsOf(lines) == AlignmentsOf(lines[..n])
    decreases |lines| - n
  {
    if n < |lines| {
      TakeStep(lines, n);
      AlignmentsFailurePersists(lines, n + 1);
    } else {
      TakeAll(lines);
    }
  }

  /** The tokens at what is left of a line, grouped as the parser groups them. */
  function Group(tokens: seq<string>): (group: seq<string>)
    requires tokens != []
    ensures 1 <= |group| <= 3 && group <= tokens
  {
    if |tokens| < 3 then tokens else tokens[..3]
  }

  /** One step of the reading: a triple read from the front group is followed
      by the triples of the rest. */
  lemma TriplesOfStep(tokens: seq<string>, t: Triple)
    requires tokens != [] && ReadTriple(Group(tokens)) == Ok(t)
    ensures |tokens| >= 3
    ensures TriplesOf(tokens) == Prepend([t], TriplesOf(tokens[3..]))
  {
  }

  lemma TriplesOfStop(tokens: seq<string>, e: ScoreError)
    requires tokens != [] && ReadTriple(Group(tokens)) == Err(e)
    ensures TriplesOf(tokens) == Err(e)
  {
  }

  lemma PrependAppend(a: seq<Triple>, t: Triple, r: Result<seq<Triple>, ScoreError>)
    ensures Prepend(a, Prepend([t], r)) == Prepend(a + [t], r)
  {
    if r.Ok? {
      Associative(a, [t], r.value);
    }
  }

  /** `removeSymbols(token)` with the parser's symbols. */
  method ReadPhone(token: string) returns (phone: string)
    ensures phone == Clean(token)
  {
    ScoreSymbolChars();
    phone := RemoveSymbols(token, ScoreSymbols);
  }

  /** `int(removeSymbols(token))`. */
  method ReadInteger(token: string) returns (v: Option<int>)
    ensures v == ParseInt(Clean(token))
  {
    ScoreSymbolChars();
    var bare := RemoveSymbols(token, ScoreSymbols);
    v := ParseInt(bare);
  }

  /** One pass of the inner loop's body: the triple at the front of `tokens`
      (`l[i:]` in the source). */
  method ReadGroup(tokens: seq<string>) returns (r: Result<Triple, ScoreError>)
    requires tokens != []
    ensures r == ReadTriple(Group(tokens))
  {
    var currentPhone := ReadPhone(tokens[0]);
    if 1 >= |tokens| {
      return Err(ShortTriple);
    }
    var startTime := ReadInteger(tokens[1]);
    if startTime.None? {
      return Err(NotAnInteger);
    }
    if 2 >= |tokens| {
      return Err(ShortTriple);
    }
    var duration := ReadInteger(tokens[2]);
    if duration.None? {
      return Err(NotAnInteger);
    }
    var endTime := startTime.value + duration.value;
    ReadTripleOk(Group(tokens), startTime.value, duration.value);
    return Ok(Triple(currentPhone, startTime.value, endTime));
  }

  /** The inner loop of lines 34-39: one triple per `i` in steps of three. */
  method LineTriples(l: seq<string>) returns (r: Result<seq<Triple>, ScoreError>)
    requires |l| >= 2
    ensures r == TriplesOf(l[2..])
  {
    var alignment: seq<Triple> := [];
    var i := 2;
    PrependNothing(TriplesOf(l[2..]));
    while i < |l|
      invariant 2 <= i <= |l|
      invariant TriplesOf(l[2..]) == Prepend(alignment, TriplesOf(l[i..]))
      decreases |l| - i
    {
      var triple := ReadGroup(l[i..]);
      if triple.Err? {
        TriplesOfStop(l[i..], triple.error);
        return Err(triple.error);
      }
      TriplesOfStep(l[i..], triple.value);
      SliceAfter(l, i, 3);
      PrependAppend(alignment, triple.value, TriplesOf(l[i + 3..]));
      alignment := alignment + [triple.value];
      i := i + 3;
    }
    assert l[i..] == [];
    AppendEmpty(alignment);
    return Ok(alignment);
  }

  lemma AlignmentsStep(lines: seq<seq<string>>, n: nat, m: map<string, seq<Triple>>)
    requires n < |lines| && AlignmentsOf(lines[..n]) == Ok(m)
    ensures AlignmentsOf(lines[..n + 1]) == AddLine(m, lines[n])
  {
    TakeStep(lines, n);
  }

  /** The body of the loop of lines 27-40. */
  method ReadLine(l: seq<string>, alignmentsDict: map<string, seq<Triple>>)
    returns (r: Result<map<string, seq<Triple>>, ScoreError>)
    ensures r == AddLine(alignmentsDict, l)
  {
    if |l| > 3 && l[1] == "phones" {
      var logid := l[0];
      var dict := alignmentsDict[logid := []];
      var alignment := LineTriples(l);
      if alignment.Err? {
        return Err(alignment.error);
      }
      assert dict[logid := alignment.value] == alignmentsDict[logid := alignment.value];
      return Ok(dict[logid := alignment.value]);
    }
    return Ok(alignmentsDict);
  }

  /** `get_alignments`, lines 24-41. */
  method GetAlignments(lines: seq<seq<string>>) returns (r: Result<map<string, seq<Triple>>, ScoreError>)
    ensures r == AlignmentsOf(lines)
  {
    var alignmentsDict: map<string, seq<Triple>> := map[];
    for n := 0 to |lines|
      invariant AlignmentsOf(lines[..n]) == Ok(alignmentsDict)
    {
      AlignmentsStep(lines, n, alignmentsDict);
      var next := ReadLine(lines[n], alignmentsDict);
      if next.Err? {
        AlignmentsFailurePersists(lines, n + 1);
        return next;
      }
      alignmentsDict := next.value;
    }
    TakeAll(lines);
    return Ok(alignmentsDict);
  }
}
