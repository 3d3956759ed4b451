/** The Python string built-ins the reconciliation scripts rely on, stated over
    `seq<char>`: `str.split(sep)`, `str.split()`, `sep.join`, `str.strip`,
    character deletion (`re.sub` over a character class, `str.replace(c, '')`),
    `str(n)` for a natural number and `int(s)`. */
module Text {
  import opened Wrappers
  import opened Seqs

  /** The characters Python's argument-less `split()` and `strip()` treat as
      white space among the first 256 code points. */
  const Whitespace: set<char> :=
    {' ', '\t', '\n', '\r', '\U{0B}', '\U{0C}', '\U{1C}', '\U{1D}', '\U{1E}', '\U{1F}', '\U{85}', '\U{A0}'}

  predicate NoneOf(s: string, cs: set<char>)
  {
    forall i :: 0 <= i < |s| ==> s[i] !in cs
  }

  /** Python's `s.split(c)` when `seps == {c}`: the pieces between separators,
      empty pieces included, so there is always at least one piece. */
  function Split(s: string, seps: set<char>): (parts: seq<string>)
    ensures |parts| >= 1
    ensures forall i :: 0 <= i < |parts| ==> NoneOf(parts[i], seps)
  {
    if s == [] then [""]
    else
      var rest := Split(s[1..], seps);
      if s[0] in seps then [""] + rest
      else [[s[0]] + rest[0]] + rest[1..]
  }

  /** Python's `sep.join(parts)`. */
  function Join(parts: seq<string>, sep: char): string
  {
    if |parts| == 0 then ""
    else if |parts| == 1 then parts[0]
    else parts[0] + [sep] + Join(parts[1..], sep)
  }

  lemma JoinCons(a: string, b: string, t: seq<string>, sep: char)
    ensures Join([a + b] + t, sep) == a + Join([b] + t, sep)
  {
    if |t| > 0 {
      assert ([a + b] + t)[1..] == t;
      assert ([b] + t)[1..] == t;
    }
  }

  /** Joining the pieces again with the separator gives back the input. */
  lemma {:induction false} JoinSplit(s: string, sep: char)
    ensures Join(Split(s, {sep}), sep) == s
  {
    if s != [] {
      var rest := Split(s[1..], {sep});
      JoinSplit(s[1..], sep);
      if s[0] == sep {
        assert ([""] + rest)[1..] == rest;
      } else {
        JoinCons([s[0]], rest[0], rest[1..], sep);
        assert [rest[0]] + rest[1..] == rest;
        assert s == [s[0]] + s[1..];
      }
    }
  }

  lemma {:induction false} SplitPrefix(w: string, t: string, seps: set<char>)
    requires NoneOf(w, seps)
    ensures Split(w + t, seps) == [w + Split(t, seps)[0]] + Split(t, seps)[1..]
  {
    if w == [] {
      assert w + t == t;
      var p := Split(t, seps);
      assert w + p[0] == p[0];
      assert [p[0]] + p[1..] == p;
    } else {
      assert (w + t)[1..] == w[1..] + t;
      SplitPrefix(w[1..], t, seps);
      assert [w[0]] + (w[1..] + Split(t, seps)[0]) == w + Split(t, seps)[0];
    }
  }

  /** Splitting a join of separator-free pieces gives back the pieces. */
  lemma {:induction false} SplitJoin(parts: seq<string>, sep: char, seps: set<char>)
    requires |parts| >= 1 && sep in seps
    requires forall i :: 0 <= i < |parts| ==> NoneOf(parts[i], seps)
    ensures Split(Join(parts, sep), seps) == parts
  {
    if |parts| == 1 {
      SplitPrefix(parts[0], "", seps);
      assert parts[0] + "" == parts[0];
    } else {
      var j := Join(parts[1..], sep);
      SplitJoin(parts[1..], sep, seps);
      assert parts[0] + [sep] + j == parts[0] + ([sep] + j);
      SplitPrefix(parts[0], [sep] + j, seps);
      assert ([sep] + j)[1..] == j;
      assert Split([sep] + j, seps) == [""] + parts[1..];
      assert parts[0] + "" == parts[0];
    }
  }

  /** The non-empty pieces of a split: with `Whitespace` this is Python's
      argument-less `s.split()`. */
  function NonEmpty(parts: seq<string>): (r: seq<string>)
    ensures forall i :: 0 <= i < |r| ==> r[i] != "" && r[i] in parts
    ensures (forall i :: 0 <= i < |parts| ==> parts[i] != "") ==> r == parts
  {
    if parts == [] then []
    else (if parts[0] == "" then [] else [parts[0]]) + NonEmpty(parts[1..])
  }

  function Words(s: string): (words: seq<string>)
    ensures forall i :: 0 <= i < |words| ==> words[i] != "" && NoneOf(words[i], Whitespace)
  {
    NonEmpty(Split(s, Whitespace))
  }

  /** Fields written one space apart are read back by `split()` unchanged,
      provided each is non-empty and free of white space. */
  lemma WordsJoin(parts: seq<string>)
    requires |parts| >= 1
    requires forall i :: 0 <= i < |parts| ==> parts[i] != "" && NoneOf(parts[i], Whitespace)
    ensures Words(Join(parts, ' ')) == parts
  {
    SplitJoin(parts, ' ', Whitespace);
  }

  /** Python's `s.lstrip(chars)`. */
  function StripLeft(s: string, cs: set<char>): string
  {
    if s != [] && s[0] in cs then StripLeft(s[1..], cs) else s
  }

  /** Python's `s.rstrip(chars)`. */
  function StripRight(s: string, cs: set<char>): string
  {
    if s != [] && s[|s| - 1] in cs then StripRight(s[..|s| - 1], cs) else s
  }

  /** Python's `s.strip(chars)`. */
  function Strip(s: string, cs: set<char>): string
  {
    StripRight(StripLeft(s, cs), cs)
  }

  /** `lstrip` drops the longest prefix made of `cs`. */
  lemma {:induction false} StripLeftSpec(s: string, cs: set<char>)
    ensures var r := StripLeft(s, cs);
      && |r| <= |s| && r == s[|s| - |r|..]
      && (forall k :: 0 <= k < |s| - |r| ==> s[k] in cs)
      && (r != [] ==> r[0] !in cs)
  {
    if s != [] && s[0] in cs {
      var t := s[1..];
      StripLeftSpec(t, cs);
      var r := StripLeft(t, cs);
      SliceAfter(s, 1, |t| - |r|);
      forall k | 0 < k < |s| - |r| ensures s[k] in cs {
        assert s[k] == t[k - 1];
      }
    }
  }

  /** `rstrip` drops the longest suffix made of `cs`. */
  lemma {:induction false} StripRightSpec(s: string, cs: set<char>)
    ensures var r := StripRight(s, cs);
      && |r| <= |s| && r == s[..|r|]
      && (forall k :: |r| <= k < |s| ==> s[k] in cs)
      && (r != [] ==> r[|r| - 1] !in cs)
  {
    if s != [] && s[|s| - 1] in cs {
      StripRightSpec(s[..|s| - 1], cs);
    }
  }

  /** What stripping keeps: the piece of the input between the first and the
      last character outside `cs`, or nothing when there is none; a string
      whose two ends are outside `cs` is left alone. */
  lemma StripSpec(s: string, cs: set<char>)
    ensures exists i, j ::
      && 0 <= i <= j <= |s| && Strip(s, cs) == s[i..j]
      && (forall k :: 0 <= k < i ==> s[k] in cs)
      && (forall k :: j <= k < |s| ==> s[k] in cs)
    ensures var r := Strip(s, cs); r != [] ==> r[0] !in cs && r[|r| - 1] !in cs
    ensures Strip(s, cs) == [] <==> forall k :: 0 <= k < |s| ==> s[k] in cs
    ensures s != [] && s[0] !in cs && s[|s| - 1] !in cs ==> Strip(s, cs) == s
  {
    var i, j := StripSlice(s, cs);
    StripEnds(s, cs);
    var r := Strip(s, cs);
    if r != [] {
      assert r[0] == s[i];
    }
    if s != [] && s[0] !in cs && s[|s| - 1] !in cs {
      assert i == 0 && j == |s|;
      assert s[0..|s|] == s;
    }
  }

  /** Both ends of a stripped string lie outside `cs`. */
  lemma StripEnds(s: string, cs: set<char>)
    ensures var r := Strip(s, cs); r != [] ==> r[0] !in cs && r[|r| - 1] !in cs
  {
    var l := StripLeft(s, cs);
    var r := StripRight(l, cs);
    StripLeftSpec(s, cs);
    StripRightSpec(l, cs);
    if r != [] {
      assert r[0] == l[0];
    }
  }

  /** The bounds of the piece `strip` keeps. */
  lemma StripSlice(s: string, cs: set<char>) returns (i: nat, j: nat)
    ensures i <= j <= |s| && Strip(s, cs) == s[i..j]
    ensures forall k :: 0 <= k < i ==> s[k] in cs
    ensures forall k :: j <= k < |s| ==> s[k] in cs
  {
    var l := StripLeft(s, cs);
    var r := StripRight(l, cs);
    StripLeftSpec(s, cs);
    StripRightSpec(l, cs);
    i, j := |s| - |l|, |s| - |l| + |r|;
    SliceShift(s, i, 0, |r|);
    SliceFront(l, |r|);
    forall k | j <= k < |s| ensures s[k] in cs {
      assert s[k] == l[k - i];
    }
  }

  /** Deleting every character of `cs`, keeping the rest in order: `re.sub`
      over a character class, or `str.replace(c, '')` once per character. */
  function FilterOut(s: string, cs: set<char>): (r: string)
    ensures |r| <= |s|
    ensures NoneOf(r, cs)
    ensures forall c :: c in r ==> c in s
    ensures NoneOf(s, cs) ==> r == s
  {
    if s == [] then []
    else (if s[0] in cs then [] else [s[0]]) + FilterOut(s[1..], cs)
  }

  /** Deleting one set of characters after another is deleting their union. */
  lemma {:induction false} FilterOutUnion(s: string, a: set<char>, b: set<char>)
    ensures FilterOut(FilterOut(s, a), b) == FilterOut(s, a + b)
  {
    if s != [] {
      FilterOutUnion(s[1..], a, b);
      var head := if s[0] in a then [] else [s[0]];
      var tail := FilterOut(s[1..], a);
      FilterOutAppend(head, tail, b);
    }
  }

  lemma {:induction false} FilterOutAppend(x: string, y: string, cs: set<char>)
    ensures FilterOut(x + y, cs) == FilterOut(x, cs) + FilterOut(y, cs)
  {
    if x != [] {
      assert (x + y)[1..] == x[1..] + y;
      FilterOutAppend(x[1..], y, cs);
      var h := if x[0] in cs then [] else [x[0]];
      assert FilterOut(x + y, cs) == h + FilterOut(x[1..] + y, cs);
      Associative(h, FilterOut(x[1..], cs), FilterOut(y, cs));
    } else {
      assert x + y == y;
    }
  }

  /** Deletion is idempotent. */
  lemma FilterOutIdempotent(s: string, cs: set<char>)
    ensures FilterOut(FilterOut(s, cs), cs) == FilterOut(s, cs)
  {
  }

  predicate IsDigit(c: char)
  {
    '0' <= c <= '9'
  }

  predicate AllDigits(s: string)
  {
    forall i :: 0 <= i < |s| ==> IsDigit(s[i])
  }

  function DigitChar(d: nat): (c: char)
    requires d < 10
    ensures IsDigit(c) && c as int - '0' as int == d
  {
    "0123456789"[d]
  }

  /** Python's `str(n)` for a natural number. */
  function NatToString(n: nat): (s: string)
    ensures |s| >= 1 && AllDigits(s)
    ensures n >= 10 ==> s[0] != '0'
  {
    if n < 10 then [DigitChar(n)] else NatToString(n / 10) + [DigitChar(n % 10)]
  }

  /** The value of a string of decimal digits. */
  function DigitsValue(s: string): nat
    requires AllDigits(s)
  {
    if s == [] then 0
    else DigitsValue(s[..|s| - 1]) * 10 + (s[|s| - 1] as int - '0' as int)
  }

  /** Reading back what `str(n)` writes gives `n`; so distinct numbers print
      differently. */
  lemma {:induction false} NatToStringValue(n: nat)
    ensures DigitsValue(NatToString(n)) == n
  {
    if n >= 10 {
      var s := NatToString(n);
      assert s[..|s| - 1] == NatToString(n / 10);
      NatToStringValue(n / 10);
    }
  }

  lemma NatToStringInjective(m: nat, n: nat)
    requires NatToString(m) == NatToString(n)
    ensures m == n
  {
    NatToStringValue(m);
    NatToStringValue(n);
  }

  /** Digits in groups separated by single underscores, as Python's `int()`
      accepts them: `1_000` but not `_1`, `1_` or `1__0`. */
  predicate IsDigitGroups(s: string)
  {
    && |s| > 0 && IsDigit(s[0])
    && (|s| == 1 || IsDigitGroups(s[1..]) || (s[1] == '_' && IsDigitGroups(s[2..])))
  }

  lemma {:induction false} FilterUnderscoresDigits(s: string)
    requires IsDigitGroups(s)
    ensures AllDigits(FilterOut(s, {'_'}))
  {
    if |s| > 1 {
      if IsDigitGroups(s[1..]) {
        FilterUnderscoresDigits(s[1..]);
      } else {
        FilterUnderscoresDigits(s[2..]);
        assert s[1..][1..] == s[2..];
      }
    }
  }

  lemma {:induction false} AllDigitsAreGroups(s: string)
    requires |s| > 0 && AllDigits(s)
    ensures IsDigitGroups(s)
  {
    if |s| > 1 {
      AllDigitsAreGroups(s[1..]);
    }
  }

  /** The value of digit groups, underscores ignored. */
  function GroupsValue(s: string): nat
    requires IsDigitGroups(s)
  {
    FilterUnderscoresDigits(s);
    DigitsValue(FilterOut(s, {'_'}))
  }

  /** Python's `int(s)` on ASCII text: surrounding white space, one optional
      sign, then digit groups; anything else is a `ValueError`, here `None`. */
  function ParseInt(s: string): Option<int>
  {
    var t := Strip(s, Whitespace);
    var neg := |t| > 0 && t[0] == '-';
    var body := if |t| > 0 && (t[0] == '-' || t[0] == '+') then t[1..] else t;
    if IsDigitGroups(body) then
      var v: int := GroupsValue(body);
      Some(if neg then -v else v)
    else None
  }

  lemma DigitNotWhitespace(c: char)
    requires IsDigit(c)
    ensures c !in Whitespace
  {
  }

  /** `int(str(n)) == n`. */
  lemma ParseIntNatToString(n: nat)
    ensures ParseInt(NatToString(n)) == Some(n)
  {
    var s := NatToString(n);
    assert IsDigit(s[0]) && IsDigit(s[|s| - 1]);
    DigitNotWhitespace(s[0]);
    DigitNotWhitespace(s[|s| - 1]);
    StripSpec(s, Whitespace);
    assert Strip(s, Whitespace) == s;
    AllDigitsAreGroups(s);
    assert NoneOf(s, {'_'});
    assert GroupsValue(s) == DigitsValue(s);
    NatToStringValue(n);
  }
}
