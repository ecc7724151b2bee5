/** The JSONL scan that reads a file in chunks and carries the unfinished line over. */
module Scanner {

  newtype byte = x: int | 0 <= x < 256

  const NEWLINE: byte := 10

  predicate Space(b: byte) {
    b == 32 || b == 9 || b == 10 || b == 13 || b == 11 || b == 12
  }

  /** A line counts if stripping white space leaves something. */
  predicate Nonblank(line: seq<byte>) {
    exists i :: 0 <= i < |line| && !Space(line[i])
  }

  function Concat(parts: seq<seq<byte>>): seq<byte> {
    if parts == [] then [] else parts[0] + Concat(parts[1..])
  }

  // ---------- splitting a text into its lines ----------

  predicate NoNewline(s: seq<byte>) {
    forall i :: 0 <= i < |s| ==> s[i] != NEWLINE
  }

  /** A finished line: one newline, at its end. */
  predicate IsLine(s: seq<byte>) {
    s != [] && s[|s| - 1] == NEWLINE && NoNewline(s[..|s| - 1])
  }

  /** Finished lines, the last one possibly unfinished but not empty. */
  predicate AreLines(ls: seq<seq<byte>>) {
    ls == [] || ((IsLine(ls[0]) || (|ls| == 1 && ls[0] != [] && NoNewline(ls[0]))) && AreLines(ls[1..]))
  }

  predicate AllDone(ls: seq<seq<byte>>) {
    forall i :: 0 <= i < |ls| ==> IsLine(ls[i])
  }

  /** The first newline at or after `from`, or the length when there is none. */
  function NewlineAt(data: seq<byte>, from: nat): (k: nat)
    requires from <= |data|
    ensures from <= k <= |data|
    ensures forall i :: from <= i < k ==> data[i] != NEWLINE
    ensures k < |data| ==> data[k] == NEWLINE
    decreases |data| - from
  {
    if from == |data| || data[from] == NEWLINE then from else NewlineAt(data, from + 1)
  }

  function Split(data: seq<byte>): seq<seq<byte>>
    decreases |data|
  {
    if data == [] then []
    else
      var k := NewlineAt(data, 0);
      if k == |data| then [data] else [data[..k + 1]] + Split(data[k + 1..])
  }

  /** There is exactly one way to cut a text into lines, and `Split` is it. */
  lemma {:induction false} SplitIsTheOnlySplit(data: seq<byte>, ls: seq<seq<byte>>)
    ensures ls == Split(data) <==> Concat(ls) == data && AreLines(ls)
    decreases |data|
  {
    SplitIsASplit(data);
    if Concat(ls) == data && AreLines(ls) {
      SplitOfConcat(ls);
    }
  }

  lemma {:induction false} SplitIsASplit(data: seq<byte>)
    ensures Concat(Split(data)) == data && AreLines(Split(data))
    decreases |data|
  {
    if data != [] {
      var k := NewlineAt(data, 0);
      if k < |data| {
        SplitIsASplit(data[k + 1..]);
        LineBefore(data[..k + 1], Split(data[k + 1..]));
        assert data == data[..k + 1] + data[k + 1..];
      }
    }
  }

  lemma LineBefore(line: seq<byte>, ls: seq<seq<byte>>)
    requires line != [] && line[|line| - 1] == NEWLINE && AreLines(ls)
    requires forall i :: 0 <= i < |line| - 1 ==> line[i] != NEWLINE
    ensures Concat([line] + ls) == line + Concat(ls) && AreLines([line] + ls)
  {
    assert ([line] + ls)[1..] == ls;
    assert NoNewline(line[..|line| - 1]);
  }

  lemma {:induction false} SplitOfConcat(ls: seq<seq<byte>>)
    requires AreLines(ls)
    ensures Split(Concat(ls)) == ls
    decreases |ls|
  {
    if ls != [] {
      var l, more := ls[0], Concat(ls[1..]);
      SplitOfConcat(ls[1..]);
      if IsLine(l) {
        SplitFirst(l, more);
        assert ls == [l] + ls[1..];
      } else {
        assert more == [];
        assert Concat(ls) == l;
        assert ls == [l];
      }
    }
  }

  /** A finished line in front of a text is its first line. */
  lemma SplitFirst(l: seq<byte>, more: seq<byte>)
    requires IsLine(l)
    ensures Split(l + more) == [l] + Split(more)
  {
    var data := l + more;
    var k, n := NewlineAt(data, 0), |l| - 1;
    assert data[n] == NEWLINE;
    assert forall i :: 0 <= i < n ==> data[i] == l[..n][i];
    assert k == n;
    assert data[..k + 1] == l && data[k + 1..] == more;
  }

  /** Finished lines and an unfinished rest are the split of their text. */
  lemma {:induction false} SplitOfDone(done: seq<seq<byte>>, carry: seq<byte>)
    requires AllDone(done) && NoNewline(carry)
    ensures Split(Concat(done) + carry) == done + if carry == [] then [] else [carry]
    decreases |done|
  {
    if done == [] {
      assert Concat(done) + carry == carry;
      if carry != [] { assert NewlineAt(carry, 0) == |carry|; }
    } else {
      SplitOfDone(done[1..], carry);
      assert Concat(done) + carry == done[0] + (Concat(done[1..]) + carry);
      SplitFirst(done[0], Concat(done[1..]) + carry);
    }
  }

  // ---------- the report ----------

  /** A line by its place in the file. */
  datatype Span = Span(offset: nat, length: nat)

  /** The number of non-blank lines, and the non-blank ones among the first `sample` lines. */
  datatype Report = Report(rows: nat, firstN: seq<Span>)

  function Tally(ls: seq<seq<byte>>, sample: int): Report
    decreases |ls|
  {
    if ls == [] then Report(0, [])
    else
      var m := |ls| - 1;
      Plus(Tally(ls[..m], sample), ls[m], |Concat(ls[..m])|, m, sample)
  }

  /** The report after one more line, number `index` and at `at`. */
  function Plus(r: Report, line: seq<byte>, at: nat, index: nat, sample: int): Report {
    if !Nonblank(line) then r
    else Report(r.rows + 1, if index < sample then r.firstN + [Span(at, |line|)] else r.firstN)
  }

  lemma TallySnoc(ls: seq<seq<byte>>, l: seq<byte>, sample: int)
    ensures Tally(ls + [l], sample) == Plus(Tally(ls, sample), l, |Concat(ls)|, |ls|, sample)
  {
    assert (ls + [l])[..|ls|] == ls;
  }

  /** The non-blank lines among the first `n`. */
  function Kept(ls: seq<seq<byte>>, n: nat): set<nat>
    requires n <= |ls|
  {
    set i | 0 <= i < n && Nonblank(ls[i])
  }

  /** Line `i` starts where the lines before it end. */
  function SpanOf(ls: seq<seq<byte>>, i: nat): Span
    requires i < |ls|
  {
    Span(|Concat(ls[..i])|, |ls[i]|)
  }

  ghost predicate Increasing(spans: seq<Span>) {
    forall i, j :: 0 <= i < j < |spans| ==> spans[i].offset + spans[i].length <= spans[j].offset
  }

  ghost predicate SamplesExactly(firstN: seq<Span>, ls: seq<seq<byte>>, n: nat, sample: int)
    requires n <= |ls|
  {
    forall s :: s in firstN <==> exists i :: i in Kept(ls, n) && i < sample && s == SpanOf(ls, i)
  }

  ghost predicate Within(spans: seq<Span>, end: nat) {
    forall i :: 0 <= i < |spans| ==> spans[i].offset + spans[i].length <= end
  }

  /** The report counts the non-blank lines and samples, in the order of the file, exactly those
      among the first `sample` lines. */
  lemma {:induction false} ReportIsExact(ls: seq<seq<byte>>, n: nat, sample: int)
    requires n <= |ls|
    ensures var r := Tally(ls[..n], sample);
            r.rows == |Kept(ls, n)| && SamplesExactly(r.firstN, ls, n, sample) &&
            Increasing(r.firstN) && Within(r.firstN, |Concat(ls[..n])|)
  {
    if n > 0 {
      var m := n - 1;
      var before := Tally(ls[..m], sample);
      ReportIsExact(ls, m, sample);
      assert ls[..n] == ls[..m] + [ls[m]];
      TallySnoc(ls[..m], ls[m], sample);
      ConcatSnoc(ls[..m], ls[m]);
      KeptOneMore(ls, m);
      PlusKeepsOrder(before, ls[m], |Concat(ls[..m])|, m, sample);
      SampleOneMore(before.firstN, Tally(ls[..n], sample).firstN, ls, m, sample);
    } else {
      assert ls[..0] == [] && Kept(ls, 0) == {};
    }
  }

  lemma KeptOneMore(ls: seq<seq<byte>>, m: nat)
    requires m < |ls|
    ensures |Kept(ls, m + 1)| == if Nonblank(ls[m]) then |Kept(ls, m)| + 1 else |Kept(ls, m)|
  {
    assert Kept(ls, m + 1) == if Nonblank(ls[m]) then Kept(ls, m) + {m} else Kept(ls, m);
  }

  lemma PlusKeepsOrder(r: Report, line: seq<byte>, at: nat, index: nat, sample: int)
    requires Increasing(r.firstN) && Within(r.firstN, at)
    ensures var after := Plus(r, line, at, index, sample);
            Increasing(after.firstN) && Within(after.firstN, at + |line|)
  {
  }

  lemma SampleOneMore(before: seq<Span>, after: seq<Span>, ls: seq<seq<byte>>, m: nat, sample: int)
    requires m < |ls| && SamplesExactly(before, ls, m, sample)
    requires after == if Nonblank(ls[m]) && m < sample then before + [SpanOf(ls, m)] else before
    ensures SamplesExactly(after, ls, m + 1, sample)
  {
    forall s
      ensures s in after <==> exists i :: i in Kept(ls, m + 1) && i < sample && s == SpanOf(ls, i)
    {
      if s in before {
        var i :| i in Kept(ls, m) && i < sample && s == SpanOf(ls, i);
        assert i in Kept(ls, m + 1);
      } else if s in after {
        assert m in Kept(ls, m + 1);
      }
    }
  }

  /** The sampled spans cut sampled lines out of the text. */
  lemma SpansCutLines(data: seq<byte>, i: nat)
    requires i < |Split(data)|
    ensures var s := SpanOf(Split(data), i);
            s.offset + s.length <= |data| && data[s.offset..s.offset + s.length] == Split(data)[i]
  {
    SplitIsASplit(data);
    ConcatAt(Split(data), i);
  }

  lemma {:induction false} ConcatAppend(a: seq<seq<byte>>, b: seq<seq<byte>>)
    ensures Concat(a + b) == Concat(a) + Concat(b)
  {
    if a == [] {
      assert a + b == b;
    } else {
      ConcatAppend(a[1..], b);
      ConcatCons(a[0], a[1..]);
      ConcatCons(a[0], a[1..] + b);
      assert a == [a[0]] + a[1..] && a + b == [a[0]] + (a[1..] + b);
      Regroup(a[0], Concat(a[1..]), Concat(b));
    }
  }

  lemma ConcatCons(l: seq<byte>, ls: seq<seq<byte>>)
    ensures Concat([l] + ls) == l + Concat(ls)
  {
    assert ([l] + ls)[1..] == ls;
  }

  lemma Regroup(a: seq<byte>, b: seq<byte>, c: seq<byte>)
    ensures a + (b + c) == (a + b) + c
  {
  }

  lemma ConcatSnoc(ls: seq<seq<byte>>, l: seq<byte>)
    ensures Concat(ls + [l]) == Concat(ls) + l
  {
    ConcatAppend(ls, [l]);
    assert [l][1..] == [] && Concat([l]) == l + Concat([l][1..]);
  }

  lemma ConcatAt(ls: seq<seq<byte>>, i: nat)
    requires i < |ls|
    ensures var lo := |Concat(ls[..i])|; lo + |ls[i]| <= |Concat(ls)| && Concat(ls)[lo..lo + |ls[i]|] == ls[i]
  {
    assert ls[..i + 1] == ls[..i] + [ls[i]] && ls == ls[..i + 1] + ls[i + 1..];
    ConcatSnoc(ls[..i], ls[i]);
    ConcatAppend(ls[..i + 1], ls[i + 1..]);
  }

  // ---------- the scan ----------

  /** bytes.find for the newline. */
  method FindNewline(data: seq<byte>, from: nat) returns (nl: int)
    requires from <= |data|
    ensures nl == -1 <==> NoNewline(data[from..])
    ensures nl != -1 ==> from <= nl < |data| && IsLine(data[from..nl + 1])
  {
    var i := from;
    while i < |data|
      invariant from <= i <= |data| && NoNewline(data[from..i])
    {
      if data[i] == NEWLINE {
        assert data[from..i + 1][..i - from] == data[from..i];
        assert data[from..][i - from] == NEWLINE;
        return i;
      }
      assert data[from..i + 1] == data[from..i] + [data[i]];
      i := i + 1;
    }
    assert data[from..i] == data[from..];
    nl := -1;
  }

  lemma ConcatLine(done: seq<seq<byte>>, data: seq<byte>, pos: nat, end: nat)
    requires pos <= end <= |data|
    ensures Concat(done + [data[pos..end]]) + data[end..] == Concat(done) + data[pos..]
    ensures |Concat(done + [data[pos..end]])| == |Concat(done)| + (end - pos)
  {
    ConcatSnoc(done, data[pos..end]);
    assert data[pos..] == data[pos..end] + data[end..];
  }

  /** The lines that end inside the buffer; `done0` and `done` are the lines finished before and
      after. */
  method ScanBuffer(data: seq<byte>, base: nat, rows0: nat, first0: seq<Span>, index0: nat, sample: int,
                    ghost done0: seq<seq<byte>>)
    returns (rows: nat, firstN: seq<Span>, index: nat, pos: nat, ghost done: seq<seq<byte>>)
    requires AllDone(done0) && |done0| == index0 && |Concat(done0)| == base && Tally(done0, sample) == Report(rows0, first0)
    ensures AllDone(done) && |done| == index && Tally(done, sample) == Report(rows, firstN)
    ensures pos <= |data| && NoNewline(data[pos..]) && Concat(done) + data[pos..] == Concat(done0) + data
  {
    rows, firstN, index, pos, done := rows0, first0, index0, 0, done0;
    var nl := FindNewline(data, pos);
    while nl != -1
      invariant pos <= |data| && (nl == -1 <==> NoNewline(data[pos..]))
      invariant nl != -1 ==> pos <= nl < |data| && IsLine(data[pos..nl + 1])
      invariant AllDone(done) && |done| == index && |Concat(done)| == base + pos
      invariant Tally(done, sample) == Report(rows, firstN)
      invariant Concat(done) + data[pos..] == Concat(done0) + data
      decreases |data| - pos
    {
      var line := data[pos..nl + 1];
      ConcatLine(done, data, pos, nl + 1);
      TallySnoc(done, line, sample);
      done := done + [line];
      if Nonblank(line) {
        rows := rows + 1;
        if index < sample { firstN := firstN + [Span(base + pos, nl + 1 - pos)]; }
      }
      index := index + 1;
      pos := nl + 1;
      nl := FindNewline(data, pos);
    }
  }

  /** The unfinished last line. */
  method ScanRest(carry: seq<byte>, offset: nat, rows0: nat, first0: seq<Span>, index: nat, sample: int,
                  ghost done: seq<seq<byte>>)
    returns (rows: nat, firstN: seq<Span>)
    requires NoNewline(carry) && AllDone(done) && |done| == index && offset == |Concat(done)| + |carry|
    requires Tally(done, sample) == Report(rows0, first0)
    ensures Report(rows, firstN) == Tally(Split(Concat(done) + carry), sample)
  {
    rows, firstN := rows0, first0;
    SplitOfDone(done, carry);
    TallySnoc(done, carry, sample);
    assert done + [] == done;
    if carry != [] && Nonblank(carry) {
      rows := rows + 1;
      if index < sample { firstN := firstN + [Span(offset - |carry|, |carry|)]; }
    }
  }

  /** Reading a chunk takes it off the unread text. */
  lemma NextRead(chunks: seq<seq<byte>>, i: nat)
    requires i < |chunks|
    ensures Concat(chunks[i..]) == chunks[i] + Concat(chunks[i + 1..])
  {
    assert chunks[i..][1..] == chunks[i + 1..];
  }

  /** py_scan_only over the reads of a file. Whatever the reads, it reports on the lines of the
      whole text, by their places in the whole text. */
  method ScanOnly(chunks: seq<seq<byte>>, sample: int) returns (rows: nat, firstN: seq<Span>, bytes: nat)
    ensures Report(rows, firstN) == Tally(Split(Concat(chunks)), sample) && bytes == |Concat(chunks)|
  {
    rows, firstN := 0, [];
    var index: nat, carry: seq<byte>, offset: nat, i: nat := 0, [], 0, 0;
    ghost var done: seq<seq<byte>> := [];
    assert chunks[0..] == chunks;
    while i < |chunks|
      invariant i <= |chunks| && NoNewline(carry) && AllDone(done) && |done| == index
      invariant offset == |Concat(done)| + |carry| && Tally(done, sample) == Report(rows, firstN)
      invariant (Concat(done) + carry) + Concat(chunks[i..]) == Concat(chunks)
    {
      var chunk := chunks[i];
      var data := carry + chunk;
      ghost var before := Concat(done);
      var pos;
      rows, firstN, index, pos, done := ScanBuffer(data, offset - |carry|, rows, firstN, index, sample, done);
      NextRead(chunks, i);
      Regroup(before, carry, chunk);
      Regroup(before + carry, chunk, Concat(chunks[i + 1..]));
      carry := data[pos..];
      offset := offset + |chunk|;
      i := i + 1;
    }
    assert chunks[i..] == [];
    assert (Concat(done) + carry) + [] == Concat(done) + carry;
    rows, firstN := ScanRest(carry, offset, rows, firstN, index, sample, done);
    bytes := offset;
  }
}
