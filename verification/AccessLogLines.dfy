/** The line reader of the access-log tailer: `readLines`, and what it should have read. */
module AccessLogLines {
  import opened Text

  /** A Go string is a sequence of bytes; here each `char` stands for one byte. */
  type Bytes = string

  const LF: char := '\n'
  const CR: char := '\r'

  /** maxPartialLine */
  const MAX_PARTIAL_LINE: nat := 0x10_0000

  /** A lineRecord before it is stamped: the text and the file offset just after its newline. */
  datatype Record = Record(line: Bytes, end: nat)

  /** The first newline at or after `k`, or |s|. */
  function FindLF(s: Bytes, k: nat): (i: nat)
    requires k <= |s|
    ensures k <= i <= |s|
    ensures i < |s| ==> s[i] == LF
    ensures forall j :: k <= j < i ==> s[j] != LF
  {
    IndexFrom(s, LF, k)
  }

  predicate HasLF(s: Bytes) {
    FindLF(s, 0) < |s|
  }

  function TrimCR(s: Bytes): Bytes {
    if s != [] && s[|s| - 1] == CR then s[..|s| - 1] else s
  }

  // ----- the reference: the lines of a file, by where their newlines are

  /** The start of the line that position `k` is on. */
  function LineStart(file: Bytes, k: nat): (p: nat)
    requires k <= |file|
    ensures p <= k && Boundary(file, p)
    ensures forall j :: p <= j < k ==> file[j] != LF
  {
    if k == 0 || file[k - 1] == LF then k else LineStart(file, k - 1)
  }

  predicate Boundary(file: Bytes, n: nat) {
    n <= |file| && (n == 0 || file[n - 1] == LF)
  }

  function LineAt(file: Bytes, k: nat): Record
    requires k < |file|
  {
    Record(TrimCR(file[LineStart(file, k)..k]), k + 1)
  }

  /** The lines whose newline lies in [lo, hi). */
  function Lines(file: Bytes, lo: nat, hi: nat): seq<Record>
    requires lo <= hi <= |file|
    decreases hi
  {
    if lo == hi then []
    else if file[hi - 1] == LF then Lines(file, lo, hi - 1) + [LineAt(file, hi - 1)]
    else Lines(file, lo, hi - 1)
  }

  /** No line that ends at or after `lo` exceeds the reader's bound, newline included. */
  ghost predicate AllShort(file: Bytes, lo: nat) {
    forall j :: lo <= j < |file| && file[j] == LF ==> j + 1 - LineStart(file, j) <= 0x10_0000
  }

  lemma {:induction false} LinesSplit(file: Bytes, lo: nat, mid: nat, hi: nat)
    requires lo <= mid <= hi <= |file|
    ensures Lines(file, lo, hi) == Lines(file, lo, mid) + Lines(file, mid, hi)
    decreases hi
  {
    if mid < hi {
      LinesSplit(file, lo, mid, hi - 1);
    }
  }

  lemma {:induction false} NoLines(file: Bytes, lo: nat, hi: nat)
    requires lo <= hi <= |file|
    requires forall j :: lo <= j < hi ==> file[j] != LF
    ensures Lines(file, lo, hi) == []
    decreases hi
  {
    if lo < hi {
      NoLines(file, lo, hi - 1);
    }
  }

  lemma {:induction false} StartUnique(file: Bytes, p: nat, k: nat)
    requires p <= k <= |file| && Boundary(file, p)
    requires forall j :: p <= j < k ==> file[j] != LF
    ensures LineStart(file, k) == p
    decreases k
  {
    if p < k {
      StartUnique(file, p, k - 1);
    }
  }

  /** From a line boundary, the first line is what lies before the next newline. */
  lemma NextLine(file: Bytes, lo: nat)
    requires Boundary(file, lo) && FindLF(file, lo) < |file|
    ensures var i := FindLF(file, lo);
      && LineStart(file, i) == lo
      && Boundary(file, i + 1)
      && Lines(file, lo, |file|) == [Record(TrimCR(file[lo..i]), i + 1)] + Lines(file, i + 1, |file|)
  {
    var i := FindLF(file, lo);
    StartUnique(file, lo, i);
    NoLines(file, lo, i);
    LinesSplit(file, lo, i + 1, |file|);
  }

  lemma NoMoreLines(file: Bytes, lo: nat)
    requires Boundary(file, lo) && FindLF(file, lo) == |file|
    ensures Lines(file, lo, |file|) == [] && LineStart(file, |file|) == lo && AllShort(file, lo)
  {
    NoLines(file, lo, |file|);
    StartUnique(file, lo, |file|);
  }

  /** What is appended never changes the lines already there. */
  lemma {:induction false} LinesGrow(file: Bytes, more: Bytes, lo: nat, hi: nat)
    requires lo <= hi <= |file|
    ensures Lines(file + more, lo, hi) == Lines(file, lo, hi)
    decreases hi
  {
    if lo < hi {
      LinesGrow(file, more, lo, hi - 1);
      var k := hi - 1;
      var p := LineStart(file, k);
      StartUnique(file + more, p, k);
      assert (file + more)[p..k] == file[p..k];
    }
  }

  /** Line ends lie just after a newline of the range and increase strictly. */
  lemma {:induction false} LinesEnds(file: Bytes, lo: nat, hi: nat)
    requires lo <= hi <= |file|
    ensures forall r :: r in Lines(file, lo, hi) ==> lo < r.end <= hi && file[r.end - 1] == LF
    ensures forall i, j :: 0 <= i < j < |Lines(file, lo, hi)| ==> Lines(file, lo, hi)[i].end < Lines(file, lo, hi)[j].end
    decreases hi
  {
    if lo < hi {
      LinesEnds(file, lo, hi - 1);
      var front := Lines(file, lo, hi - 1);
      assert forall i :: 0 <= i < |front| ==> front[i] in front;
    }
  }

  /** Cutting the range after the k-th line cuts the list of lines after its k-th entry. */
  lemma LinesCut(file: Bytes, lo: nat, hi: nat, k: nat)
    requires lo <= hi <= |file| && 0 < k <= |Lines(file, lo, hi)|
    ensures var e := Lines(file, lo, hi)[k - 1].end;
      && lo < e <= hi && Boundary(file, e)
      && Lines(file, lo, e) == Lines(file, lo, hi)[..k]
      && Lines(file, e, hi) == Lines(file, lo, hi)[k..]
  {
    var all := Lines(file, lo, hi);
    var e := all[k - 1].end;
    LinesEnds(file, lo, hi);
    assert all[k - 1] in all;
    LinesSplit(file, lo, e, hi);
    var front := Lines(file, lo, e);
    var n := |front|;
    assert front[n - 1].end == e && all[n - 1] == front[n - 1];
    assert n == k;
  }

  // ----- the code: one call of readLines

  datatype Scanned = Scanned(records: seq<Record>, next: nat, partial: Bytes)

  /** The bound on unterminated text: everything through the first newline goes, or all of it. */
  function Bounded(data: Bytes): (d: Bytes)
    ensures |d| <= |data|
    ensures |data| > MAX_PARTIAL_LINE ==> |d| < |data|
  {
    if |data| <= MAX_PARTIAL_LINE then data else
      var i := FindLF(data, 0);
      if i < |data| then data[i + 1..] else []
  }

  function Sub(a: nat, b: nat): nat { if a < b then 0 else a - b }

  /** Where bufio.Reader.ReadString('\n') stops: after the newline, or at the end of the file. */
  function PartEnd(file: Bytes, pos: nat): (e: nat)
    requires pos <= |file|
    ensures pos <= e <= |file|
    ensures FindLF(file, pos) < |file| ==> pos < e && file[e - 1] == LF
  {
    var i := FindLF(file, pos);
    if i < |file| then i + 1 else |file|
  }

  /** The loop variables of readLines, with the position of its buffered reader. */
  datatype Reader = Reader(pos: nat, next: nat, data: Bytes, pendingLen: nat)

  datatype Turn = Emit(record: Record, r: Reader) | Skip(r: Reader) | Eof(partial: Bytes)

  /** The end of a turn, on the text held once the bound has been applied. */
  function Consume(r: Reader, eof: bool): (t: Turn)
    ensures !t.Eof? ==> t.r.pos == r.pos && |t.r.data| <= |r.data|
    ensures t.Emit? ==> |t.r.data| < |r.data|
    ensures t.Skip? <==> !eof && !HasLF(r.data)
  {
    var i := FindLF(r.data, 0);
    if i < |r.data| then
      var next := r.next + Sub(i + 1, r.pendingLen);
      Emit(Record(TrimCR(r.data[..i]), next), Reader(r.pos, next, r.data[i + 1..], Sub(r.pendingLen, i + 1)))
    else if eof then Eof(r.data)
    else Skip(r)
  }

  lemma ConsumeCases(r: Reader, eof: bool)
    ensures var i := FindLF(r.data, 0);
      var next := r.next + Sub(i + 1, r.pendingLen);
      Consume(r, eof) ==
        if i < |r.data| then Emit(Record(TrimCR(r.data[..i]), next), Reader(r.pos, next, r.data[i + 1..], Sub(r.pendingLen, i + 1)))
        else if eof then Eof(r.data)
        else Skip(r)
  {
    hide Sub, TrimCR, FindLF;
  }

  /** One turn of the loop. */
  function TurnOf(file: Bytes, r: Reader): (t: Turn)
    requires r.pos <= |file|
    ensures !t.Eof? ==>
      && t.r.pos <= |file|
      && |file| - t.r.pos + |t.r.data| < |file| - r.pos + |r.data|
  {
    var e := PartEnd(file, r.pos);
    var data := r.data + file[r.pos..e];
    assert FindLF(file, r.pos) < |file| ==> data[|data| - 1] == LF;
    Consume(r.(pos := e, data := Bounded(data)), FindLF(file, r.pos) == |file|)
  }

  /** What the loop produces from its current variables. */
  function Scan(file: Bytes, r: Reader): Scanned
    requires r.pos <= |file|
    decreases |file| - r.pos + |r.data|
  {
    match TurnOf(file, r)
    case Emit(record, r') => var s := Scan(file, r'); s.(records := [record] + s.records)
    case Skip(r') => Scan(file, r')
    case Eof(partial) => Scanned([], r.next, partial)
  }

  /** A call of readLines with the cursor inside the file. */
  function Poll(file: Bytes, offset: nat, pending: Bytes): Scanned
    requires offset <= |file|
  {
    Scan(file, Reader(offset, offset, pending, |pending|))
  }

  /** Seeking past the end of the file reads nothing. */
  function SeekTo(file: Bytes, offset: nat): (pos: nat)
    ensures pos <= |file|
  {
    if offset <= |file| then offset else |file|
  }

  /** The scan, one turn at a time. */
  lemma ScanTurn(file: Bytes, r: Reader)
    requires r.pos <= |file|
    ensures var held := r.(pos := PartEnd(file, r.pos), data := Bounded(r.data + file[r.pos..PartEnd(file, r.pos)]));
      var i := FindLF(held.data, 0);
      if i < |held.data| then
        var next := r.next + Sub(i + 1, r.pendingLen);
        var s := Scan(file, Reader(held.pos, next, held.data[i + 1..], Sub(r.pendingLen, i + 1)));
        Scan(file, r) == s.(records := [Record(TrimCR(held.data[..i]), next)] + s.records)
      else if FindLF(file, r.pos) == |file| then Scan(file, r) == Scanned([], r.next, held.data)
      else Scan(file, r) == Scan(file, held) && |file| - held.pos + |held.data| < |file| - r.pos + |r.data|
  {
    hide Bounded, FindLF, TrimCR, Sub, PartEnd, Consume, TurnOf;
    TurnConsumes(file, r);
    ConsumeCases(r.(pos := PartEnd(file, r.pos), data := Bounded(r.data + file[r.pos..PartEnd(file, r.pos)])),
                 FindLF(file, r.pos) == |file|);
  }

  lemma TurnConsumes(file: Bytes, r: Reader)
    requires r.pos <= |file|
    ensures var e := PartEnd(file, r.pos);
      TurnOf(file, r) == Consume(r.(pos := e, data := Bounded(r.data + file[r.pos..e])), FindLF(file, r.pos) == |file|)
  {
    hide Bounded, FindLF, PartEnd, Consume;
  }

  method ReadLines(file: Bytes, offset: nat, pending: Bytes) returns (out: seq<Record>, next: nat, partial: Bytes)
    ensures offset <= |file| ==> Scanned(out, next, partial) == Poll(file, offset, pending)
    ensures offset > |file| ==> Scanned(out, next, partial) == Scan(file, Reader(|file|, offset, pending, |pending|))
  {
    hide Scan, TrimCR, Bounded, Sub, FindLF;
    var pos: nat := SeekTo(file, offset);
    next := offset;
    var data := pending;
    var pendingLen: nat := |pending|;
    out := [];
    ghost var whole := Scan(file, Reader(pos, next, data, pendingLen));
    while true
      invariant pos <= |file|
      invariant var s := Scan(file, Reader(pos, next, data, pendingLen));
        whole == s.(records := out + s.records)
      decreases |file| - pos + |data|
    {
      ScanTurn(file, Reader(pos, next, data, pendingLen));
      var e, eof := PartEnd(file, pos), FindLF(file, pos) == |file|;
      data := Bounded(data + file[pos..e]);
      pos := e;
      var i := FindLF(data, 0);
      if i < |data| {
        var line := TrimCR(data[..i]);
        var prefixBytes := i + 1;
        next := next + Sub(prefixBytes, pendingLen);
        pendingLen := Sub(pendingLen, prefixBytes);
        data := data[prefixBytes..];
        ghost var more := Scan(file, Reader(pos, next, data, pendingLen)).records;
        assert out + ([Record(line, next)] + more) == out + [Record(line, next)] + more;
        out := out + [Record(line, next)];
        continue;
      }
      if eof {
        return out, next, data;
      }
    }
  }

  // ----- when the code reads the reference

  /** What `Run` can hold: unterminated text only ever came from the line at the cursor, so it
      carries no newline, and that line does not start with one. */
  predicate Carried(pending: Bytes, file: Bytes, offset: nat) {
    && !HasLF(pending)
    && (pending != [] ==> offset < |file| && file[offset] != LF)
  }

  /** The poll that reads exactly the lines of the file. */
  ghost predicate Faithful(pending: Bytes, file: Bytes, offset: nat)
    requires offset <= |file|
  {
    FindLF(file, offset) == |file| || (pending == [] && AllShort(file, offset))
  }

  lemma FirstLF(line: Bytes)
    requires !HasLF(line)
    ensures FindLF(line + [LF], 0) == |line|
  {
    assert (line + [LF])[|line|] == LF;
  }

  lemma LastCut(line: Bytes)
    ensures (line + [LF])[..|line|] == line && (line + [LF])[|line| + 1..] == []
  {
  }

  /** One terminated line, before and after the bound. */
  lemma TerminatedLine(line: Bytes)
    requires !HasLF(line)
    ensures FindLF(line + [LF], 0) == |line|
    ensures (line + [LF])[..|line|] == line && (line + [LF])[|line| + 1..] == []
    ensures Bounded(line + [LF]) == if |line| < MAX_PARTIAL_LINE then line + [LF] else []
  {
    hide HasLF, FindLF;
    FirstLF(line);
    LastCut(line);
  }

  lemma NoLFConcat(a: Bytes, file: Bytes, pos: nat, i: nat)
    requires !HasLF(a) && pos <= i <= |file|
    requires forall j :: pos <= j < i ==> file[j] != LF
    ensures !HasLF(a + file[pos..i])
  {
  }

  lemma SliceEnd(a: Bytes, file: Bytes, p: nat, i: nat)
    requires p <= i < |file|
    ensures a + file[p..i + 1] == a + file[p..i] + [file[i]]
  {
    assert file[p..i + 1] == file[p..i] + [file[i]];
  }

  /** Reading the rest of a line, the turn holds the whole line, or nothing when it is over-long. */
  lemma TurnHolds(file: Bytes, r: Reader)
    requires r.pos <= |file| && FindLF(file, r.pos) < |file|
    ensures var i := FindLF(file, r.pos);
      TurnOf(file, r) == Consume(r.(pos := i + 1, data := Bounded(r.data + file[r.pos..i] + [LF])), false)
  {
    hide Bounded, FindLF, Consume;
    var i := FindLF(file, r.pos);
    SliceEnd(r.data, file, r.pos, i);
    assert PartEnd(file, r.pos) == i + 1;
    var data := r.data + file[r.pos..i] + [LF];
    assert TurnOf(file, r) == Consume(r.(pos := i + 1, data := Bounded(data)), false);
  }

  /** The turn that meets a complete line, with text carried in front of it. */
  lemma TurnLine(file: Bytes, r: Reader)
    requires r.pos <= |file| && FindLF(file, r.pos) < |file| && !HasLF(r.data)
    ensures var i := FindLF(file, r.pos);
      var size := |r.data + file[r.pos..i]| + 1;
      var next := r.next + Sub(size, r.pendingLen);
      TurnOf(file, r) ==
        if size <= MAX_PARTIAL_LINE
        then Emit(Record(TrimCR(r.data + file[r.pos..i]), next), Reader(i + 1, next, [], Sub(r.pendingLen, size)))
        else Skip(Reader(i + 1, r.next, [], r.pendingLen))
  {
    hide Sub, TrimCR, Bounded, FindLF, Consume, TurnOf;
    var i := FindLF(file, r.pos);
    var line := r.data + file[r.pos..i];
    NoLFConcat(r.data, file, r.pos, i);
    TerminatedLine(line);
    TurnHolds(file, r);
    var held := r.(pos := i + 1, data := Bounded(line + [LF]));
    ConsumeCases(held, false);
  }

  lemma TurnTail(file: Bytes, r: Reader)
    requires r.pos <= |file| && FindLF(file, r.pos) == |file| && !HasLF(r.data)
    ensures TurnOf(file, r) == var d := r.data + file[r.pos..]; Eof(if |d| <= MAX_PARTIAL_LINE then d else [])
  {
    NoLFConcat(r.data, file, r.pos, |file|);
    assert file[r.pos..|file|] == file[r.pos..];
  }

  /** No text carried over and only short lines: exactly the lines, and the cursor after them. */
  lemma {:induction false} ScanWhole(file: Bytes, pos: nat, pendingLen: nat)
    requires Boundary(file, pos) && AllShort(file, pos) && pendingLen == 0
    ensures var s := Scan(file, Reader(pos, pos, [], pendingLen));
      && s.records == Lines(file, pos, |file|)
      && s.next == LineStart(file, |file|)
      && (s.partial == file[LineStart(file, |file|)..] || s.partial == [])
    decreases |file| - pos
  {
    hide TurnOf, TrimCR, Lines, LineStart, FindLF;
    var r := Reader(pos, pos, [], pendingLen);
    if FindLF(file, pos) == |file| {
      NoMoreLines(file, pos);
      TurnTail(file, r);
      assert [] + file[pos..] == file[pos..];
    } else {
      NextLine(file, pos);
      TurnLine(file, r);
      var i := FindLF(file, pos);
      assert [] + file[pos..i] == file[pos..i];
      ScanWhole(file, i + 1, Sub(0, i + 1 - pos));
    }
  }

  /** An over-long line is dropped, so fewer records come out than there are lines. */
  lemma {:induction false} ScanCount(file: Bytes, r: Reader)
    requires Boundary(file, r.pos) && !HasLF(r.data)
    ensures var n, m := |Scan(file, r).records|, |Lines(file, r.pos, |file|)|;
      && n <= m
      && (r.data == [] && !AllShort(file, r.pos) ==> n < m)
      && (FindLF(file, r.pos) < |file| && |r.data| + FindLF(file, r.pos) - r.pos + 1 > MAX_PARTIAL_LINE ==> n < m)
    decreases |file| - r.pos
  {
    hide TurnOf, TrimCR, Lines, LineStart, FindLF;
    if FindLF(file, r.pos) == |file| {
      NoMoreLines(file, r.pos);
      TurnTail(file, r);
    } else {
      NextLine(file, r.pos);
      TurnLine(file, r);
      ScanCount(file, TurnOf(file, r).r);
      ShortFrom(file, r.pos);
    }
  }

  lemma ShortFrom(file: Bytes, pos: nat)
    requires Boundary(file, pos) && FindLF(file, pos) < |file|
    ensures var i := FindLF(file, pos);
      AllShort(file, pos) <==> i + 1 - pos <= MAX_PARTIAL_LINE && AllShort(file, i + 1)
  {
    NextLine(file, pos);
  }

  /** The content of a poll is right exactly when no newline arrived, or the previous poll
      left no partial line behind and no line is over-long. */
  lemma PollContentIff(file: Bytes, offset: nat, pending: Bytes)
    requires Boundary(file, offset) && Carried(pending, file, offset)
    ensures Poll(file, offset, pending).records == Lines(file, offset, |file|) <==> Faithful(pending, file, offset)
  {
    hide TurnOf, Lines, LineStart;
    var r := Reader(offset, offset, pending, |pending|);
    if FindLF(file, offset) == |file| {
      NoMoreLines(file, offset);
      TurnTail(file, r);
    } else if pending == [] {
      if AllShort(file, offset) {
        ScanWhole(file, offset, 0);
      } else {
        ScanCount(file, r);
      }
    } else {
      NextLine(file, offset);
      TurnLine(file, r);
      ScanCount(file, r);
      var line := file[offset..FindLF(file, offset)];
      assert (pending + line)[|pending| + |line| - 1] == line[|line| - 1];
      assert |TrimCR(pending + line)| == |pending| + |TrimCR(line)|;
      if |pending + line| < MAX_PARTIAL_LINE {
        assert Scan(file, r).records[0].line == TrimCR(pending + line);
        assert Lines(file, offset, |file|)[0].line == TrimCR(line);
      }
    }
  }

  /** Lines still fit after the carried text is put in front of the first one. */
  ghost predicate FitAfter(pending: Bytes, file: Bytes, offset: nat)
    requires offset <= |file|
  {
    var i := FindLF(file, offset);
    i < |file| ==> |pending| + (i - offset) + 1 <= 0x10_0000 && AllShort(file, i + 1)
  }

  /** Offsets survive partial reads: with any carried text, the number of records, their end
      offsets and the next cursor are those of the file, although the first line's text is
      wrong when something was carried. */
  lemma PollOffsets(file: Bytes, offset: nat, pending: Bytes)
    requires Boundary(file, offset) && !HasLF(pending) && FitAfter(pending, file, offset)
    ensures var s, lines := Poll(file, offset, pending), Lines(file, offset, |file|);
      && |s.records| == |lines|
      && (forall k :: 0 <= k < |lines| ==> s.records[k].end == lines[k].end)
      && (forall k :: 0 < k < |lines| ==> s.records[k] == lines[k])
      && s.next == LineStart(file, |file|)
      && !HasLF(s.partial)
  {
    hide TurnOf, TrimCR, Lines, LineStart;
    var r := Reader(offset, offset, pending, |pending|);
    var p := LineStart(file, |file|);
    NoLFConcat(pending, file, offset, FindLF(file, offset));
    NoLFConcat([], file, p, |file|);
    assert [] + file[p..|file|] == file[p..];
    if FindLF(file, offset) == |file| {
      NoMoreLines(file, offset);
      TurnTail(file, r);
      assert file[offset..|file|] == file[offset..];
    } else {
      NextLine(file, offset);
      TurnLine(file, r);
      ScanWhole(file, FindLF(file, offset) + 1, 0);
    }
  }

  /** A scan advances the cursor by at most what lies before the unterminated tail, and by less
      when it drops a line: a dropped line does not count. */
  lemma {:induction false} ScanAdvance(file: Bytes, r: Reader)
    requires Boundary(file, r.pos) && !HasLF(r.data) && |r.data| <= r.pendingLen
    ensures var gain := Scan(file, r).next - r.next; var all := LineStart(file, |file|) - r.pos;
      && gain <= all
      && (r.data == [] && !AllShort(file, r.pos) ==> gain < all)
      && (FindLF(file, r.pos) < |file| && |r.data| + FindLF(file, r.pos) - r.pos + 1 > MAX_PARTIAL_LINE ==> gain < all)
      && (FindLF(file, r.pos) < |file| && !AllShort(file, FindLF(file, r.pos) + 1) ==> gain < all)
    decreases |file| - r.pos
  {
    hide TurnOf, TrimCR, Lines, LineStart, FindLF;
    if FindLF(file, r.pos) == |file| {
      NoMoreLines(file, r.pos);
      TurnTail(file, r);
    } else {
      NextLine(file, r.pos);
      TurnLine(file, r);
      ScanAdvance(file, TurnOf(file, r).r);
      ShortFrom(file, r.pos);
    }
  }

  /** The cursor a poll returns is the start of the unterminated tail exactly when every complete
      line fits the reader's bound, the first one together with the text carried in front of it.
      Otherwise a line is dropped, the cursor falls short by its length, and every end offset
      reported after it is too small. */
  lemma PollCursorIff(file: Bytes, offset: nat, pending: Bytes)
    requires Boundary(file, offset) && !HasLF(pending)
    ensures Poll(file, offset, pending).next == LineStart(file, |file|) <==> FitAfter(pending, file, offset)
    ensures Poll(file, offset, pending).next <= LineStart(file, |file|)
  {
    hide Lines, LineStart, FindLF, Scan, AllShort, HasLF;
    ScanAdvance(file, Reader(offset, offset, pending, |pending|));
    if FitAfter(pending, file, offset) {
      PollOffsets(file, offset, pending);
    }
  }

  /** What a poll hands on: nothing, the unterminated tail, or, when no newline arrived, that
      tail behind what was already carried. */
  lemma PollPartial(file: Bytes, offset: nat, pending: Bytes)
    requires Boundary(file, offset) && !HasLF(pending) && FitAfter(pending, file, offset)
    ensures var partial := Poll(file, offset, pending).partial;
      || partial == []
      || partial == file[LineStart(file, |file|)..]
      || (FindLF(file, offset) == |file| && partial == pending + file[offset..])
  {
    hide TurnOf, TrimCR, Lines, LineStart, FindLF;
    var r := Reader(offset, offset, pending, |pending|);
    if FindLF(file, offset) == |file| {
      TurnTail(file, r);
    } else {
      NextLine(file, offset);
      TurnLine(file, r);
      ScanWhole(file, FindLF(file, offset) + 1, 0);
    }
  }

  lemma FaithfulFits(file: Bytes, offset: nat, pending: Bytes)
    requires Boundary(file, offset) && Faithful(pending, file, offset)
    ensures FitAfter(pending, file, offset)
  {
    if FindLF(file, offset) < |file| { ShortFrom(file, offset); }
  }

  /** What `Run` carries from poll to poll keeps its shape while the file grows, and across every
      poll whose lines fit. */
  lemma CarriedKept(file: Bytes, offset: nat, pending: Bytes, grown: Bytes)
    requires Boundary(file, offset) && Carried(pending, file, offset)
    ensures Carried(pending, file + grown, offset)
    ensures FitAfter(pending, file, offset) ==>
      Carried(Poll(file, offset, pending).partial, file, LineStart(file, |file|))
  {
    hide Poll, Lines, LineStart, FindLF, HasLF, FitAfter;
    if FitAfter(pending, file, offset) {
      PollPartial(file, offset, pending);
      PollOffsets(file, offset, pending);
      if FindLF(file, offset) == |file| {
        NoMoreLines(file, offset);
      }
    }
  }

  lemma FirstPoll()
    ensures Poll("ab", 0, "") == Scanned([], 0, "ab")
  {
    hide TurnOf;
    TurnTail("ab", Reader(0, 0, "", 0));
    assert "" + "ab"[0..] == "ab";
  }

  lemma SecondPoll()
    ensures Poll("abc\n", 0, "ab").records == [Record("ababc", 4)]
  {
    hide TurnOf;
    var file := "abc\n";
    assert FindLF(file, 2) == FindLF(file, 3) == 3;
    assert file[0..3] == "abc" && "ab" + "abc" == "ababc";
    TurnLine(file, Reader(0, 0, "ab", 2));
    assert TurnOf(file, Reader(0, 0, "ab", 2)) == Emit(Record("ababc", 4), Reader(4, 4, "", 0));
    TurnTail(file, Reader(4, 4, "", 0));
  }

  lemma OnlyLine()
    ensures Lines("abc\n", 0, 4) == [Record("abc", 4)]
  {
    var file := "abc\n";
    assert FindLF(file, 2) == FindLF(file, 3) == 3;
    assert file[0..3] == "abc";
    NextLine(file, 0);
    NoMoreLines(file, 4);
  }

  /** Concretely: "ab" is polled before "c\n" arrives. The next poll reports the line "ababc"
      for the file "abc\n", with the right end offset. */
  lemma PartialReadGarbles()
    ensures var first := Poll("ab", 0, "");
      var second := Poll("abc\n", first.next, first.partial);
      && second.records == [Record("ababc", 4)]
      && Lines("abc\n", 0, 4) == [Record("abc", 4)]
  {
    hide Poll, Lines;
    FirstPoll();
    SecondPoll();
    OnlyLine();
  }

  // ----- an over-long line

  /** A line of the reader's bound, so one byte too long with its newline, then a short one. */
  function Overlong(x: Bytes): Bytes {
    x + [LF] + "ab" + [LF]
  }

  lemma OverlongShape(x: Bytes)
    requires |x| == MAX_PARTIAL_LINE && !HasLF(x)
    ensures var file := Overlong(x); var n := |x|;
      && |file| == n + 4 && file[n] == LF && file[n + 1..n + 3] == "ab" && file[n + 3] == LF
      && FindLF(file, 0) == FindLF(file, 3) == n && FindLF(file, n + 1) == n + 3 && FindLF(file, n + 4) == |file|
      && file[..n] == x && file[3..n] == x[3..] && !Boundary(file, 3) && file[n + 4..] == []
  {
    var file, n := Overlong(x), |x|;
    assert forall j :: 0 <= j < n ==> file[j] == x[j];
    assert file[n] == LF && file[n + 1] == 'a' && file[n + 2] == 'b' && file[n + 3] == LF;
  }

  /** The rest of the file, from the start of the short line. */
  lemma ShortLine(x: Bytes, next: nat)
    requires |x| == MAX_PARTIAL_LINE && !HasLF(x)
    ensures Scan(Overlong(x), Reader(|x| + 1, next, [], 0)) == Scanned([Record("ab", next + 3)], next + 3, [])
  {
    hide TurnOf, FindLF, Overlong;
    var file, n := Overlong(x), |x|;
    OverlongShape(x);
    TurnLine(file, Reader(n + 1, next, [], 0));
    assert [] + file[n + 1..n + 3] == "ab";
    TurnTail(file, Reader(n + 4, next + 3, [], 0));
    assert [] + file[n + 4..] == [];
  }

  /** Concretely: the first poll drops the over-long line, reports the short one with an end
      offset inside the dropped line and leaves the cursor there. The next poll reports the rest
      of the dropped line as a line, and the short one again under another offset, so as another
      event. */
  lemma OverlongRepeats(x: Bytes)
    requires |x| == MAX_PARTIAL_LINE && !HasLF(x)
    ensures var file := Overlong(x);
      && Poll(file, 0, "") == Scanned([Record("ab", 3)], 3, "") && !Boundary(file, 3)
      && Poll(file, 3, "").records == [Record(TrimCR(x[3..]), |x| + 1), Record("ab", |x| + 4)]
  {
    hide TurnOf, FindLF, Overlong, TrimCR, Boundary;
    var file, n := Overlong(x), |x|;
    OverlongShape(x);
    TurnLine(file, Reader(0, 0, [], 0));
    assert [] + file[0..n] == x;
    ShortLine(x, 0);
    TurnLine(file, Reader(3, 3, [], 0));
    assert [] + file[3..n] == x[3..];
    ShortLine(x, n + 1);
  }
}
