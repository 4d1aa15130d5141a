/** The bounded private log: one current file, one backup, appended and rotated under a lock. */
module LogRotation {
  import opened Sequences

  // ---------------------------------------------------------------- one append

  /** A byte in the middle of an encoded character. */
  predicate IsContinuation(b: byte) {
    128 <= b < 192
  }

  /** Where a text is cut to fit: never inside a character. */
  function CutAt(data: Bytes, limit: nat): (k: nat)
    requires limit < |data|
    ensures k <= limit
    ensures k == 0 || !IsContinuation(data[k])
    ensures forall j | k < j <= limit :: IsContinuation(data[j])
    decreases limit
  {
    if limit == 0 || !IsContinuation(data[limit]) then limit else CutAt(data, limit - 1)
  }

  function Clipped(data: Bytes, maxBytes: nat): (r: Bytes)
    ensures |r| <= maxBytes && r <= data
    ensures |data| <= maxBytes ==> r == data
    ensures |data| > maxBytes ==>
              && (r == [] || !(128 <= data[|r|] < 192))
              && forall j | |r| < j <= maxBytes :: 128 <= data[j] < 192
  {
    if |data| > maxBytes then data[..CutAt(data, maxBytes)] else data
  }

  datatype Files = Files(backup: Bytes, current: Bytes)

  function Append(f: Files, data: Bytes, maxBytes: nat): Files {
    var record := Clipped(data, maxBytes);
    if |f.current| + |record| > maxBytes then Files(f.current, record)
    else Files(f.backup, f.current + record)
  }

  /** The file pair; an absent file is an empty one. */
  class PrivateLog {
    const maxBytes: nat
    var backup: Bytes
    var current: Bytes

    constructor (maxBytes: nat)
      ensures this.maxBytes == maxBytes && backup == [] && current == []
    {
      this.maxBytes := maxBytes;
      backup, current := [], [];
    }

    /** `append_private`, one locked section. */
    method AppendPrivate(text: Bytes)
      modifies this
      ensures Files(backup, current) == Append(Files(old(backup), old(current)), text, maxBytes)
    {
      var data := text;
      if |data| > maxBytes {
        data := data[..CutAt(data, maxBytes)];
      }
      if |current| + |data| > maxBytes {
        backup := current;
        current := [];
        assert [] + data == data;
      }
      current := current + data;
    }
  }

  // ---------------------------------------------------------------- every run

  function FilesAfter(start: Files, writes: seq<Bytes>, maxBytes: nat): Files
    decreases |writes|
  {
    if writes == [] then start
    else Append(FilesAfter(start, writes[..|writes| - 1], maxBytes), writes[|writes| - 1], maxBytes)
  }

  /** Whether some append has moved the current file aside. */
  function Rotated(start: Files, writes: seq<Bytes>, maxBytes: nat): bool
    decreases |writes|
  {
    if writes == [] then false
    else
      var before := FilesAfter(start, writes[..|writes| - 1], maxBytes);
      Rotated(start, writes[..|writes| - 1], maxBytes) ||
      |before.current| + |Clipped(writes[|writes| - 1], maxBytes)| > maxBytes
  }

  /** Everything ever written: what was there, then one record per append. */
  function History(start: Files, writes: seq<Bytes>, maxBytes: nat): seq<Bytes> {
    [start.backup, start.current] + seq(|writes|, i requires 0 <= i < |writes| => Clipped(writes[i], maxBytes))
  }

  lemma HistoryGrows(start: Files, writes: seq<Bytes>, w: Bytes, maxBytes: nat)
    ensures History(start, writes + [w], maxBytes) == History(start, writes, maxBytes) + [Clipped(w, maxBytes)]
  {
  }

  /** The files are two adjacent runs of whole records, up to the newest record. */
  ghost predicate HoldsRecords(f: Files, history: seq<Bytes>, k: nat, j: nat) {
    && k <= j < |history| && 1 <= j
    && f.backup == Concat(history[k..j]) && f.current == Concat(history[j..])
  }

  lemma StartHolds(start: Files, maxBytes: nat)
    ensures HoldsRecords(start, History(start, [], maxBytes), 0, 1)
  {
    var h := History(start, [], maxBytes);
    assert h == [start.backup, start.current];
    assert h[0..1] == [start.backup] && h[1..] == [start.current];
    ConcatOne(start.backup);
    ConcatOne(start.current);
  }

  lemma AppendHolds(f: Files, history: seq<Bytes>, k: nat, j: nat, w: Bytes, maxBytes: nat) returns (k': nat, j': nat)
    requires HoldsRecords(f, history, k, j)
    ensures HoldsRecords(Append(f, w, maxBytes), history + [Clipped(w, maxBytes)], k', j')
    ensures if |f.current| + |Clipped(w, maxBytes)| > maxBytes then k' == j && j' == |history| else k' == k && j' == j
  {
    var record := Clipped(w, maxBytes);
    var grown := history + [record];
    ConcatOne(record);
    if |f.current| + |record| > maxBytes {
      k', j' := j, |history|;
      assert grown[j..|history|] == history[j..] && grown[|history|..] == [record];
    } else {
      k', j' := k, j;
      assert grown[k..j] == history[k..j] && grown[j..] == history[j..] + [record];
      ConcatAppend(history[j..], [record]);
    }
  }

  const LF: byte := 10

  /** Nothing or complete lines. */
  predicate Whole(text: Bytes) {
    text == [] || text[|text| - 1] == LF
  }

  /** Whole lines are appended to whole lines, and what follows a record that had to be cut does not
      fit behind it. */
  ghost predicate Lined(start: Files, writes: seq<Bytes>, maxBytes: nat) {
    && Whole(start.backup) && Whole(start.current)
    && (forall i | 0 <= i < |writes| :: Whole(writes[i]))
    && (forall i | 0 < i < |writes| && |writes[i - 1]| > maxBytes ::
          |Clipped(writes[i - 1], maxBytes)| + |Clipped(writes[i], maxBytes)| > maxBytes)
  }

  /** In a file only the last record can be cut. */
  ghost predicate CutLast(records: seq<Bytes>) {
    forall i | 0 <= i < |records| - 1 :: Whole(records[i])
  }

  ghost predicate CutsLast(history: seq<Bytes>, k: nat, j: nat) {
    k <= j <= |history| && CutLast(history[k..j]) && CutLast(history[j..])
  }

  lemma {:induction false} LastFits(records: seq<Bytes>)
    requires records != []
    ensures |records[|records| - 1]| <= |Concat(records)|
    decreases |records|
  {
    if |records| > 1 {
      LastFits(records[1..]);
    }
  }

  /** Only whole records have something appended behind them. */
  lemma StillCutsLast(start: Files, front: seq<Bytes>, w: Bytes, maxBytes: nat, k: nat, j: nat, k': nat, j': nat)
    requires Lined(start, front + [w], maxBytes)
    requires var f, h := FilesAfter(start, front, maxBytes), History(start, front, maxBytes);
             && HoldsRecords(f, h, k, j) && CutsLast(h, k, j)
             && if |f.current| + |Clipped(w, maxBytes)| > maxBytes then k' == j && j' == |h| else k' == k && j' == j
    ensures CutsLast(History(start, front + [w], maxBytes), k', j')
  {
    hide FilesAfter, Clipped;
    var f, h := FilesAfter(start, front, maxBytes), History(start, front, maxBytes);
    var grown := h + [Clipped(w, maxBytes)];
    HistoryGrows(start, front, w, maxBytes);
    if |f.current| + |Clipped(w, maxBytes)| > maxBytes {
      assert grown[j..|h|] == h[j..] && grown[|h|..] == [Clipped(w, maxBytes)];
    } else {
      assert grown[k..j] == h[k..j] && grown[j..] == h[j..] + [Clipped(w, maxBytes)];
      LastFits(h[j..]);
      LastIsWhole(start, front, w, maxBytes);
    }
  }

  lemma LastIsWhole(start: Files, front: seq<Bytes>, w: Bytes, maxBytes: nat)
    requires Lined(start, front + [w], maxBytes)
    ensures
      var h := History(start, front, maxBytes);
      |h[|h| - 1]| + |Clipped(w, maxBytes)| <= maxBytes ==> Whole(h[|h| - 1])
  {
    hide Clipped;
    var all, n := front + [w], |front|;
    if n > 0 {
      assert all[n - 1] == front[n - 1] && all[n] == w;
      FitsWhole(front[n - 1], maxBytes);
    }
  }

  lemma FitsWhole(w: Bytes, maxBytes: nat)
    ensures |w| <= maxBytes ==> Clipped(w, maxBytes) == w
  {
  }

  lemma {:induction false} RetainsRecords(start: Files, writes: seq<Bytes>, maxBytes: nat) returns (k: nat, j: nat)
    ensures HoldsRecords(FilesAfter(start, writes, maxBytes), History(start, writes, maxBytes), k, j)
    ensures Rotated(start, writes, maxBytes) ==> 1 <= k
    ensures Lined(start, writes, maxBytes) ==> CutsLast(History(start, writes, maxBytes), k, j)
    decreases |writes|
  {
    hide HoldsRecords, Append, Clipped, History, CutsLast, Lined;
    if writes == [] {
      StartHolds(start, maxBytes);
      StartCutsLast(start, maxBytes);
      k, j := 0, 1;
    } else {
      var n := |writes| - 1;
      var front, w := writes[..n], writes[n];
      var k0, j0 := RetainsRecords(start, front, maxBytes);
      assert writes == front + [w];
      HistoryGrows(start, front, w, maxBytes);
      Bounds(FilesAfter(start, front, maxBytes), History(start, front, maxBytes), k0, j0);
      k, j := AppendHolds(FilesAfter(start, front, maxBytes), History(start, front, maxBytes), k0, j0, w, maxBytes);
      if Lined(start, writes, maxBytes) {
        LinedFront(start, front, w, maxBytes);
        StillCutsLast(start, front, w, maxBytes, k0, j0, k, j);
      }
    }
  }

  lemma StartCutsLast(start: Files, maxBytes: nat)
    ensures CutsLast(History(start, [], maxBytes), 0, 1)
  {
  }

  lemma LinedFront(start: Files, front: seq<Bytes>, w: Bytes, maxBytes: nat)
    requires Lined(start, front + [w], maxBytes)
    ensures Lined(start, front, maxBytes)
  {
    hide Clipped;
    var all := front + [w];
    assert forall i | 0 <= i < |front| :: all[i] == front[i];
  }

  lemma Bounds(f: Files, history: seq<Bytes>, k: nat, j: nat)
    requires HoldsRecords(f, history, k, j)
    ensures k <= j < |history| && 1 <= j
    ensures f.backup + f.current == Concat(history[k..])
  {
    assert history[k..] == history[k..j] + history[j..];
    ConcatAppend(history[k..j], history[j..]);
  }

  /** Retention: the backup followed by the current file is a suffix of everything written, cut
      between records and containing the newest one. After a rotation the files from before the
      first backup are gone. */
  lemma RetainsSuffix(start: Files, writes: seq<Bytes>, maxBytes: nat) returns (k: nat)
    ensures k < |History(start, writes, maxBytes)|
    ensures
      var f := FilesAfter(start, writes, maxBytes);
      f.backup + f.current == Concat(History(start, writes, maxBytes)[k..])
    ensures Rotated(start, writes, maxBytes) ==> 1 <= k
  {
    var j;
    k, j := RetainsRecords(start, writes, maxBytes);
    Bounds(FilesAfter(start, writes, maxBytes), History(start, writes, maxBytes), k, j);
  }

  /** Sizes: both files stay within the limit, and once the log has rotated the two together hold
      more than the limit and at most twice as much. */
  lemma {:induction false} RetainedSize(start: Files, writes: seq<Bytes>, maxBytes: nat)
    requires |start.backup| <= maxBytes && |start.current| <= maxBytes
    ensures
      var f := FilesAfter(start, writes, maxBytes);
      && |f.backup| <= maxBytes && |f.current| <= maxBytes
      && (Rotated(start, writes, maxBytes) ==> maxBytes < |f.backup| + |f.current| <= 2 * maxBytes)
    decreases |writes|
  {
    if writes != [] {
      RetainedSize(start, writes[..|writes| - 1], maxBytes);
    }
  }

  // ---------------------------------------------------------------- the reader

  /** The lines of a file, without their line feeds; a last line may have none. */
  function Lines(file: Bytes, line: Bytes): seq<Bytes>
    decreases |file|
  {
    if file == [] then if line == [] then [] else [line]
    else if file[0] == LF then [line] + Lines(file[1..], [])
    else Lines(file[1..], line + [file[0]])
  }

  /** `load_entries` reads the backup first, then the current file, line by line. */
  function ReadLog(f: Files): seq<Bytes> {
    Lines(f.backup, []) + Lines(f.current, [])
  }

  /** The lines of each record, one record after the other. */
  function LinesEach(records: seq<Bytes>): seq<Bytes> {
    if records == [] then [] else Lines(records[0], []) + LinesEach(records[1..])
  }

  /** Behind whole lines a new line begins. */
  lemma {:induction false} LinesSplit(x: Bytes, y: Bytes, line: Bytes)
    requires Whole(x) && (x == [] ==> line == [])
    ensures Lines(x + y, line) == Lines(x, line) + Lines(y, [])
    decreases |x|
  {
    if x == [] {
      assert x + y == y;
    } else {
      assert (x + y)[1..] == x[1..] + y;
      if x[0] == LF {
        LinesSplit(x[1..], y, []);
      } else {
        LinesSplit(x[1..], y, line + [x[0]]);
      }
    }
  }

  lemma {:induction false} LinesOfFile(records: seq<Bytes>)
    requires CutLast(records)
    ensures Lines(Concat(records), []) == LinesEach(records)
    decreases |records|
  {
    if |records| == 1 {
      ConcatOne(records[0]);
      assert records == [records[0]] && LinesEach(records[1..]) == [];
      assert Lines(records[0], []) + [] == Lines(records[0], []);
    } else if records != [] {
      assert Whole(records[0]);
      forall i | 0 <= i < |records[1..]| - 1 ensures Whole(records[1..][i]) {
        assert Whole(records[i + 1]);
      }
      LinesOfFile(records[1..]);
      LinesSplit(records[0], Concat(records[1..]), []);
    }
  }

  lemma {:induction false} LinesEachConcat(a: seq<Bytes>, b: seq<Bytes>)
    ensures LinesEach(a + b) == LinesEach(a) + LinesEach(b)
    decreases |a|
  {
    hide Lines;
    if a == [] {
      assert a + b == b;
    } else {
      LinesEachConcat(a[1..], b);
      assert (a + b)[1..] == a[1..] + b;
    }
  }

  /** The reader visits the lines of the retained records, record by record in the order they were
      written and the newest last, whatever whole lines the two files held at the start. */
  lemma ReaderSeesWriteOrder(start: Files, writes: seq<Bytes>, maxBytes: nat) returns (k: nat)
    requires Lined(start, writes, maxBytes)
    ensures k < |History(start, writes, maxBytes)|
    ensures ReadLog(FilesAfter(start, writes, maxBytes)) == LinesEach(History(start, writes, maxBytes)[k..])
    ensures Rotated(start, writes, maxBytes) ==> 1 <= k
  {
    hide Lines, LinesEach, Concat, FilesAfter, Rotated, History, CutLast, Lined;
    var j;
    k, j := RetainsRecords(start, writes, maxBytes);
    var h := History(start, writes, maxBytes);
    LinesOfFile(h[k..j]);
    LinesOfFile(h[j..]);
    LinesEachConcat(h[k..j], h[j..]);
    assert h[k..] == h[k..j] + h[j..];
  }

  // ---------------------------------------------------------------- the records of the decision log

  /** A record of the decision log: one line. */
  ghost predicate IsLine(record: Bytes) {
    |record| > 0 && record[|record| - 1] == LF && LF !in record[..|record| - 1]
  }

  lemma {:induction false} PlainLine(text: Bytes, before: Bytes)
    requires LF !in text
    ensures Lines(text, before) == if before + text == [] then [] else [before + text]
    decreases |text|
  {
    if text == [] {
      assert before + text == before;
    } else {
      PlainLine(text[1..], before + [text[0]]);
      assert before + [text[0]] + text[1..] == before + text;
    }
  }

  /** A record that fits is read as its line; one that was cut, as what is left of it. */
  lemma RecordIsItsLine(record: Bytes, maxBytes: nat)
    requires IsLine(record)
    ensures
      var kept := Clipped(record, maxBytes);
      Lines(kept, []) == if |record| <= maxBytes then [record[..|record| - 1]] else if kept == [] then [] else [kept]
  {
    var kept, text := Clipped(record, maxBytes), record[..|record| - 1];
    if |record| <= maxBytes {
      EndOfRecord(text, []);
      assert record == text + [LF] && [] + text == text;
    } else {
      assert kept <= text;
      assert forall i | 0 <= i < |kept| :: kept[i] == text[i];
      PlainLine(kept, []);
      assert [] + kept == kept;
    }
  }

  lemma {:induction false} EndOfRecord(text: Bytes, before: Bytes)
    requires LF !in text
    ensures Lines(text + [LF], before) == [before + text]
    decreases |text|
  {
    if text == [] {
      assert text + [LF] == [LF] && [LF][1..] == [] && before + text == before;
    } else {
      EndOfRecord(text[1..], before + [text[0]]);
      assert (text + [LF])[1..] == text[1..] + [LF];
      assert before + [text[0]] + text[1..] == before + text;
    }
  }

  /** Encoded text: a character has at most three bytes behind its first. */
  ghost predicate IsEncoded(text: Bytes) {
    forall i | 0 <= i < |text| - 3 ::
      !(IsContinuation(text[i]) && IsContinuation(text[i + 1]) && IsContinuation(text[i + 2]) &&
        IsContinuation(text[i + 3]))
  }

  /** Encoded lines of at least four bytes meet the condition of the reader: cutting loses at most
      three bytes, so no line fits behind a cut one. */
  lemma EncodedLinesAreLined(start: Files, writes: seq<Bytes>, maxBytes: nat)
    requires Whole(start.backup) && Whole(start.current) && maxBytes >= 7
    requires forall i | 0 <= i < |writes| :: IsLine(writes[i]) && |writes[i]| >= 4 && IsEncoded(writes[i])
    ensures Lined(start, writes, maxBytes)
  {
    hide Clipped;
    forall i | 0 < i < |writes| && |writes[i - 1]| > maxBytes
      ensures |Clipped(writes[i - 1], maxBytes)| + |Clipped(writes[i], maxBytes)| > maxBytes
    {
      CutsLittle(writes[i - 1], maxBytes);
      CutsLittle(writes[i], maxBytes);
    }
  }

  lemma CutsLittle(text: Bytes, maxBytes: nat)
    requires IsEncoded(text) && maxBytes >= 7
    ensures |Clipped(text, maxBytes)| >= if |text| > maxBytes then maxBytes - 3 else |text|
  {
    if |text| > maxBytes {
      var k, i := CutAt(text, maxBytes), maxBytes - 3;
      assert !(IsContinuation(text[i]) && IsContinuation(text[i + 1]) && IsContinuation(text[i + 2]) &&
               IsContinuation(text[i + 3]));
    }
  }
}
