// struct SparseBatchStream of src/training_data_loader.cpp: a cursor `curr`
// walking the bytes of a training file of records (module TrainingRecords), a
// `stop` flag set once the file runs out, and the `entries` vector that `next`
// refills and turns into a SparseBatch. The file's bytes are given as `buffer`
// (the constructor's whole-file read is not modelled) and the Bernoulli skip
// draws of `next` are given as `skips`, one per entry of the batch.

module BatchStream {
  import opened Wrappers
  import opened Definitions
  import opened TrainingRecords
  import opened PgnFen
  import opened FeatureTransformer
  import opened SparseBatches

  /** What one readEntry does to the cursor: give up with `stop` set (the cursor where
      the source left it), or deliver an entry and the cursor after its record. */
  datatype ReadResult = Stop(curr: nat) | Got(e: Entry, curr: nat)

  /** `Position(fen)`, `*(int16_t*)curr`, `*(int8_t*)(curr + 2)` for a record whose FEN
      bytes are `fen` and whose score and result bytes are `lo`, `hi` and `res`. */
  function EntryOf(fen: seq<Byte>, lo: Byte, hi: Byte, res: Byte): Entry {
    Entry(ParseFen(BytesText(fen)), Int16At(lo, hi), Int8At(res))
  }

  /** readEntry<false> at cursor `curr`: the length byte, the FEN, then the score and the
      result, unless the file ends first; a record that ends exactly at the end of the
      file also stops the stream, because the test is `curr + 3 >= fileSize`. */
  function ReadAt(buf: seq<Byte>, curr: nat): (r: ReadResult)
    ensures curr <= r.curr
    ensures r.Got? ==> curr < |buf| && r.curr == curr + 1 + buf[curr] + 3 && r.curr < |buf|
  {
    if curr >= |buf| then Stop(curr)
    else
      var at := curr + 1 + buf[curr];
      if at + 3 >= |buf| then Stop(at)
      else Got(EntryOf(buf[curr + 1..at], buf[at], buf[at + 1], buf[at + 2]), at + 3)
  }

  /** readEntry<true>: jump over the record at `curr` without looking at it, then
      readEntry<false>. */
  function SkipAt(buf: seq<Byte>, curr: nat): (r: ReadResult)
    ensures curr <= r.curr
  {
    if curr >= |buf| then Stop(curr)
    else ReadAt(buf, curr + 1 + buf[curr] + 3)
  }

  function ReadOrSkip(buf: seq<Byte>, curr: nat, skip: bool): (r: ReadResult)
    ensures curr <= r.curr
  {
    if skip then SkipAt(buf, curr) else ReadAt(buf, curr)
  }

  /** ReadAt on bytes laid out as a record of `fen`, followed by at least one more byte. */
  lemma ReadAtFields(buf: seq<Byte>, curr: nat, fen: seq<Byte>, score: int, result: int)
    requires curr + |fen| + 4 < |buf| && buf[curr] == |fen| && buf[curr + 1..curr + 1 + |fen|] == fen
    requires Int16At(buf[curr + 1 + |fen|], buf[curr + 2 + |fen|]) == score
    requires Int8At(buf[curr + 3 + |fen|]) == result
    ensures ReadAt(buf, curr) == Got(Entry(ParseFen(BytesText(fen)), score, result), curr + |fen| + 4)
  {
  }

  /** The fields of a record that sits at offset `at` of the file. */
  lemma RecordBytes(buf: seq<Byte>, at: nat, fen: seq<Byte>, score: int, result: int)
    requires |fen| <= 255 && IsInt16(score) && IsInt8(result) && at + |fen| + 4 <= |buf|
    requires buf[at..at + |fen| + 4] == Record(fen, score, result)
    ensures buf[at] == |fen| && buf[at + 1..at + 1 + |fen|] == fen
    ensures Int16At(buf[at + 1 + |fen|], buf[at + 2 + |fen|]) == score && Int8At(buf[at + 3 + |fen|]) == result
  {
    var r := buf[at..at + |fen| + 4];
    RecordFields(fen, score, result);
    assert buf[at] == r[0];
    var w, x := buf[at + 1..at + 1 + |fen|], r[1..1 + |fen|];
    forall k | 0 <= k < |fen|
      ensures w[k] == x[k]
    {
      assert buf[at + 1 + k] == r[1 + k];
    }
    assert w == x;
    assert buf[at + 1 + |fen|] == r[1 + |fen|] && buf[at + 2 + |fen|] == r[2 + |fen|];
    assert buf[at + 3 + |fen|] == r[3 + |fen|];
  }

  /** A record in the middle of the file, followed by at least one more byte, reads back as
      the entry that was written. */
  lemma ReadRecordOf(buf: seq<Byte>, at: nat, fen: seq<Byte>, score: int, result: int)
    requires |fen| <= 255 && IsInt16(score) && IsInt8(result) && at + |fen| + 4 < |buf|
    requires buf[at..at + |fen| + 4] == Record(fen, score, result)
    ensures ReadAt(buf, at) == Got(Entry(ParseFen(BytesText(fen)), score, result), at + |fen| + 4)
  {
    RecordBytes(buf, at, fen, score, result);
    ReadAtFields(buf, at, fen, score, result);
  }

  /** The last record of a file is never read: its end is the end of the file. */
  lemma ReadDropsFinalRecord(pre: seq<Byte>, fen: seq<Byte>, score: int, result: int)
    requires |fen| <= 255
    ensures ReadAt(pre + Record(fen, score, result), |pre|) == Stop(|pre| + 1 + |fen|)
  {
    var buf := pre + Record(fen, score, result);
    assert buf[|pre|] == Record(fen, score, result)[0];
  }

  /** The bytes a successful read consumed, split into the record's fields. */
  lemma BytesAreRecord(buf: seq<Byte>, curr: nat, at: nat, next: nat)
    requires curr < |buf| && at == curr + 1 + buf[curr] && next == at + 3 && next < |buf|
    ensures IsInt16(Int16At(buf[at], buf[at + 1])) && IsInt8(Int8At(buf[at + 2]))
    ensures buf[curr..next] == Record(buf[curr + 1..at], Int16At(buf[at], buf[at + 1]), Int8At(buf[at + 2]))
  {
    var fen := buf[curr + 1..at];
    I16Bytes(buf[at], buf[at + 1]);
    I8Byte(buf[at + 2]);
    SpelledSlice(buf, curr, at, next);
    assert |fen| == buf[curr];
  }

  /** The bytes from `curr` to `next`, field by field. */
  lemma SpelledSlice(buf: seq<Byte>, curr: nat, at: nat, next: nat)
    requires curr < at && next == at + 3 && next <= |buf|
    ensures buf[curr..next] == [buf[curr]] + buf[curr + 1..at] + [buf[at], buf[at + 1]] + [buf[at + 2]]
  {
    var spelled := [buf[curr]] + buf[curr + 1..at] + [buf[at], buf[at + 1]] + [buf[at + 2]];
    forall k | 0 <= k < next - curr
      ensures buf[curr..next][k] == spelled[k]
    {
      if 0 < k < at - curr {
        assert spelled[k] == buf[curr + 1..at][k - 1];
      }
    }
  }

  /** What is read is a record: the bytes from the old cursor to the new one are
      `Record(fen, score, result)` for the FEN, score and result of the entry. */
  lemma ReadIsRecord(buf: seq<Byte>, curr: nat)
    requires ReadAt(buf, curr).Got?
    ensures var r := ReadAt(buf, curr);
            exists fen: seq<Byte>, score: int, result: int ::
              |fen| <= 255 && IsInt16(score) && IsInt8(result) &&
              buf[curr..r.curr] == Record(fen, score, result) &&
              r.e == Entry(ParseFen(BytesText(fen)), score, result)
  {
    var r := ReadAt(buf, curr);
    var at := curr + 1 + buf[curr];
    BytesAreRecord(buf, curr, at, r.curr);
    var fen := buf[curr + 1..at];
    assert r.e == Entry(ParseFen(BytesText(fen)), Int16At(buf[at], buf[at + 1]), Int8At(buf[at + 2]));
  }

  /** The two bytes of an int16 read are the ones Int16Bytes writes for it. */
  lemma I16Bytes(lo: Byte, hi: Byte)
    ensures IsInt16(Int16At(lo, hi)) && Int16Bytes(Int16At(lo, hi)) == [lo, hi]
  {
    var u := lo + 256 * hi;
    var v := if u < 32768 then u else u - 65536;
    assert I16(u) == v;
    assert U16(v) == u;
    assert u % 256 == lo && u / 256 == hi;
    assert v % 256 == lo;
  }

  /** The byte of an int8 read is the one written for it. */
  lemma I8Byte(b: Byte)
    ensures IsInt8(Int8At(b)) && U8(Int8At(b)) == b
  {
  }

  lemma SkipThenRead(buf: seq<Byte>, c: nat, d: nat)
    requires c < |buf| && c + 1 + buf[c] + 3 == d
    ensures SkipAt(buf, c) == ReadAt(buf, d)
  {
  }

  /** Skipping jumps over exactly one record, whatever it holds, and reads from the
      byte after it. */
  lemma SkipJumpsRecord(buf: seq<Byte>, at: nat, fen: seq<Byte>, score: int, result: int)
    requires |fen| <= 255 && at + |fen| + 4 <= |buf|
    requires buf[at..at + |fen| + 4] == Record(fen, score, result)
    ensures SkipAt(buf, at) == ReadAt(buf, at + |fen| + 4)
  {
    assert buf[at] == buf[at..at + |fen| + 4][0];
    SkipThenRead(buf, at, at + |fen| + 4);
  }

  /** The value-initialised entries `entries.resize(n)` keeps or appends. */
  function Resize(es: seq<Entry>, n: nat): (r: seq<Entry>)
    ensures |r| == n
    ensures forall k :: 0 <= k < n ==> r[k] == if k < |es| then es[k] else EMPTY_ENTRY
  {
    if n <= |es| then es[..n] else es + seq(n - |es|, _ => EMPTY_ENTRY)
  }

  /** The fields of a stream that `next` changes. */
  datatype Cursor = Cursor(curr: nat, stop: bool, entries: seq<Entry>)

  /** readEntry<skip>(entries[i]) on the state `s`. */
  function ReadStep(buf: seq<Byte>, s: Cursor, skip: bool, i: nat): (r: Cursor)
    requires i < |s.entries|
    ensures |r.entries| == |s.entries| && s.curr <= r.curr && (s.stop ==> r.stop)
  {
    match ReadOrSkip(buf, s.curr, skip)
    case Stop(c) => Cursor(c, true, s.entries)
    case Got(e, c) => Cursor(c, s.stop, s.entries[i := e])
  }

  /** The loop of `next` from iteration `i` on: whether it returns null, and the state
      it leaves. */
  function NextLoop(buf: seq<Byte>, s: Cursor, skips: seq<bool>, i: nat): (r: (bool, Cursor))
    requires i <= |skips| == |s.entries|
    ensures |r.1.entries| == |skips| && s.curr <= r.1.curr
    decreases |skips| - i
  {
    if i == |skips| then (false, s)
    else if s.stop then (true, s)
    else NextLoop(buf, ReadStep(buf, s, skips[i], i), skips, i + 1)
  }

  /** The entries a batch should hold: `|skips| - i` records read in a row from `curr`
      (skipping one first where `skips` says so), with the cursor after them, or None
      when the file runs out first. */
  function ReadBatch(buf: seq<Byte>, curr: nat, skips: seq<bool>, i: nat): (r: Option<(seq<Entry>, nat)>)
    requires i <= |skips|
    ensures r.Some? ==> |r.value.0| == |skips| - i && curr <= r.value.1
    decreases |skips| - i
  {
    if i == |skips| then Some(([], curr))
    else
      match ReadOrSkip(buf, curr, skips[i])
      case Stop(_) => None
      case Got(e, c) =>
        match ReadBatch(buf, c, skips, i + 1)
        case None => None
        case Some((es, c')) => Some(([e] + es, c'))
  }

  /** The loop of `next`, run from iteration `i` on a stream that has not stopped, leaves
      the stream running exactly when the records are there, and then holds them. */
  lemma {:induction false} NextLoopReadsBatch(buf: seq<Byte>, s: Cursor, skips: seq<bool>, i: nat)
    requires i <= |skips| == |s.entries| && !s.stop
    ensures var (isNull, t) := NextLoop(buf, s, skips, i);
            (ReadBatch(buf, s.curr, skips, i).None? <==> isNull || t.stop) &&
            (ReadBatch(buf, s.curr, skips, i).Some? ==>
               t.entries[..i] == s.entries[..i] && t.entries[i..] == ReadBatch(buf, s.curr, skips, i).value.0 &&
               t.curr == ReadBatch(buf, s.curr, skips, i).value.1)
    decreases |skips| - i
  {
    if i < |skips| {
      var s' := ReadStep(buf, s, skips[i], i);
      match ReadOrSkip(buf, s.curr, skips[i])
      case Stop(c) =>
        if i + 1 < |skips| {
          assert NextLoop(buf, s', skips, i + 1) == (true, s');
        }
      case Got(e, c) =>
        assert s' == Cursor(c, false, s.entries[i := e]);
        assert NextLoop(buf, s, skips, i) == NextLoop(buf, s', skips, i + 1);
        NextLoopReadsBatch(buf, s', skips, i + 1);
        var rb := ReadBatch(buf, c, skips, i + 1);
        if rb.Some? {
          assert ReadBatch(buf, s.curr, skips, i) == Some(([e] + rb.value.0, rb.value.1));
          var t := NextLoop(buf, s', skips, i + 1).1;
          EntriesSplice(s.entries, t.entries, i, e);
        } else {
          assert ReadBatch(buf, s.curr, skips, i).None?;
        }
    }
  }

  /** Entries that agree with `es[i := e]` up to `i` agree with `es` before `i` and hold
      `e` at `i`. */
  lemma EntriesSplice(es: seq<Entry>, t: seq<Entry>, i: nat, e: Entry)
    requires i < |es| == |t| && t[..i + 1] == es[i := e][..i + 1]
    ensures t[..i] == es[..i] && t[i..] == [e] + t[i + 1..]
  {
    assert t[..i] == t[..i + 1][..i];
    assert t[i] == t[..i + 1][i];
  }

  /** Once stopped, `next` returns null and changes nothing more (when it reads at all). */
  lemma StoppedStaysNull(buf: seq<Byte>, s: Cursor, skips: seq<bool>)
    requires |skips| == |s.entries| > 0 && s.stop
    ensures NextLoop(buf, s, skips, 0) == (true, s)
  {
  }

  /** `next` with its own result checked: no batch unless every entry was read in
      this call. */
  function NextChecked(buf: seq<Byte>, s: Cursor, skips: seq<bool>): (r: Option<seq<Entry>>)
    requires |skips| == |s.entries|
  {
    var (isNull, t) := NextLoop(buf, s, skips, 0);
    if isNull || t.stop then None else Some(t.entries)
  }

  /** The checked `next` returns a batch exactly when `|skips|` records follow the cursor,
      and then the batch holds those records. */
  lemma NextCheckedIsReadBatch(buf: seq<Byte>, s: Cursor, skips: seq<bool>)
    requires |skips| == |s.entries| && !s.stop
    ensures NextChecked(buf, s, skips).Some? <==> ReadBatch(buf, s.curr, skips, 0).Some?
    ensures NextChecked(buf, s, skips).Some? ==>
      NextChecked(buf, s, skips).value == ReadBatch(buf, s.curr, skips, 0).value.0
  {
    NextLoopReadsBatch(buf, s, skips, 0);
    var t := NextLoop(buf, s, skips, 0).1;
    assert t.entries[0..] == t.entries;
  }

  /** As written, `next` can hand out a stale batch. On a file of two records with batch
      size 1, the first call reads the first record (FirstOfTwoRecords). The second call's
      only read stops on the second record, because that record ends at the end of the
      file (ReadDropsFinalRecord), and the loop ends without testing `stop`: the batch
      holds the first record again, where the reference reads no batch. */
  lemma StaleEntryBatch(buf: seq<Byte>, fen1: seq<Byte>, score1: int, result1: int, fen2: seq<Byte>, score2: int, result2: int)
    requires |fen1| <= 255 && IsInt16(score1) && IsInt8(result1) && |fen2| <= 255
    requires buf == Record(fen1, score1, result1) + Record(fen2, score2, result2)
    ensures NextLoop(buf, Cursor(|fen1| + 4, false, Resize([Entry(ParseFen(BytesText(fen1)), score1, result1)], 1)), [false], 0) ==
      (false, Cursor(|fen1| + 5 + |fen2|, true, [Entry(ParseFen(BytesText(fen1)), score1, result1)]))
    ensures ReadBatch(buf, |fen1| + 4, [false], 0).None?
  {
    TwoRecordReads(fen1, score1, result1, fen2, score2, result2);
    ReadThenStop(buf, Entry(ParseFen(BytesText(fen1)), score1, result1), |fen1| + 4, |fen1| + 5 + |fen2|);
  }

  /** The first call of `next` with batch size 1 on a file of two records reads the first
      record and leaves the cursor after it, with the stream running. */
  lemma FirstOfTwoRecords(buf: seq<Byte>, fen1: seq<Byte>, score1: int, result1: int, fen2: seq<Byte>, score2: int, result2: int)
    requires |fen1| <= 255 && IsInt16(score1) && IsInt8(result1) && |fen2| <= 255
    requires buf == Record(fen1, score1, result1) + Record(fen2, score2, result2)
    ensures NextLoop(buf, Cursor(0, false, Resize([], 1)), [false], 0) ==
      (false, Cursor(|fen1| + 4, false, [Entry(ParseFen(BytesText(fen1)), score1, result1)]))
  {
    TwoRecordReads(fen1, score1, result1, fen2, score2, result2);
    ReadThenStop(buf, Entry(ParseFen(BytesText(fen1)), score1, result1), |fen1| + 4, |fen1| + 5 + |fen2|);
  }

  /** On a file of two records, the first reads back and the second stops the stream. */
  lemma TwoRecordReads(fen1: seq<Byte>, score1: int, result1: int, fen2: seq<Byte>, score2: int, result2: int)
    requires |fen1| <= 255 && IsInt16(score1) && IsInt8(result1) && |fen2| <= 255
    ensures var buf := Record(fen1, score1, result1) + Record(fen2, score2, result2);
      ReadAt(buf, 0) == Got(Entry(ParseFen(BytesText(fen1)), score1, result1), |fen1| + 4) &&
      ReadAt(buf, |fen1| + 4) == Stop(|fen1| + 5 + |fen2|)
  {
    var r1 := Record(fen1, score1, result1);
    var buf := r1 + Record(fen2, score2, result2);
    assert |r1| == |fen1| + 4 && buf[0..|fen1| + 4] == r1;
    ReadRecordOf(buf, 0, fen1, score1, result1);
    ReadDropsFinalRecord(r1, fen2, score2, result2);
  }

  /** Two calls of `next` with batch size 1, where the first read succeeds and the second
      stops: neither call returns null, and the second keeps the first call's entry. */
  lemma ReadThenStop(buf: seq<Byte>, e1: Entry, c1: nat, c2: nat)
    requires ReadAt(buf, 0) == Got(e1, c1) && ReadAt(buf, c1) == Stop(c2)
    ensures NextLoop(buf, Cursor(0, false, Resize([], 1)), [false], 0) == (false, Cursor(c1, false, [e1]))
    ensures NextLoop(buf, Cursor(c1, false, Resize([e1], 1)), [false], 0) == (false, Cursor(c2, true, [e1]))
    ensures ReadBatch(buf, c1, [false], 0).None?
  {
    assert Resize([], 1) == [EMPTY_ENTRY];
    OneReadLoop(buf, 0, EMPTY_ENTRY);
    assert Resize([e1], 1) == [e1];
    OneReadLoop(buf, c1, e1);
  }

  /** A batch of one entry read at `curr`: the loop takes the read's outcome and never
      returns null, and the reference agrees with the read. */
  lemma OneReadLoop(buf: seq<Byte>, curr: nat, e: Entry)
    ensures NextLoop(buf, Cursor(curr, false, [e]), [false], 0) ==
      match ReadAt(buf, curr)
      case Stop(c) => (false, Cursor(c, true, [e]))
      case Got(e', c) => (false, Cursor(c, false, [e']))
    ensures ReadBatch(buf, curr, [false], 0).None? <==> ReadAt(buf, curr).Stop?
  {
    var s := Cursor(curr, false, [e]);
    assert NextLoop(buf, s, [false], 0) == NextLoop(buf, ReadStep(buf, s, false, 0), [false], 1);
    match ReadAt(buf, curr)
    case Stop(_) =>
    case Got(e', _) => assert [e][0 := e'] == [e'];
  }

  class SparseBatchStream {
    const buffer: seq<Byte>
    const batchSize: nat
    var curr: nat
    var stop: bool
    var entries: seq<Entry>

    function State(): Cursor
      reads this
    {
      Cursor(curr, stop, entries)
    }

    /** SparseBatchStream(file, batchSize, skipEntryProb), the file's bytes being `buffer`:
        the cursor at the start, not stopped, no entries yet. */
    constructor(buffer: seq<Byte>, batchSize: nat)
      ensures this.buffer == buffer && this.batchSize == batchSize
      ensures curr == 0 && !stop && entries == []
    {
      this.buffer := buffer;
      this.batchSize := batchSize;
      curr := 0;
      stop := false;
      entries := [];
    }

    /** readEntry<false>(entries[i]) */
    method ReadEntry(i: nat)
      requires i < |entries|
      modifies this
      ensures State() == ReadStep(buffer, old(State()), false, i)
    {
      if curr >= |buffer| {
        stop := true;
        return;
      }
      var fenSize := buffer[curr];
      curr := curr + 1;
      var fenStart := curr;
      curr := curr + fenSize;
      if curr + 3 >= |buffer| {
        stop := true;
        return;
      }
      var fen := buffer[fenStart..curr];
      var score := Int16At(buffer[curr], buffer[curr + 1]);
      curr := curr + 2;
      var result := Int8At(buffer[curr]);
      curr := curr + 1;
      entries := entries[i := Entry(ParseFen(BytesText(fen)), score, result)];
    }

    /** readEntry<true>(entries[i]) */
    method SkipEntry(i: nat)
      requires i < |entries|
      modifies this
      ensures State() == ReadStep(buffer, old(State()), true, i)
    {
      if curr >= |buffer| {
        stop := true;
        return;
      }
      var fenSize := buffer[curr];
      curr := curr + 1;
      curr := curr + fenSize + 3;
      ReadEntry(i);
    }

    /** next(): resize `entries` to the batch size, then per entry return null if `stop`
        is set, else read it (skipping one record first where `skips` says so); the
        SparseBatch of the entries comes back when the loop ends. `ok` is false, and no
        batch is built, where SparseBatch(entries) is undefined (an entry
        that is not Fillable). */
    method Next(table: FeatureTable, skips: seq<bool>) returns (ok: bool, batch: SparseBatch?)
      requires table.Initialized() && |skips| == batchSize
      modifies this
      ensures var (isNull, t) := NextLoop(buffer, old(Cursor(curr, stop, Resize(entries, batchSize))), skips, 0);
              State() == t && (isNull ==> ok && batch == null) &&
              (!isNull ==> ok == AllFillable(entries)) &&
              (!isNull && ok ==>
                 batch != null && fresh(batch) && batch.size == batchSize &&
                 batch.Filled(entries, Lists(entries, WHITE), Lists(entries, BLACK), batchSize))
    {
      entries := Resize(entries, batchSize);
      ghost var s0 := State();
      for i := 0 to batchSize
        invariant |entries| == batchSize
        invariant NextLoop(buffer, State(), skips, i) == NextLoop(buffer, s0, skips, 0)
      {
        if stop {
          return true, null;
        }
        if skips[i] {
          SkipEntry(i);
        } else {
          ReadEntry(i);
        }
      }
      if !AllFillable(entries) {
        return false, null;
      }
      batch := new SparseBatch(table, entries);
      ok := true;
    }
  }
}
