// The training record written by Converter::processLine
// (src/PGN-converter/pgn_converter.h) and by PGN_Converter.write_entry
// (src/pgn_to_td.py), and read back by SparseBatchStream::readEntry
// (src/training_data_loader.cpp): a length byte, the FEN text, the score as a
// little-endian int16 and the game result as an int8.

module TrainingRecords {
  import opened Definitions

  predicate IsInt8(v: int) {
    -128 <= v < 128
  }

  predicate IsInt16(v: int) {
    -32768 <= v < 32768
  }

  /** The byte written for one character of the (ASCII) FEN text. */
  function CharByte(ch: char): Byte {
    (ch as int) % 256
  }

  /** The character a `char` of the buffer holds when the loader views it as text. */
  function ByteChar(b: Byte): char {
    b as char
  }

  function TextBytes(s: string): (r: seq<Byte>)
    ensures |r| == |s| && forall k :: 0 <= k < |s| ==> r[k] == CharByte(s[k])
  {
    if |s| == 0 then [] else TextBytes(s[..|s| - 1]) + [CharByte(s[|s| - 1])]
  }

  function BytesText(b: seq<Byte>): (r: string)
    ensures |r| == |b| && forall k :: 0 <= k < |b| ==> r[k] == ByteChar(b[k])
  {
    if |b| == 0 then [] else BytesText(b[..|b| - 1]) + [ByteChar(b[|b| - 1])]
  }

  predicate IsAscii(s: string) {
    forall k :: 0 <= k < |s| ==> s[k] as int < 128
  }

  /** The text of an ASCII FEN survives the trip through the byte buffer. */
  lemma TextBytesRoundTrip(s: string)
    requires IsAscii(s)
    ensures BytesText(TextBytes(s)) == s
  {
    var r := BytesText(TextBytes(s));
    forall k | 0 <= k < |s|
      ensures r[k] == s[k]
    {
      assert s[k] as int < 128;
    }
  }

  /** An int16 in memory order on a little-endian host: low byte, then high byte. */
  function Int16Bytes(v: int): (r: seq<Byte>)
    ensures |r| == 2
  {
    [U8(v), U16(v) / 256]
  }

  /** `*(int16_t*)p` on a little-endian host. */
  function Int16At(lo: Byte, hi: Byte): int {
    I16(lo + 256 * hi)
  }

  /** `*(int8_t*)p` */
  function Int8At(b: Byte): int {
    I8(b)
  }

  /** Reading the two bytes back gives the int16 value that was stored. */
  lemma Int16RoundTrip(v: int)
    requires IsInt16(v)
    ensures Int16At(Int16Bytes(v)[0], Int16Bytes(v)[1]) == v
  {
    var u := U16(v);
    assert u == if v >= 0 then v else v + 65536;
    var lo, hi := u % 256, u / 256;
    assert lo + 256 * hi == u;
    assert U8(v) == lo;
    assert Int16Bytes(v) == [lo, hi];
    assert I16(u) == v;
  }

  /** Reading the byte back gives the int8 value that was stored. */
  lemma Int8RoundTrip(v: int)
    requires IsInt8(v)
    ensures Int8At(U8(v)) == v
  {
  }

  /** `[fenSize][fen][score][result]` */
  function Record(fen: seq<Byte>, score: int, result: int): (r: seq<Byte>)
    requires |fen| <= 255
    ensures |r| == 1 + |fen| + 2 + 1
  {
    [|fen|] + fen + Int16Bytes(score) + [U8(result)]
  }

  /** The record holds, in order, the length, the FEN bytes, the score and the result. */
  lemma RecordFields(fen: seq<Byte>, score: int, result: int)
    requires |fen| <= 255 && IsInt16(score) && IsInt8(result)
    ensures var r := Record(fen, score, result);
            r[0] == |fen| && r[1..1 + |fen|] == fen &&
            Int16At(r[1 + |fen|], r[2 + |fen|]) == score && Int8At(r[3 + |fen|]) == result
  {
    var r := Record(fen, score, result);
    assert r[1..1 + |fen|] == fen;
    assert r[1 + |fen|] == Int16Bytes(score)[0] && r[2 + |fen|] == Int16Bytes(score)[1];
    assert r[3 + |fen|] == U8(result);
    Int16RoundTrip(score);
    Int8RoundTrip(result);
  }
}
