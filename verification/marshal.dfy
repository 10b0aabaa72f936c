/**
  The bytes that cross the user boundary: `read` hands out the sample buffer
  as 36 bytes (nine native ints) and `write` copies 4 bytes straight into the
  status word. The driver builds for ARM, x86 and MIPS; the model assumes a
  little-endian target, so a word occupies its four bytes least significant
  first.
 */
module Marshal {
  import opened RegisterInterface

  type Byte = bv8

  /** The word whose little-endian bytes are `bs`: byte k of it is `bs[k]`. */
  function BytesToWord(bs: seq<Byte>): (w: Word)
    requires |bs| == 4
    ensures (w & 0xFF) as Byte == bs[0]
    ensures ((w >> 8) & 0xFF) as Byte == bs[1]
    ensures ((w >> 16) & 0xFF) as Byte == bs[2]
    ensures (w >> 24) as Byte == bs[3]
  {
    (bs[0] as Word) | ((bs[1] as Word) << 8) | ((bs[2] as Word) << 16) | ((bs[3] as Word) << 24)
  }

  /** The little-endian bytes of a word. */
  function WordToBytes(w: Word): (bs: seq<Byte>)
    ensures |bs| == 4
    ensures BytesToWord(bs) == w
  {
    [(w & 0xFF) as Byte, ((w >> 8) & 0xFF) as Byte, ((w >> 16) & 0xFF) as Byte, (w >> 24) as Byte]
  }

  /** Four bytes read back as a word and written out again are the same four bytes. */
  lemma BytesWordRoundTrip(bs: seq<Byte>)
    requires |bs| == 4
    ensures WordToBytes(BytesToWord(bs)) == bs
  {
    var w := BytesToWord(bs);
    var out := WordToBytes(w);
    assert out[0] == bs[0];
    assert out[1] == bs[1];
    assert out[2] == bs[2];
    assert out[3] == bs[3];
  }

  /** A sequence of words laid out in memory, one after the other. */
  function Flatten(ws: seq<Word>): (bs: seq<Byte>)
    ensures |bs| == 4 * |ws|
  {
    if ws == [] then [] else WordToBytes(ws[0]) + Flatten(ws[1..])
  }

  /** The words stored in a memory region whose length is a multiple of four. */
  function Unflatten(bs: seq<Byte>): (ws: seq<Word>)
    requires |bs| % 4 == 0
    ensures 4 * |ws| == |bs|
  {
    if bs == [] then [] else [BytesToWord(bs[..4])] + Unflatten(bs[4..])
  }

  /** Word `i` of a flattened sequence sits at bytes 4i..4i+3. */
  lemma {:induction false} FlattenAt(ws: seq<Word>, i: nat)
    requires i < |ws|
    ensures Flatten(ws)[4 * i..4 * i + 4] == WordToBytes(ws[i])
  {
    var bs := Flatten(ws);
    if i == 0 {
      assert bs[..4] == WordToBytes(ws[0]);
    } else {
      FlattenAt(ws[1..], i - 1);
      assert bs[4..] == Flatten(ws[1..]);
      assert bs[4 * i..4 * i + 4] == bs[4..][4 * (i - 1)..4 * (i - 1) + 4];
    }
  }

  /** Reading words back from their bytes recovers the words. */
  lemma {:induction false} UnflattenFlatten(ws: seq<Word>)
    ensures Unflatten(Flatten(ws)) == ws
  {
    if ws != [] {
      var bs := Flatten(ws);
      assert bs[..4] == WordToBytes(ws[0]);
      assert bs[4..] == Flatten(ws[1..]);
      UnflattenFlatten(ws[1..]);
    }
  }

  /** Writing out the words read from a region reproduces the region. */
  lemma {:induction false} FlattenUnflatten(bs: seq<Byte>)
    requires |bs| % 4 == 0
    ensures Flatten(Unflatten(bs)) == bs
  {
    if bs != [] {
      var ws := Unflatten(bs);
      assert ws[0] == BytesToWord(bs[..4]);
      assert ws[1..] == Unflatten(bs[4..]);
      BytesWordRoundTrip(bs[..4]);
      FlattenUnflatten(bs[4..]);
      assert bs == bs[..4] + bs[4..];
    }
  }
}
