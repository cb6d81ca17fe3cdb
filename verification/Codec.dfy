/** Little-endian integers, fixed-width records and pointer blocks: the byte formats of block.rs. */
module Codec {
  import opened Arith

  type Byte = x: int | 0 <= x < 256

  const WORD := 8
  const WORD_LIMIT := 0x1_0000_0000_0000_0000

  function Encode(v: nat, width: nat): (s: seq<Byte>)
    ensures |s| == width
  {
    if width == 0 then [] else [v % 256] + Encode(v / 256, width - 1)
  }

  function Decode(s: seq<Byte>): nat {
    if s == [] then 0 else s[0] + 256 * Decode(s[1..])
  }

  lemma {:induction false} DecodeEncode(v: nat, width: nat)
    requires v < Pow(256, width)
    ensures Decode(Encode(v, width)) == v
  {
    if width > 0 {
      DecodeEncode(v / 256, width - 1);
      assert Encode(v, width)[1..] == Encode(v / 256, width - 1);
    }
  }

  lemma {:induction false} EncodeDecode(s: seq<Byte>)
    ensures Decode(s) < Pow(256, |s|)
    ensures Encode(Decode(s), |s|) == s
  {
    if s != [] {
      EncodeDecode(s[1..]);
      var low, high := s[0], Decode(s[1..]);
      DivUnique(high, low, 256);
      assert Decode(s) == high * 256 + low;
      MulLe(high + 1, Pow(256, |s| - 1), 256);
      assert s == [low] + s[1..];
    }
  }

  lemma WordRange()
    ensures Pow(256, WORD) == WORD_LIMIT
  {
    assert Pow(256, 4) == 0x1_0000_0000;
    assert Pow(256, 5) == 256 * Pow(256, 4);
    assert Pow(256, 7) == 256 * (256 * Pow(256, 5));
  }

  lemma SmallRanges()
    ensures Pow(256, 2) == 0x1_0000 && Pow(256, 4) == 0x1_0000_0000
  {
    assert Pow(256, 1) == 256 && Pow(256, 3) == 0x100_0000;
  }

  // ----- Fixed-width records -----

  function Width(widths: seq<nat>): nat {
    if widths == [] then 0 else widths[0] + Width(widths[1..])
  }

  function EncodeRecord(widths: seq<nat>, fields: seq<nat>): (s: seq<Byte>)
    requires |widths| == |fields|
    ensures |s| == Width(widths)
  {
    if widths == [] then [] else Encode(fields[0], widths[0]) + EncodeRecord(widths[1..], fields[1..])
  }

  function DecodeRecord(widths: seq<nat>, s: seq<Byte>): (fields: seq<nat>)
    requires Width(widths) <= |s|
    ensures |fields| == |widths|
  {
    if widths == [] then [] else [Decode(s[..widths[0]])] + DecodeRecord(widths[1..], s[widths[0]..])
  }

  predicate Fits(widths: seq<nat>, fields: seq<nat>) {
    |widths| == |fields| && forall i :: 0 <= i < |fields| ==> fields[i] < Pow(256, widths[i])
  }

  /** A record survives its encoding, whatever stale bytes follow it in its slot. */
  lemma {:induction false} RecordRoundTrip(widths: seq<nat>, fields: seq<nat>, rest: seq<Byte>)
    requires Fits(widths, fields)
    ensures DecodeRecord(widths, EncodeRecord(widths, fields) + rest) == fields
  {
    hide Encode, Decode, Pow;
    if widths != [] {
      var head, tail := Encode(fields[0], widths[0]), EncodeRecord(widths[1..], fields[1..]);
      var s := EncodeRecord(widths, fields) + rest;
      assert s == head + (tail + rest);
      assert s[..widths[0]] == head && s[widths[0]..] == tail + rest;
      DecodeEncode(fields[0], widths[0]);
      RecordRoundTrip(widths[1..], fields[1..], rest);
      assert fields == [fields[0]] + fields[1..];
    }
  }

  /** Every byte string of the right length is the encoding of the record read from it. */
  lemma {:induction false} RecordCanonical(widths: seq<nat>, s: seq<Byte>)
    requires |s| == Width(widths)
    ensures EncodeRecord(widths, DecodeRecord(widths, s)) == s
    ensures Fits(widths, DecodeRecord(widths, s))
  {
    if widths != [] {
      EncodeDecode(s[..widths[0]]);
      RecordCanonical(widths[1..], s[widths[0]..]);
      assert s == s[..widths[0]] + s[widths[0]..];
    }
  }

  lemma {:induction false} WidthNext(widths: seq<nat>, k: nat)
    requires k < |widths|
    ensures Width(widths[..k + 1]) == Width(widths[..k]) + widths[k]
  {
    if k > 0 {
      WidthNext(widths[1..], k - 1);
      assert widths[..k + 1][1..] == widths[1..][..k] && widths[..k][1..] == widths[1..][..k - 1];
    }
  }

  /** The bytes of a field are where the widths before it end. */
  lemma {:induction false} FieldAt(widths: seq<nat>, fields: seq<nat>, k: nat, p: nat)
    requires Fits(widths, fields) && k < |fields| && p == Width(widths[..k])
    ensures p + widths[k] <= Width(widths)
    ensures Decode(EncodeRecord(widths, fields)[p..p + widths[k]]) == fields[k]
  {
    hide Encode, Decode, Pow;
    var head, tail := Encode(fields[0], widths[0]), EncodeRecord(widths[1..], fields[1..]);
    if k == 0 {
      assert EncodeRecord(widths, fields)[0..widths[0]] == head;
      DecodeEncode(fields[0], widths[0]);
    } else {
      assert widths[..k][1..] == widths[1..][..k - 1];
      FieldAt(widths[1..], fields[1..], k - 1, p - widths[0]);
      SliceAfter(head, tail, p - widths[0], widths[k]);
    }
  }

  // ----- Pointer blocks -----

  /** `PtrBlock::from_bytes`. */
  function Words(s: seq<Byte>): (ws: seq<nat>)
    ensures |ws| == |s| / WORD
  {
    seq(|s| / WORD, i requires 0 <= i < |s| / WORD => Decode(s[WORD * i..WORD * i + WORD]))
  }

  /** `PtrBlock::as_bytes`. */
  function FromWords(ws: seq<nat>): (s: seq<Byte>)
    ensures |s| == WORD * |ws|
  {
    if ws == [] then [] else Encode(ws[0], WORD) + FromWords(ws[1..])
  }

  predicate AreWords(ws: seq<nat>) {
    forall i :: 0 <= i < |ws| ==> ws[i] < WORD_LIMIT
  }

  lemma SliceAfter(head: seq<Byte>, tail: seq<Byte>, p: nat, n: nat)
    requires p + n <= |tail|
    ensures (head + tail)[|head| + p..|head| + p + n] == tail[p..p + n]
  {
  }

  lemma {:induction false} WordSlice(ws: seq<nat>, i: nat)
    requires i < |ws|
    ensures FromWords(ws)[WORD * i..WORD * i + WORD] == Encode(ws[i], WORD)
  {
    var head, tail := Encode(ws[0], WORD), FromWords(ws[1..]);
    if i > 0 {
      hide Encode;
      WordSlice(ws[1..], i - 1);
      SliceAfter(head, tail, WORD * (i - 1), WORD);
    }
  }

  /** The bytes of a word and its place. */
  lemma WordAt(ws: seq<nat>, k: nat, p: nat)
    requires k < |ws| && ws[k] < WORD_LIMIT && p == WORD * k
    ensures Decode(FromWords(ws)[p..p + WORD]) == ws[k]
  {
    hide Encode, Decode, Pow;
    WordRange();
    WordSlice(ws, k);
    DecodeEncode(ws[k], WORD);
  }

  lemma PtrBlockRoundTrip(ws: seq<nat>)
    requires AreWords(ws)
    ensures Words(FromWords(ws)) == ws
  {
    hide Encode, Decode, Pow;
    WordRange();
    forall i | 0 <= i < |ws|
      ensures Words(FromWords(ws))[i] == ws[i]
    {
      WordSlice(ws, i);
      DecodeEncode(ws[i], WORD);
    }
  }

  lemma {:induction false} PtrBlockCanonical(s: seq<Byte>)
    requires |s| % WORD == 0
    ensures AreWords(Words(s))
    ensures FromWords(Words(s)) == s
  {
    WordRange();
    if s == [] {
      assert Words(s) == [];
    } else {
      var rest := s[WORD..];
      PtrBlockCanonical(rest);
      EncodeDecode(s[..WORD]);
      assert s[WORD * 0..WORD * 0 + WORD] == s[..WORD];
      forall i | 0 <= i < |rest| / WORD
        ensures Words(rest)[i] == Words(s)[i + 1]
      {
        assert rest[WORD * i..WORD * i + WORD] == s[WORD * (i + 1)..WORD * (i + 1) + WORD];
      }
      assert Words(s)[1..] == Words(rest);
      assert s == s[..WORD] + rest;
    }
  }

  /** A freshly zeroed pointer block, `DkFile::empty_ptr_block`. */
  function ZeroWords(n: nat): seq<nat> {
    seq(n, _ => 0)
  }
}
