/** The stream of extended attributes in the xattr block (file.rs): keys and values, closed by an empty key. */
module Attributes {
  import opened Codec
  import opened Results

  type Attrs = map<seq<Byte>, seq<Byte>>

  function Blob(s: seq<Byte>): seq<Byte> {
    Encode(|s|, WORD) + s
  }

  /** What `write_xattr` serializes for attributes visited in the given order. */
  function AttrStream(order: seq<seq<Byte>>, attrs: Attrs): seq<Byte>
    requires forall k :: k in order ==> k in attrs
  {
    if order == [] then Blob([]) else Blob(order[0]) + (Blob(attrs[order[0]]) + AttrStream(order[1..], attrs))
  }

  /** Lengths fit their 64-bit fields. */
  predicate AttrsSized(attrs: Attrs) {
    forall k :: k in attrs ==> |k| < WORD_LIMIT && |attrs[k]| < WORD_LIMIT
  }

  /** Attributes that can be told from the end of the stream. */
  predicate AttrsOk(attrs: Attrs) {
    AttrsSized(attrs) && [] !in attrs
  }

  datatype Piece = Piece(value: seq<Byte>, rest: seq<Byte>)

  function ParseBlob(s: seq<Byte>): (r: DkResult<Piece>)
    ensures r.Ok? ==> |r.value.rest| < |s|
  {
    if |s| < WORD then Err(Io)
    else
      var n := Decode(s[..WORD]);
      if |s| < WORD + n then Err(Io) else Ok(Piece(s[WORD..WORD + n], s[WORD + n..]))
  }

  /** The loop of `read_xattr` as a function of the bytes it reads. */
  function ParseAttrs(s: seq<Byte>): DkResult<Attrs>
    decreases |s|
  {
    var key := ParseBlob(s);
    if key.Err? then Err(key.error)
    else if key.value.value == [] then Ok(map[])
    else
      var value := ParseBlob(key.value.rest);
      if value.Err? then Err(value.error)
      else
        var rest := ParseAttrs(value.value.rest);
        if rest.Err? then rest else Ok(map[key.value.value := value.value.value] + rest.value)
  }

  lemma ParseOneBlob(s: seq<Byte>, tail: seq<Byte>)
    requires |s| < WORD_LIMIT
    ensures ParseBlob(Blob(s) + tail) == Ok(Piece(s, tail))
  {
    hide Encode, Decode;
    WordRange();
    DecodeEncode(|s|, WORD);
    var all := Blob(s) + tail;
    assert all == Encode(|s|, WORD) + (s + tail);
    assert all[..WORD] == Encode(|s|, WORD) && all[WORD..] == s + tail;
    assert all[WORD..WORD + |s|] == all[WORD..][..|s|] && all[WORD + |s|..] == all[WORD..][|s|..];
  }

  function Chosen(order: seq<seq<Byte>>, attrs: Attrs): Attrs {
    map k | k in attrs && k in order :: attrs[k]
  }

  lemma KeySized(attrs: Attrs, k: seq<Byte>)
    requires AttrsOk(attrs) && k in attrs
    ensures k != [] && |k| < WORD_LIMIT && |attrs[k]| < WORD_LIMIT
  {
  }

  lemma ChosenNone(attrs: Attrs)
    ensures Chosen([], attrs) == map[]
  {
  }

  lemma ChosenNext(order: seq<seq<Byte>>, attrs: Attrs)
    requires order != [] && order[0] in attrs
    ensures Chosen(order, attrs) == map[order[0] := attrs[order[0]]] + Chosen(order[1..], attrs)
  {
  }

  /** Attributes without an empty key are read back, whatever older bytes follow in the block. */
  lemma {:induction false} AttrsRoundTrip(order: seq<seq<Byte>>, attrs: Attrs, tail: seq<Byte>)
    requires AttrsOk(attrs) && forall k :: k in order ==> k in attrs
    ensures ParseAttrs(AttrStream(order, attrs) + tail) == Ok(Chosen(order, attrs))
  {
    hide Blob, ParseBlob, AttrsOk, Chosen;
    if order == [] {
      ParseOneBlob([], tail);
      ChosenNone(attrs);
    } else {
      var key, rest := order[0], AttrStream(order[1..], attrs) + tail;
      assert AttrStream(order, attrs) + tail == Blob(key) + (Blob(attrs[key]) + rest);
      KeySized(attrs, key);
      ParseOneBlob(key, Blob(attrs[key]) + rest);
      ParseOneBlob(attrs[key], rest);
      AttrsRoundTrip(order[1..], attrs, tail);
      ChosenNext(order, attrs);
    }
  }

  /** Keys in the parse of a stream come before its first empty key. */
  lemma {:induction false} ParsedKeys(order: seq<seq<Byte>>, attrs: Attrs, tail: seq<Byte>)
    requires AttrsSized(attrs) && forall k :: k in order ==> k in attrs
    ensures var r := ParseAttrs(AttrStream(order, attrs) + tail); r.Ok? && [] !in r.value
  {
    hide Blob, ParseBlob;
    if order == [] {
      ParseOneBlob([], tail);
    } else {
      var key, rest := order[0], AttrStream(order[1..], attrs) + tail;
      assert AttrStream(order, attrs) + tail == Blob(key) + (Blob(attrs[key]) + rest);
      ParseOneBlob(key, Blob(attrs[key]) + rest);
      if key != [] {
        ParseOneBlob(attrs[key], rest);
        ParsedKeys(order[1..], attrs, tail);
      }
    }
  }

  /** What is read back is what was stored exactly when no attribute has an empty name. */
  lemma AttrsReadBack(order: seq<seq<Byte>>, attrs: Attrs, tail: seq<Byte>)
    requires AttrsSized(attrs) && forall k :: k in order <==> k in attrs
    ensures ParseAttrs(AttrStream(order, attrs) + tail) == Ok(attrs) <==> [] !in attrs
  {
    hide ParseAttrs, AttrStream;
    ParsedKeys(order, attrs, tail);
    if [] !in attrs {
      AttrsRoundTrip(order, attrs, tail);
      assert Chosen(order, attrs) == attrs;
    }
  }

  /** `order` names every attribute once. */
  ghost predicate AttrOrder(order: seq<seq<Byte>>, names: set<seq<Byte>>) {
    && (forall k :: k in order <==> k in names)
    && forall i, j :: 0 <= i < j < |order| ==> order[i] != order[j]
  }

  /** `data` is what `write_xattr` serializes, in some order. */
  ghost predicate IsAttrStream(data: seq<Byte>, attrs: Attrs) {
    exists order :: AttrOrder(order, attrs.Keys) && data == AttrStream(order, attrs)
  }

  /** The block that starts with these bytes is read back as these attributes exactly when no name is empty. */
  lemma StreamHeld(data: seq<Byte>, attrs: Attrs, tail: seq<Byte>)
    requires IsAttrStream(data, attrs) && AttrsSized(attrs)
    ensures ParseAttrs(data + tail) == Ok(attrs) <==> [] !in attrs
  {
    hide ParseAttrs, AttrStream;
    var order :| AttrOrder(order, attrs.Keys) && data == AttrStream(order, attrs);
    AttrsReadBack(order, attrs, tail);
  }

  lemma CutBlob(s: seq<Byte>, n: nat)
    requires |s| < WORD_LIMIT && n < |Blob(s)|
    ensures ParseBlob(Blob(s)[..n]) == Err(Io)
  {
    hide Encode, Decode;
    WordRange();
    DecodeEncode(|s|, WORD);
    if n >= WORD {
      assert Blob(s)[..n][..WORD] == Encode(|s|, WORD);
    }
  }

  /** A stream that is cut short has no end mark, and reading it fails. */
  lemma {:induction false} CutStream(order: seq<seq<Byte>>, attrs: Attrs, n: nat)
    requires AttrsOk(attrs) && forall k :: k in order ==> k in attrs
    requires n < |AttrStream(order, attrs)|
    ensures ParseAttrs(AttrStream(order, attrs)[..n]) == Err(Io)
  {
    hide Blob, ParseBlob, AttrsOk;
    if order == [] {
      CutBlob([], n);
    } else {
      var key := order[0];
      KeySized(attrs, key);
      var k, v, rest := Blob(key), Blob(attrs[key]), AttrStream(order[1..], attrs);
      var s := (k + (v + rest))[..n];
      if n < |k| {
        assert s == k[..n];
        CutBlob(key, n);
      } else if n < |k| + |v| {
        assert s == k + v[..n - |k|];
        ParseOneBlob(key, v[..n - |k|]);
        CutBlob(attrs[key], n - |k|);
      } else {
        var tail := rest[..n - |k| - |v|];
        assert s == k + (v + tail);
        ParseOneBlob(key, v + tail);
        ParseOneBlob(attrs[key], tail);
        CutStream(order[1..], attrs, n - |k| - |v|);
      }
    }
  }

  /** So attributes longer than the block they are read from cannot be read back at all. */
  lemma LongLost(data: seq<Byte>, attrs: Attrs, n: nat)
    requires IsAttrStream(data, attrs) && AttrsOk(attrs) && n < |data|
    ensures ParseAttrs(data[..n]) == Err(Io)
  {
    hide ParseAttrs, AttrStream, AttrsOk;
    var order :| AttrOrder(order, attrs.Keys) && data == AttrStream(order, attrs);
    CutStream(order, attrs, n);
  }

  lemma StreamAdd(order: seq<seq<Byte>>, attrs: Attrs, k: seq<Byte>)
    requires k in attrs && forall j :: j in order ==> j in attrs
    ensures AttrStream([k] + order, attrs) == Blob(k) + (Blob(attrs[k]) + AttrStream(order, attrs))
  {
    assert ([k] + order)[1..] == order;
  }

  /** The bytes `write_xattr` serializes; the attributes may come in any order. */
  method SerializeAttrs(attrs: Attrs) returns (data: seq<Byte>)
    ensures IsAttrStream(data, attrs)
  {
    hide Blob, AttrStream;
    ghost var order: seq<seq<Byte>> := [];
    EmptyStream(attrs);
    data := Blob([]);
    var left := attrs.Keys;
    while left != {}
      invariant left <= attrs.Keys && AttrOrder(order, attrs.Keys - left) && data == AttrStream(order, attrs)
      decreases left
    {
      var k :| k in left;
      StreamAdd(order, attrs, k);
      data := Blob(k) + (Blob(attrs[k]) + data);
      order := [k] + order;
      left := left - {k};
    }
  }

  lemma EmptyStream(attrs: Attrs)
    ensures AttrStream([], attrs) == Blob([])
  {
  }

  /** The loop of `read_xattr`. */
  method ReadAttrs(bytes: seq<Byte>) returns (r: DkResult<Attrs>)
    ensures r == ParseAttrs(bytes)
  {
    hide ParseBlob;
    var s: seq<Byte>, found: Attrs := bytes, map[];
    while true
      invariant ParseAttrs(bytes).Ok? <==> ParseAttrs(s).Ok?
      invariant ParseAttrs(bytes).Err? ==> ParseAttrs(s) == ParseAttrs(bytes)
      invariant ParseAttrs(s).Ok? ==> found + ParseAttrs(s).value == ParseAttrs(bytes).value
      decreases |s|
    {
      var key := ParseBlob(s);
      if key.Err? {
        return Err(key.error);
      }
      if key.value.value == [] {
        assert found + map[] == found;
        return Ok(found);
      }
      var value := ParseBlob(key.value.rest);
      if value.Err? {
        return Err(value.error);
      }
      found := found[key.value.value := value.value.value];
      s := value.value.rest;
    }
  }
}
