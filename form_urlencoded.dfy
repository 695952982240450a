/**
  The application/x-www-form-urlencoded serializer of `setFormURLEncoded`
  (PlateSolver/API/URLRequestExtension.swift), and the parser of section 5.1 of
  the WHATWG URL Standard that it is meant to be read back by.

  The Swift code percent-escapes each string with the allow-list
  `formURLEncodedAllowedCharacters` (which also admits the space), then
  replaces every space by `+`, pairs names and values with `=` and joins the
  pairs with `&`. The allow-list is ASCII and every byte of a non-ASCII
  character's UTF-8 encoding is 0x80 or above, so escaping characters is the
  same as escaping the bytes of their UTF-8 encoding, which is what is
  modelled here. The output is ASCII, so its UTF-8 encoding is itself.
*/
module FormUrlEncoded {
  import opened Wrappers
  import opened Bytes
  import Hex
  import Utf8

  const Space: Byte := 0x20
  const Plus: Byte := 0x2B
  const Percent: Byte := 0x25
  const Ampersand: Byte := 0x26
  const EqualsSign: Byte := 0x3D

  /** One `URLQueryItem`: a name and an optional value. */
  datatype QueryItem = QueryItem(name: string, value: Option<string>)

  /** The bytes the WHATWG serializer leaves alone: `*`, `-`, `.`, digits, `A-Z`, `_`, `a-z`. */
  predicate IsUnreserved(b: Byte) {
    || b == 0x2A
    || 0x2D <= b <= 0x2E
    || 0x30 <= b <= 0x39
    || 0x41 <= b <= 0x5A
    || b == 0x5F
    || 0x61 <= b <= 0x7A
  }

  /** `formURLEncodedAllowedCharacters`: the unreserved bytes and the space, which is dealt with later. */
  predicate InAllowedSet(b: Byte) {
    IsUnreserved(b) || b == Space
  }

  /** A hexadecimal digit as the byte that encodes it. */
  function HexByte(d: nat): (b: Byte)
    requires d < 16
    ensures IsUnreserved(b)
  {
    Hex.Digit(d) as int
  }

  /** `%` and two upper-case hexadecimal digits, or the byte itself when the allow-list admits it. */
  function EscapeByte(b: Byte): (r: Bytes)
    ensures InAllowedSet(b) ==> r == [b]
    ensures !InAllowedSet(b) ==> |r| == 3 && r[0] == Percent && IsUnreserved(r[1]) && IsUnreserved(r[2])
  {
    if InAllowedSet(b) then [b] else [Percent, HexByte(b / 16), HexByte(b % 16)]
  }

  /** `addingPercentEncoding(withAllowedCharacters: formURLEncodedAllowedCharacters)`. */
  function PercentEncode(s: Bytes): (r: Bytes)
    ensures forall i :: 0 <= i < |r| ==> InAllowedSet(r[i]) || r[i] == Percent
  {
    if s == [] then [] else EscapeByte(s[0]) + PercentEncode(s[1..])
  }

  /** `replacingOccurrences(of: " ", with: "+")`. */
  function ReplaceSpaces(s: Bytes): (r: Bytes)
    ensures |r| == |s|
    ensures forall i :: 0 <= i < |s| ==> r[i] == if s[i] == Space then Plus else s[i]
  {
    seq(|s|, i requires 0 <= i < |s| => if s[i] == Space then Plus else s[i])
  }

  /** The inner `serialize` of `setFormURLEncoded`, on the UTF-8 bytes of the string. */
  function SerializeBytes(s: Bytes): Bytes {
    ReplaceSpaces(PercentEncode(s))
  }

  /** `serialize` of a string. */
  function Serialize(s: string): Bytes {
    SerializeBytes(Utf8.Encode(s))
  }

  /** `"\(name)=\(value ?? "")"` with both sides serialized. */
  function SerializeItem(item: QueryItem): Bytes {
    Serialize(item.name) + [EqualsSign] + Serialize(item.value.GetOr(""))
  }

  /** The lazy `map` of `setFormURLEncoded`: every item serialized, in order. */
  function SerializeItems(items: seq<QueryItem>): (r: seq<Bytes>)
    ensures |r| == |items|
    ensures forall i :: 0 <= i < |items| ==> r[i] == SerializeItem(items[i])
  {
    if items == [] then [] else [SerializeItem(items[0])] + SerializeItems(items[1..])
  }

  /** The body `setFormURLEncoded` stores in `httpBody`. */
  function FormBody(items: seq<QueryItem>): Bytes {
    Join(SerializeItems(items), [Ampersand])
  }

  // ---------------------------------------------------------------------
  // The parser of section 5.1 of the WHATWG URL Standard
  // ---------------------------------------------------------------------

  /** The position of the first `x` in `s`. */
  function IndexOf(s: Bytes, x: Byte): (k: nat)
    requires x in s
    ensures k < |s| && s[k] == x && x !in s[..k]
  {
    if s[0] == x then 0 else 1 + IndexOf(s[1..], x)
  }

  /** Strictly splitting `s` on `sep`: one more piece than there are separators. */
  function Split(s: Bytes, sep: Byte): (r: seq<Bytes>)
    ensures |r| >= 1
    decreases |s|
  {
    if sep in s then
      var k := IndexOf(s, sep);
      [s[..k]] + Split(s[k + 1..], sep)
    else
      [s]
  }

  /** `+` becomes a space again. */
  function ReplacePluses(s: Bytes): (r: Bytes)
    ensures |r| == |s|
    ensures forall i :: 0 <= i < |s| ==> r[i] == if s[i] == Plus then Space else s[i]
  {
    seq(|s|, i requires 0 <= i < |s| => if s[i] == Plus then Space else s[i])
  }

  predicate IsHexByte(b: Byte) {
    b < 0x80 && Hex.IsDigit(b as char)
  }

  /** Percent-decoding (section 1.3 of the WHATWG URL Standard): a `%` not followed by two hexadecimal digits stays as it is. */
  function PercentDecode(s: Bytes): Bytes {
    if s == [] then []
    else if |s| >= 3 && s[0] == Percent && IsHexByte(s[1]) && IsHexByte(s[2]) then
      [Hex.Value(s[1] as char) * 16 + Hex.Value(s[2] as char)] + PercentDecode(s[3..])
    else
      [s[0]] + PercentDecode(s[1..])
  }

  function DecodeComponent(s: Bytes): Bytes {
    PercentDecode(ReplacePluses(s))
  }

  /** One non-empty sequence: split at the first `=`, or all name and an empty value. */
  function ParseSequence(s: Bytes): (Bytes, Bytes) {
    if EqualsSign in s then
      var k := IndexOf(s, EqualsSign);
      (DecodeComponent(s[..k]), DecodeComponent(s[k + 1..]))
    else
      (DecodeComponent(s), [])
  }

  /** Empty sequences are skipped. */
  function ParseSequences(seqs: seq<Bytes>): seq<(Bytes, Bytes)> {
    if seqs == [] then []
    else (if seqs[0] == [] then [] else [ParseSequence(seqs[0])]) + ParseSequences(seqs[1..])
  }

  /** The application/x-www-form-urlencoded parser, stopping at byte sequences (before UTF-8 decoding). */
  function Parse(body: Bytes): seq<(Bytes, Bytes)> {
    ParseSequences(Split(body, Ampersand))
  }

  // ---------------------------------------------------------------------
  // What the serializer promises
  // ---------------------------------------------------------------------

  lemma {:induction false} PercentEncodeAppend(a: Bytes, b: Bytes)
    ensures PercentEncode(a + b) == PercentEncode(a) + PercentEncode(b)
  {
    if a == [] {
      assert a + b == b;
    } else {
      assert (a + b)[0] == a[0];
      assert (a + b)[1..] == a[1..] + b;
      PercentEncodeAppend(a[1..], b);
    }
  }

  /** Serializing one byte: allow-listed bytes pass through, a space becomes `+`, anything else `%XX`. */
  lemma SerializeOneByte(b: Byte)
    ensures IsUnreserved(b) ==> SerializeBytes([b]) == [b]
    ensures b == Space ==> SerializeBytes([b]) == [Plus]
    ensures !InAllowedSet(b) ==> SerializeBytes([b]) == [Percent, HexByte(b / 16), HexByte(b % 16)]
  {
    assert PercentEncode([b]) == EscapeByte(b) + PercentEncode([]);
  }

  /** Serialization works byte by byte: a string serializes as the concatenation of its bytes' serializations. */
  lemma SerializeAppend(a: Bytes, b: Bytes)
    ensures SerializeBytes(a + b) == SerializeBytes(a) + SerializeBytes(b)
  {
    PercentEncodeAppend(a, b);
    var pa, pb := PercentEncode(a), PercentEncode(b);
    assert ReplaceSpaces(pa + pb) == ReplaceSpaces(pa) + ReplaceSpaces(pb);
  }

  /**
    Every serialized byte is unreserved, `+` or `%`. In particular a serialized
    name or value holds no `&` and no `=`, so those in the body are separators.
  */
  lemma SerializedAlphabet(s: Bytes)
    ensures forall i :: 0 <= i < |SerializeBytes(s)| ==>
      var c := SerializeBytes(s)[i]; IsUnreserved(c) || c == Plus || c == Percent
    ensures Ampersand !in SerializeBytes(s) && EqualsSign !in SerializeBytes(s)
  {
  }

  /** Percent-decoding undoes percent-encoding. */
  lemma {:induction false} PercentDecodeEncode(s: Bytes)
    ensures PercentDecode(PercentEncode(s)) == s
  {
    if s != [] {
      var b, e, rest := s[0], EscapeByte(s[0]), PercentEncode(s[1..]);
      assert PercentEncode(s) == e + rest;
      PercentDecodeEncode(s[1..]);
      if InAllowedSet(b) {
        assert (e + rest)[1..] == rest;
      } else {
        assert (e + rest)[3..] == rest;
        assert IsHexByte(e[1]) && IsHexByte(e[2]);
        assert Hex.Value(e[1] as char) == b / 16;
        assert Hex.Value(e[2] as char) == b % 16;
      }
    }
  }

  /** Reading one serialized string back, `+` to space and then percent-decoding, gives its bytes. */
  lemma DecodeSerialize(s: Bytes)
    ensures DecodeComponent(SerializeBytes(s)) == s
  {
    var p := PercentEncode(s);
    assert ReplacePluses(ReplaceSpaces(p)) == p;
    PercentDecodeEncode(s);
  }

  lemma {:induction false} SplitJoin(parts: seq<Bytes>, sep: Byte)
    requires |parts| >= 1
    requires forall j :: 0 <= j < |parts| ==> sep !in parts[j]
    ensures Split(Join(parts, [sep]), sep) == parts
  {
    if |parts| > 1 {
      JoinFirst(parts, [sep]);
      var head, tail := parts[0], Join(parts[1..], [sep]);
      var joined := head + [sep] + tail;
      assert joined[|head|] == sep;
      assert joined[..|head|] == head;
      assert IndexOf(joined, sep) == |head|;
      assert joined[|head| + 1..] == tail;
      SplitJoin(parts[1..], sep);
    }
  }

  /** One serialized item parses back to its name and its value (or the empty string). */
  lemma ParseSerializedItem(item: QueryItem)
    ensures SerializeItem(item) != []
    ensures ParseSequence(SerializeItem(item)) ==
      (Utf8.Encode(item.name), Utf8.Encode(item.value.GetOr("")))
  {
    var n, v := Serialize(item.name), Serialize(item.value.GetOr(""));
    var s := n + [EqualsSign] + v;
    SerializedAlphabet(Utf8.Encode(item.name));
    assert s[|n|] == EqualsSign;
    assert s[..|n|] == n;
    assert IndexOf(s, EqualsSign) == |n|;
    assert s[|n| + 1..] == v;
    DecodeSerialize(Utf8.Encode(item.name));
    DecodeSerialize(Utf8.Encode(item.value.GetOr("")));
  }

  /** What the parser recovers from the body: each item's UTF-8 name and value, a missing value as empty. */
  function Expected(items: seq<QueryItem>): (r: seq<(Bytes, Bytes)>)
    ensures |r| == |items|
    ensures forall i :: 0 <= i < |items| ==>
      r[i] == (Utf8.Encode(items[i].name), Utf8.Encode(items[i].value.GetOr("")))
  {
    if items == [] then []
    else [(Utf8.Encode(items[0].name), Utf8.Encode(items[0].value.GetOr("")))] + Expected(items[1..])
  }

  lemma {:induction false} ParseSequencesSerialized(items: seq<QueryItem>)
    ensures ParseSequences(SerializeItems(items)) == Expected(items)
  {
    if items != [] {
      ParseSerializedItem(items[0]);
      ParseSequencesSerialized(items[1..]);
      assert SerializeItems(items)[1..] == SerializeItems(items[1..]);
    }
  }

  /**
    Round trip: parsing the serialized body per section 5.1 of the WHATWG URL
    Standard gives back every item, in order, with a nil value read as empty.
  */
  lemma FormRoundTrip(items: seq<QueryItem>)
    ensures Parse(FormBody(items)) == Expected(items)
  {
    var parts := SerializeItems(items);
    if items == [] {
      assert Split([], Ampersand) == [[]];
      assert ParseSequences([[]]) == [];
    } else {
      forall j | 0 <= j < |parts| ensures Ampersand !in parts[j] {
        SerializedAlphabet(Utf8.Encode(items[j].name));
        SerializedAlphabet(Utf8.Encode(items[j].value.GetOr("")));
      }
      SplitJoin(parts, Ampersand);
      ParseSequencesSerialized(items);
    }
  }

  lemma {:induction false} JoinCounts(parts: seq<Bytes>, sep: Byte, x: Byte)
    requires |parts| >= 1
    requires x != sep
    ensures multiset(Join(parts, [sep]))[sep] == |parts| - 1 + SumCount(parts, sep)
    ensures multiset(Join(parts, [sep]))[x] == SumCount(parts, x)
  {
    if |parts| > 1 {
      JoinFirst(parts, [sep]);
      JoinCounts(parts[1..], sep, x);
    }
  }

  /** How often `x` occurs in all of `parts` together. */
  function SumCount(parts: seq<Bytes>, x: Byte): nat {
    if parts == [] then 0 else multiset(parts[0])[x] + SumCount(parts[1..], x)
  }

  lemma {:induction false} ItemCounts(items: seq<QueryItem>)
    ensures SumCount(SerializeItems(items), Ampersand) == 0
    ensures SumCount(SerializeItems(items), EqualsSign) == |items|
  {
    var parts := SerializeItems(items);
    if items != [] {
      var item := items[0];
      SerializedAlphabet(Utf8.Encode(item.name));
      SerializedAlphabet(Utf8.Encode(item.value.GetOr("")));
      assert multiset(parts[0]) == multiset(Serialize(item.name)) + multiset{EqualsSign}
        + multiset(Serialize(item.value.GetOr("")));
      assert parts[1..] == SerializeItems(items[1..]);
      ItemCounts(items[1..]);
    }
  }

  /** n items give n - 1 separating `&` and n `=`; no items give the empty body. */
  lemma FormBodySeparators(items: seq<QueryItem>)
    ensures items == [] ==> FormBody(items) == []
    ensures items != [] ==> multiset(FormBody(items))[Ampersand] == |items| - 1
    ensures multiset(FormBody(items))[EqualsSign] == |items|
  {
    if items != [] {
      JoinCounts(SerializeItems(items), Ampersand, EqualsSign);
      ItemCounts(items);
    }
  }
}
