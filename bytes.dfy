/** Octets, the element type of Foundation's `Data`, and joining byte strings. */
module Bytes {

  type Byte = b: int | 0 <= b < 256

  type Bytes = seq<Byte>

  /**
    `parts` with `sep` between neighbours, as `joined(separator:)` builds it
    and as a loop appending a separator before every part but the first does.
  */
  function Join(parts: seq<Bytes>, sep: Bytes): Bytes
    decreases |parts|
  {
    if parts == [] then []
    else if |parts| == 1 then parts[0]
    else Join(parts[..|parts| - 1], sep) + sep + parts[|parts| - 1]
  }

  /** The joined string starts with the first part. */
  lemma {:induction false} JoinStartsWithFirst(parts: seq<Bytes>, sep: Bytes)
    requires parts != []
    ensures parts[0] <= Join(parts, sep)
  {
    if |parts| > 1 {
      var init := parts[..|parts| - 1];
      assert init[0] == parts[0];
      JoinStartsWithFirst(init, sep);
    }
  }

  /** Cutting the parts anywhere cuts the joined string at one separator. */
  lemma {:induction false} JoinSplit(parts: seq<Bytes>, k: nat, sep: Bytes)
    requires 0 < k < |parts|
    ensures Join(parts, sep) == Join(parts[..k], sep) + sep + Join(parts[k..], sep)
  {
    var n := |parts|;
    if k == n - 1 {
      assert parts[k..] == [parts[n - 1]];
    } else {
      var init := parts[..n - 1];
      JoinSplit(init, k, sep);
      assert init[..k] == parts[..k];
      var rest := parts[k..];
      assert rest[..|rest| - 1] == init[k..];
    }
  }

  /** The joined string is the first part, then the separator and the rest joined. */
  lemma JoinFirst(parts: seq<Bytes>, sep: Bytes)
    requires |parts| > 1
    ensures Join(parts, sep) == parts[0] + sep + Join(parts[1..], sep)
  {
    JoinSplit(parts, 1, sep);
    assert parts[..1] == [parts[0]];
  }
}
