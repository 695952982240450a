/**
  The multipart/form-data body of `setMultipartFormData`
  (PlateSolver/API/URLRequestExtension.swift), in the shape of section 4 of
  RFC 7578 with the boundary delimiters of section 5.1.1 of RFC 2046.

  What the Swift code takes from its environment is a parameter here: the two
  random 32-bit numbers of the boundary, the text of the filename time stamp,
  and the string encoding, given as a partial function from strings to bytes.
  The parameters are an ordered sequence of (name, value) pairs.
*/
module Multipart {
  import opened Wrappers
  import opened Bytes
  import Hex
  import Utf8

  /** A parameter value of type `Any`: a `String`, a `Data`, or anything else. */
  datatype FormValue = Text(text: string) | Blob(data: Bytes) | Other

  type Param = (string, FormValue)

  /** `MultipartFormDataEncodingError`; only `CharacterSetName` is ever thrown. */
  datatype MultipartFormDataEncodingError =
    | CharacterSetName
    | Name(name: string)
    | Value(value: string, name: string)

  /** `UInt32.random(in: .min ... .max)`. */
  type UInt32 = n: int | 0 <= n < 0x1_0000_0000

  /** `String.data(using: encoding)`: `None` when the string is not representable. */
  type Encoder = string -> Option<Bytes>

  const BoundaryDashes := "------------------------"

  /** `String(format: "------------------------%08X%08X", r1, r2)`. */
  function Boundary(r1: UInt32, r2: UInt32): string {
    Hex.Pow16Eight();
    BoundaryDashes + Hex.Fixed(r1, 8) + Hex.Fixed(r2, 8)
  }

  /** The boundary is 24 dashes and 16 upper-case hexadecimal digits, from which both random numbers can be read back. */
  lemma BoundaryShape(r1: UInt32, r2: UInt32)
    ensures var b := Boundary(r1, r2);
      && |b| == 40
      && (forall i :: 0 <= i < 24 ==> b[i] == '-')
      && (forall i :: 24 <= i < 40 ==> Hex.IsUpperDigit(b[i]))
      && Hex.DigitsValue(b[24..32]) == r1
      && Hex.DigitsValue(b[32..]) == r2
  {
    Hex.Pow16Eight();
    var b := Boundary(r1, r2);
    assert b[24..32] == Hex.Fixed(r1, 8);
    assert b[32..] == Hex.Fixed(r2, 8);
    Hex.FixedRoundTrip(r1, 8);
    Hex.FixedRoundTrip(r2, 8);
  }

  /** The request's `Content-Type` value. */
  function ContentTypeHeader(charset: string, boundary: string): string {
    "multipart/form-data; charset=" + charset + "; boundary=" + boundary
  }

  const CrLf := "\r\n"

  /** The delimiter line that opens every part. */
  function OpeningLine(boundary: string): string {
    "--" + boundary + CrLf
  }

  /** The close delimiter that ends the body. */
  function Terminator(boundary: string): string {
    CrLf + "--" + boundary + "--" + CrLf
  }

  /** A `String` is plain text; every other value is an octet stream. */
  function ContentTypeLine(value: FormValue): string {
    if value.Text? then "Content-Type: text/plain\r\n"
    else "Content-Type: application/octet-stream\r\n"
  }

  /** Only a `Data` value is given a file name. */
  function DispositionLine(name: string, value: FormValue, stamp: string): string {
    "Content-Disposition: form-data; name=\"" + name + "\""
      + (if value.Blob? then "; filename=\"SolveMe-" + stamp + "\"" else "")
      + CrLf
  }

  /** The content bytes: an unencodable `String` and a value of any other type give none. */
  function Content(value: FormValue, encode: Encoder): Bytes {
    match value
    case Text(s) => encode(s).GetOr([])
    case Blob(d) => d
    case Other => []
  }

  /** One part: delimiter line, the two header lines, a blank line, the content. */
  function Part(boundary: string, param: Param, stamp: string, encode: Encoder): (r: Bytes)
    ensures |r| > 0
  {
    Utf8.Encode(OpeningLine(boundary))
      + Utf8.Encode(ContentTypeLine(param.1))
      + Utf8.Encode(DispositionLine(param.0, param.1, stamp))
      + Utf8.Encode(CrLf)
      + Content(param.1, encode)
  }

  /** Every parameter's part, in order. */
  function PartList(params: seq<Param>, boundary: string, stamp: string, encode: Encoder): (r: seq<Bytes>)
    ensures |r| == |params|
    ensures forall i :: 0 <= i < |params| ==> r[i] == Part(boundary, params[i], stamp, encode)
  {
    seq(|params|, i requires 0 <= i < |params| => Part(boundary, params[i], stamp, encode))
  }

  /** The parts in order, each after the first preceded by CRLF. */
  function Parts(params: seq<Param>, boundary: string, stamp: string, encode: Encoder): Bytes {
    Join(PartList(params, boundary, stamp, encode), Utf8.Encode(CrLf))
  }

  /** The `httpBody` that `setMultipartFormData` stores. */
  function Body(params: seq<Param>, boundary: string, stamp: string, encode: Encoder): Bytes {
    Parts(params, boundary, stamp, encode) + Utf8.Encode(Terminator(boundary))
  }

  /** One turn of the loop in `setMultipartFormData`: the part for `name` and `value` appended to `body`. */
  method AppendPart(body: Bytes, boundary: string, name: string, value: FormValue, stamp: string, encode: Encoder)
    returns (r: Bytes)
    ensures r == body + Part(boundary, (name, value), stamp, encode)
  {
    ghost var o, c, d, e := Utf8.Encode(OpeningLine(boundary)), Utf8.Encode(ContentTypeLine(value)),
                            Utf8.Encode(DispositionLine(name, value, stamp)), Utf8.Encode(CrLf);
    r := body + Utf8.Encode(OpeningLine(boundary));
    r := r + Utf8.Encode(ContentTypeLine(value));
    r := r + Utf8.Encode(DispositionLine(name, value, stamp));
    r := r + Utf8.Encode(CrLf);
    assert r == body + (o + c + d + e);
    ghost var headers := r;
    var dataValue: Option<Bytes>;
    if value.Text? {
      dataValue := encode(value.text);
    } else if value.Blob? {
      dataValue := Some(value.data);
    } else {
      dataValue := None;
    }
    if dataValue.Some? {
      r := r + dataValue.value;
    }
    assert dataValue.GetOr([]) == Content(value, encode);
    assert r == headers + Content(value, encode);
  }

  /** The closure that builds `httpBody`: a loop appending to a growing buffer. */
  method BuildBody(params: seq<Param>, boundary: string, stamp: string, encode: Encoder)
    returns (body: Bytes)
    ensures body == Body(params, boundary, stamp, encode)
  {
    ghost var parts := PartList(params, boundary, stamp, encode);
    ghost var sep := Utf8.Encode(CrLf);
    body := [];
    var i := 0;
    while i < |params|
      invariant 0 <= i <= |params|
      invariant body == Join(parts[..i], sep)
      invariant |body| == 0 <==> i == 0
    {
      var (name, value) := params[i];
      ghost var before := body;
      if |body| > 0 {
        body := body + Utf8.Encode(CrLf);
      }
      body := AppendPart(body, boundary, name, value, stamp, encode);
      ghost var next := parts[..i + 1];
      assert next[..i] == parts[..i] && next[i] == parts[i];
      assert body == (if i == 0 then parts[i] else before + sep + parts[i]);
      assert body == Join(next, sep);
      i := i + 1;
    }
    assert parts[..i] == parts;
    body := body + Utf8.Encode(Terminator(boundary));
  }

  /** Every part opens with the delimiter line. */
  lemma PartOpens(boundary: string, param: Param, stamp: string, encode: Encoder)
    ensures Utf8.Encode(OpeningLine(boundary)) <= Part(boundary, param, stamp, encode)
  {
    var o := Utf8.Encode(OpeningLine(boundary));
    var p := Part(boundary, param, stamp, encode);
    assert p[..|o|] == o;
  }

  /**
    Framing: with no parameters the body is the close delimiter alone;
    otherwise it opens with the first part's delimiter line; it always ends
    with the close delimiter.
  */
  lemma BodyFraming(params: seq<Param>, boundary: string, stamp: string, encode: Encoder)
    ensures params == [] ==> Body(params, boundary, stamp, encode) == Utf8.Encode(Terminator(boundary))
    ensures params != [] ==> Utf8.Encode(OpeningLine(boundary)) <= Body(params, boundary, stamp, encode)
    ensures var b, t := Body(params, boundary, stamp, encode), Utf8.Encode(Terminator(boundary));
      |t| <= |b| && b[|b| - |t|..] == t
  {
    var parts := PartList(params, boundary, stamp, encode);
    var joined := Parts(params, boundary, stamp, encode);
    var b, t := Body(params, boundary, stamp, encode), Utf8.Encode(Terminator(boundary));
    if params != [] {
      var o := Utf8.Encode(OpeningLine(boundary));
      PartOpens(boundary, params[0], stamp, encode);
      JoinStartsWithFirst(parts, Utf8.Encode(CrLf));
      assert o <= parts[0] <= joined;
      assert b[..|o|] == joined[..|o|] == o;
    }
    assert b[|b| - |t|..] == t;
  }

  /** The parts of a slice of the parameters are the slice of their parts. */
  lemma PartListSlices(params: seq<Param>, k: nat, boundary: string, stamp: string, encode: Encoder)
    requires k <= |params|
    ensures PartList(params, boundary, stamp, encode)[..k] == PartList(params[..k], boundary, stamp, encode)
    ensures PartList(params, boundary, stamp, encode)[k..] == PartList(params[k..], boundary, stamp, encode)
  {
    var parts := PartList(params, boundary, stamp, encode);
    var front, back := PartList(params[..k], boundary, stamp, encode), PartList(params[k..], boundary, stamp, encode);
    assert |parts[..k]| == |front| && forall i :: 0 <= i < k ==> parts[..k][i] == front[i];
    assert |parts[k..]| == |back| && forall i :: 0 <= i < |back| ==> parts[k..][i] == back[i];
  }

  /** Splitting the parameters anywhere splits the body at a CRLF: every part after the first is preceded by CRLF. */
  lemma PartsSplit(params: seq<Param>, k: nat, boundary: string, stamp: string, encode: Encoder)
    requires 0 < k < |params|
    ensures Parts(params, boundary, stamp, encode)
      == Parts(params[..k], boundary, stamp, encode) + Utf8.Encode(CrLf) + Parts(params[k..], boundary, stamp, encode)
  {
    PartListSlices(params, k, boundary, stamp, encode);
    JoinSplit(PartList(params, boundary, stamp, encode), k, Utf8.Encode(CrLf));
  }

  /** Part headers and content by value type. A `String` is plain text with no file name, followed by its encoding. */
  lemma PartOfText(boundary: string, name: string, text: string, stamp: string, encode: Encoder)
    ensures Part(boundary, (name, Text(text)), stamp, encode)
      == Utf8.Encode("--" + boundary + "\r\n" + "Content-Type: text/plain\r\n"
                     + "Content-Disposition: form-data; name=\"" + name + "\"" + "\r\n" + "\r\n") + encode(text).GetOr([])
  {
    var o, c, d := OpeningLine(boundary), ContentTypeLine(Text(text)), DispositionLine(name, Text(text), stamp);
    assert d == "Content-Disposition: form-data; name=\"" + name + "\"" + "\r\n";
    assert o + c + d + CrLf == "--" + boundary + "\r\n" + "Content-Type: text/plain\r\n"
                     + "Content-Disposition: form-data; name=\"" + name + "\"" + "\r\n" + "\r\n";
    HeaderEncoding(boundary, name, Text(text), stamp);
  }

  /** A `String` the encoding cannot represent contributes its headers and no content; nothing is thrown. */
  lemma PartOfUnencodableText(boundary: string, name: string, text: string, stamp: string, encode: Encoder)
    requires encode(text).None?
    ensures Part(boundary, (name, Text(text)), stamp, encode)
      == Utf8.Encode("--" + boundary + "\r\n" + "Content-Type: text/plain\r\n"
                     + "Content-Disposition: form-data; name=\"" + name + "\"" + "\r\n" + "\r\n")
  {
    PartOfText(boundary, name, text, stamp, encode);
  }

  /** A `Data` value is an octet stream named `SolveMe-<stamp>`, followed by its raw bytes. */
  lemma PartOfBlob(boundary: string, name: string, data: Bytes, stamp: string, encode: Encoder)
    ensures Part(boundary, (name, Blob(data)), stamp, encode)
      == Utf8.Encode("--" + boundary + "\r\n" + "Content-Type: application/octet-stream\r\n"
                     + "Content-Disposition: form-data; name=\"" + name + "\"" + "; filename=\"SolveMe-" + stamp + "\""
                     + "\r\n" + "\r\n") + data
  {
    var o, c, d := OpeningLine(boundary), ContentTypeLine(Blob(data)), DispositionLine(name, Blob(data), stamp);
    assert d == "Content-Disposition: form-data; name=\"" + name + "\"" + "; filename=\"SolveMe-" + stamp + "\"" + "\r\n";
    assert o + c + d + CrLf == "--" + boundary + "\r\n" + "Content-Type: application/octet-stream\r\n"
                     + "Content-Disposition: form-data; name=\"" + name + "\"" + "; filename=\"SolveMe-" + stamp + "\""
                     + "\r\n" + "\r\n";
    HeaderEncoding(boundary, name, Blob(data), stamp);
  }

  /** A value of any other type is an octet stream with no file name and no content. */
  lemma PartOfOther(boundary: string, name: string, value: FormValue, stamp: string, encode: Encoder)
    requires value.Other?
    ensures Part(boundary, (name, value), stamp, encode)
      == Utf8.Encode("--" + boundary + "\r\n" + "Content-Type: application/octet-stream\r\n"
                     + "Content-Disposition: form-data; name=\"" + name + "\"" + "\r\n" + "\r\n")
  {
    var o, c, d := OpeningLine(boundary), ContentTypeLine(value), DispositionLine(name, value, stamp);
    assert d == "Content-Disposition: form-data; name=\"" + name + "\"" + "\r\n";
    assert o + c + d + CrLf == "--" + boundary + "\r\n" + "Content-Type: application/octet-stream\r\n"
                     + "Content-Disposition: form-data; name=\"" + name + "\"" + "\r\n" + "\r\n";
    HeaderEncoding(boundary, name, value, stamp);
  }

  /** The four header pieces of a part encode as their concatenation. */
  lemma HeaderEncoding(boundary: string, name: string, value: FormValue, stamp: string)
    ensures var o, c, d := OpeningLine(boundary), ContentTypeLine(value), DispositionLine(name, value, stamp);
      Utf8.Encode(o) + Utf8.Encode(c) + Utf8.Encode(d) + Utf8.Encode(CrLf) == Utf8.Encode(o + c + d + CrLf)
  {
    var o, c, d := OpeningLine(boundary), ContentTypeLine(value), DispositionLine(name, value, stamp);
    Utf8.EncodeAppend(o, c);
    Utf8.EncodeAppend(o + c, d);
    Utf8.EncodeAppend(o + c + d, CrLf);
  }

  // ---------------------------------------------------------------------
  // What the documentation promises
  // ---------------------------------------------------------------------

  /** A parameter whose name and, for a `String`, whose value the encoding can represent. */
  predicate Representable(param: Param, encode: Encoder) {
    encode(param.0).Some? && (param.1.Text? ==> encode(param.1.text).Some?)
  }

  /**
    The error the documentation of `setMultipartFormData` promises for the
    first parameter the encoding cannot represent: `name` for its key,
    `value` for a `String` value.
  */
  function FirstRejection(params: seq<Param>, encode: Encoder): (r: Option<MultipartFormDataEncodingError>)
    ensures r.None? <==> forall i :: 0 <= i < |params| ==> Representable(params[i], encode)
    ensures r.Some? ==> !r.value.CharacterSetName?
  {
    if params == [] then None
    else if encode(params[0].0).None? then Some(Name(params[0].0))
    else if params[0].1.Text? && encode(params[0].1.text).None? then Some(Value(params[0].1.text, params[0].0))
    else FirstRejection(params[1..], encode)
  }

  /** The disposition line up to the name, and what follows the name. */
  const DispositionHead := "Content-Disposition: form-data; name=\""

  function DispositionTail(value: FormValue, stamp: string): string {
    "\"" + (if value.Blob? then "; filename=\"SolveMe-" + stamp + "\"" else "") + CrLf
  }

  /**
    A part as documented: the same layout as `Part`, but the name is written
    in the chosen encoding, as the value is.
  */
  function DocumentedPart(boundary: string, param: Param, stamp: string, encode: Encoder): Bytes
    requires Representable(param, encode)
  {
    Utf8.Encode(OpeningLine(boundary) + ContentTypeLine(param.1) + DispositionHead)
      + encode(param.0).value
      + Utf8.Encode(DispositionTail(param.1, stamp) + CrLf)
      + Content(param.1, encode)
  }

  /** The body as documented: the documented parts joined with CRLF, then the close delimiter. */
  function DocumentedBody(params: seq<Param>, boundary: string, stamp: string, encode: Encoder): Bytes
    requires forall i :: 0 <= i < |params| ==> Representable(params[i], encode)
  {
    Join(seq(|params|, i requires 0 <= i < |params| => DocumentedPart(boundary, params[i], stamp, encode)),
         Utf8.Encode(CrLf))
      + Utf8.Encode(Terminator(boundary))
  }

  /** A body, or the error that stops it from being built. */
  datatype Checked = Encoded(body: Bytes) | Rejected(error: MultipartFormDataEncodingError)

  /**
    What the documentation of `setMultipartFormData` describes: rejected when
    any name or `String` value is not representable; otherwise the body in
    which every name and every `String` value is written in the encoding.
  */
  function CheckedBody(params: seq<Param>, boundary: string, stamp: string, encode: Encoder): (r: Checked)
    ensures r.Rejected? <==> exists i :: 0 <= i < |params| && !Representable(params[i], encode)
    ensures r.Encoded? ==>
      && (forall i :: 0 <= i < |params| ==> Representable(params[i], encode))
      && r.body == DocumentedBody(params, boundary, stamp, encode)
    ensures r.Encoded? ==> forall i :: 0 <= i < |params| && params[i].1.Text? ==>
      Content(params[i].1, encode) == encode(params[i].1.text).value
  {
    match FirstRejection(params, encode)
    case Some(e) => Rejected(e)
    case None => Encoded(DocumentedBody(params, boundary, stamp, encode))
  }

  /** When the encoding writes the name as UTF-8, the documented part is the part the code builds. */
  lemma DocumentedPartUtf8(boundary: string, param: Param, stamp: string, encode: Encoder)
    requires Representable(param, encode) && encode(param.0) == Some(Utf8.Encode(param.0))
    ensures DocumentedPart(boundary, param, stamp, encode) == Part(boundary, param, stamp, encode)
  {
    var o, c, d := OpeningLine(boundary), ContentTypeLine(param.1), DispositionLine(param.0, param.1, stamp);
    DispositionSplit(param.0, param.1, stamp);
    assert o + c + d + CrLf == (o + c + DispositionHead) + param.0 + (DispositionTail(param.1, stamp) + CrLf);
    HeaderEncoding(boundary, param.0, param.1, stamp);
    EncodeThree(o + c + DispositionHead, param.0, DispositionTail(param.1, stamp) + CrLf);
  }

  /** Three pieces of text encode as their concatenation. */
  lemma EncodeThree(h: string, n: string, t: string)
    ensures Utf8.Encode(h + n + t) == Utf8.Encode(h) + Utf8.Encode(n) + Utf8.Encode(t)
  {
    Utf8.EncodeAppend(h, n);
    Utf8.EncodeAppend(h + n, t);
  }

  /** The disposition line is its head, the name, and its tail. */
  lemma DispositionSplit(name: string, value: FormValue, stamp: string)
    ensures DispositionLine(name, value, stamp) == DispositionHead + name + DispositionTail(value, stamp)
  {
  }

  /** When every name encodes as UTF-8, the documented body is the body the code builds. */
  lemma DocumentedBodyUtf8(params: seq<Param>, boundary: string, stamp: string, encode: Encoder)
    requires forall i :: 0 <= i < |params| ==> Representable(params[i], encode)
    requires forall i :: 0 <= i < |params| ==> encode(params[i].0) == Some(Utf8.Encode(params[i].0))
    ensures DocumentedBody(params, boundary, stamp, encode) == Body(params, boundary, stamp, encode)
  {
    var documented := seq(|params|, i requires 0 <= i < |params| => DocumentedPart(boundary, params[i], stamp, encode));
    var parts := PartList(params, boundary, stamp, encode);
    forall i | 0 <= i < |params|
      ensures documented[i] == parts[i]
    {
      DocumentedPartUtf8(boundary, params[i], stamp, encode);
    }
    assert documented == parts;
  }

  /**
    Where the code and its documentation part on names: the code's part for
    a `Data` value is the same whatever the encoding, while the documented
    part differs between two encodings that write the name differently.
  */
  lemma NameEncodingDiscrepancy(boundary: string, name: string, data: Bytes, stamp: string, e1: Encoder, e2: Encoder)
    requires e1(name).Some? && e2(name).Some? && e1(name) != e2(name)
    ensures Part(boundary, (name, Blob(data)), stamp, e1) == Part(boundary, (name, Blob(data)), stamp, e2)
    ensures DocumentedPart(boundary, (name, Blob(data)), stamp, e1) != DocumentedPart(boundary, (name, Blob(data)), stamp, e2)
  {
    var param := (name, Blob(data));
    var head := Utf8.Encode(OpeningLine(boundary) + ContentTypeLine(param.1) + DispositionHead);
    var tail := Utf8.Encode(DispositionTail(param.1, stamp) + CrLf) + data;
    var x, y := e1(name).value, e2(name).value;
    assert DocumentedPart(boundary, param, stamp, e1) == head + x + tail;
    assert DocumentedPart(boundary, param, stamp, e2) == head + y + tail;
    assert (head + x + tail)[|head|..|head| + |x|] == x;
    assert (head + y + tail)[|head|..|head| + |y|] == y;
  }

  /**
    Where the code and its documentation part: a `String` value the encoding
    cannot represent is left out of its part without an error, where the
    documented check rejects the parameters with `value`.
  */
  lemma UnencodableValueDiscrepancy(boundary: string, name: string, text: string, stamp: string, encode: Encoder)
    requires encode(name).Some? && encode(text).None?
    ensures Part(boundary, (name, Text(text)), stamp, encode)
      == Utf8.Encode("--" + boundary + "\r\n" + "Content-Type: text/plain\r\n"
                     + "Content-Disposition: form-data; name=\"" + name + "\"" + "\r\n" + "\r\n")
    ensures CheckedBody([(name, Text(text))], boundary, stamp, encode) == Rejected(Value(text, name))
  {
    PartOfUnencodableText(boundary, name, text, stamp, encode);
  }
}
