/**
  `URLRequest` as far as the extension in
  PlateSolver/API/URLRequestExtension.swift uses it: a URL, a method, header
  fields and an optional body, with the two setters that fill in a form body.
*/
module UrlRequest {
  import opened Wrappers
  import opened Bytes
  import Decimal
  import FormUrlEncoded
  import Multipart

  /** `addValue(_:forHTTPHeaderField:)`: a second value for a field is appended after a comma. */
  function WithAddedValue(headers: map<string, string>, field: string, value: string): (r: map<string, string>)
    ensures r.Keys == headers.Keys + {field}
    ensures field !in headers ==> r[field] == value
    ensures field in headers ==> r[field] == headers[field] + "," + value
    ensures forall f :: f in headers && f != field ==> r[f] == headers[f]
  {
    headers[field := if field in headers then headers[field] + "," + value else value]
  }

  class Request {
    var url: string
    var httpMethod: string
    var headers: map<string, string>
    var httpBody: Option<Bytes>

    /** `URLRequest(url:)`: a GET with no header fields and no body. */
    constructor (url: string)
      ensures this.url == url && httpMethod == "GET" && headers == map[] && httpBody == None
    {
      this.url := url;
      httpMethod := "GET";
      headers := map[];
      httpBody := None;
    }

    /** `setValue(_:forHTTPHeaderField:)`: replaces any earlier value of the field. */
    method SetValue(value: string, field: string)
      modifies this
      ensures headers == old(headers)[field := value]
      ensures url == old(url) && httpMethod == old(httpMethod) && httpBody == old(httpBody)
    {
      headers := headers[field := value];
    }

    /** `addValue(_:forHTTPHeaderField:)`. */
    method AddValue(value: string, field: string)
      modifies this
      ensures headers == WithAddedValue(old(headers), field, value)
      ensures url == old(url) && httpMethod == old(httpMethod) && httpBody == old(httpBody)
    {
      headers := WithAddedValue(headers, field, value);
    }

    /**
      `setFormURLEncoded`: the body is the serialized items, `Content-Type`
      names the form encoding and `Content-Length` is the body's length in
      decimal. The UTF-8 conversion of the ASCII output never fails, so the
      length is always set.
    */
    method SetFormURLEncoded(items: seq<FormUrlEncoded.QueryItem>)
      modifies this
      ensures httpBody == Some(FormUrlEncoded.FormBody(items))
      ensures headers == old(headers)["Content-Type" := "application/x-www-form-urlencoded"]
                                     ["Content-Length" := Decimal.NatToDecimal(|FormUrlEncoded.FormBody(items)|)]
      ensures url == old(url) && httpMethod == old(httpMethod)
    {
      SetValue("application/x-www-form-urlencoded", "Content-Type");
      var data := FormUrlEncoded.FormBody(items);
      httpBody := Some(data);
      SetValue(Decimal.NatToDecimal(|data|), "Content-Length");
    }

    /**
      `setMultipartFormData`. `charset` is what CoreFoundation reports as the
      IANA name of the encoding (`None` when it has none), `r1` and `r2` the
      two random numbers of the boundary, `stamp` the text of the time stamp.
      Without a charset name it throws before touching the request; otherwise
      it adds the `Content-Type` value and stores the body, and never throws.
    */
    method SetMultipartFormData(params: seq<Multipart.Param>, encode: Multipart.Encoder, charset: Option<string>,
                                r1: Multipart.UInt32, r2: Multipart.UInt32, stamp: string)
      returns (outcome: Outcome<Multipart.MultipartFormDataEncodingError>)
      modifies this
      ensures charset.None? ==> outcome == Fail(Multipart.CharacterSetName)
      ensures charset.None? ==> headers == old(headers) && httpBody == old(httpBody)
      ensures charset.Some? ==> outcome == Pass
      ensures charset.Some? ==>
        var boundary := Multipart.Boundary(r1, r2);
        && headers == WithAddedValue(old(headers), "Content-Type", Multipart.ContentTypeHeader(charset.value, boundary))
        && httpBody == Some(Multipart.Body(params, boundary, stamp, encode))
      ensures url == old(url) && httpMethod == old(httpMethod)
    {
      var boundary := Multipart.Boundary(r1, r2);
      if charset.None? {
        return Fail(Multipart.CharacterSetName);
      }
      AddValue(Multipart.ContentTypeHeader(charset.value, boundary), "Content-Type");
      var body := Multipart.BuildBody(params, boundary, stamp, encode);
      httpBody := Some(body);
      outcome := Pass;
    }
  }
}
