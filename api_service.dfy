/**
  The submission client of PlateSolver/API/APIService.swift: it logs in with
  an API key, uploads an image, polls the submission's status and exposes the
  result URL.

  Every network call is split in two here. The method that issues the request
  (`Login`, `UploadImage`, `UpdateSubmissionStatus`) changes what the Swift
  method changes before `task.resume()` and returns the request it would send;
  the completion handler becomes a method that takes the `Reply`
  (`LoginCompleted`, `UploadCompleted`, `StatusReceived`). The repeating
  timer is the flag `timerActive`; `UserDefaults` is the `defaults` field.

  Each method that changes a field is also specified by `Step`, a pure
  transition on a `State` snapshot of the fields, so that runs of many events
  can be reasoned about.
*/
module Api {
  import opened Wrappers
  import opened Bytes
  import Decimal
  import Utf8
  import FormUrlEncoded
  import Multipart
  import opened UrlRequest
  import opened ApiModel

  const ApiBase := "http://nova.astrometry.net/api/"
  const AnnotatedBase := "http://nova.astrometry.net/annotated_display/"
  const StatusBase := "http://nova.astrometry.net/status/"

  datatype SubmissionStatus = NotStarted | Processing | Done {
    /** The text the interface shows. */
    function RawValue(): string {
      match this
      case NotStarted => "Not Started"
      case Processing => "Processing"
      case Done => "Done"
    }
  }

  datatype ErrorState = NoAPIKey | Unauthorized {
    /** The text the interface shows. */
    function RawValue(): string {
      match this
      case NoAPIKey => "No API Key"
      case Unauthorized => "Invalid API Key"
    }
  }

  /** The interface text tells every status apart, and every error state. */
  lemma RawValuesDistinct(a: SubmissionStatus, b: SubmissionStatus, x: ErrorState, y: ErrorState)
    ensures a.RawValue() == b.RawValue() <==> a == b
    ensures x.RawValue() == y.RawValue() <==> x == y
  {
  }

  /** What the service keeps in `UserDefaults`, under `apiKey`, `sessionKey` and `lastSubmission`. */
  datatype Defaults = Defaults(apiKey: Option<string>, sessionKey: Option<string>, lastSubmission: Option<int>)

  /** `apiUrl(withPath:)`: the API base followed by the path. */
  function ApiUrl(path: string): (url: string)
    ensures |url| == |ApiBase| + |path|
    ensures url[..|ApiBase|] == ApiBase && url[|ApiBase|..] == path
  {
    ApiBase + path
  }

  /** The `request-json` value of the login request, `{"apikey": "<key>"}`, with the key not escaped. */
  function LoginJson(key: string): string {
    "{\"apikey\": \"" + key + "\"}"
  }

  /** The `request-json` part of the upload, with the session not escaped. */
  function UploadJson(session: string): string {
    "{\"publicly_visible\": \"y\", \"allow_modifications\": \"d\", \"session\": \""
      + session + "\", \"allow_commercial_use\": \"d\"}"
  }

  /** The form items of the login request. */
  function LoginItems(key: string): seq<FormUrlEncoded.QueryItem> {
    [FormUrlEncoded.QueryItem("request-json", Some(LoginJson(key)))]
  }

  /** The multipart parameters of the upload, in the order written in the dictionary literal. */
  function UploadParams(session: string, image: Bytes): seq<Multipart.Param> {
    [("request-json", Multipart.Text(UploadJson(session))), ("file", Multipart.Blob(image))]
  }

  /** `String.Encoding.utf8`, which represents every string. */
  function EncodeUtf8(s: string): Option<Bytes> {
    Some(Utf8.Encode(s))
  }

  /** The path of a submission's status resource. */
  function SubmissionPath(id: int): string {
    "submissions/" + Decimal.IntToDecimal(id)
  }

  /** The result URL for a calibration's job id. */
  function AnnotatedUrl(jobId: int): string {
    AnnotatedBase + Decimal.IntToDecimal(jobId)
  }

  // ---------------------------------------------------------------------
  // The fields as a value, and the transitions on it
  // ---------------------------------------------------------------------

  datatype State = State(
    subId: Option<int>,
    status: SubmissionStatus,
    solvedUrl: Option<string>,
    errorState: Option<ErrorState>,
    apiKey: Option<string>,
    timerActive: bool,
    defaults: Defaults)

  /**
    What every reachable state satisfies: the timer held in `timer` runs
    only while a submission is processing; before any upload there is no submission id
    and no result; the current submission id is the one stored.
  */
  ghost predicate Inv(s: State) {
    && (s.timerActive ==> s.status == Processing && s.subId.Some?)
    && (s.status == NotStarted ==> s.subId.None? && s.solvedUrl.None? && !s.timerActive)
    && (s.subId.Some? ==> s.defaults.lastSubmission == s.subId)
  }

  /** The fields right after `init`. */
  function Initial(stored: Defaults): State {
    State(None, NotStarted, None, if stored.apiKey.None? then Some(NoAPIKey) else None,
          stored.apiKey, false, stored)
  }

  /** The events that change the fields. */
  datatype Event =
    | ApiKeySet(key: Option<string>)
    | LoginStarted
    | LoginReplied(auth: Reply<AuthResponse>)
    | UploadStarted
    | UploadReplied(submission: Reply<SubmissionResponse>)
    | StatusReplied(status: Reply<SubmissionStatusResponse>)

  /** The synchronous part of `login`: with a key, the error is cleared before the request goes out. */
  function StartLogin(s: State): State {
    if s.apiKey.None? then s else s.(errorState := None)
  }

  function Step(s: State, e: Event): State {
    match e
    case ApiKeySet(key) => StartLogin(s.(apiKey := key))
    case LoginStarted => StartLogin(s)
    case LoginReplied(reply) =>
      (match reply
       case Decoded(auth) => s.(defaults := s.defaults.(sessionKey := Some(auth.session)))
       case _ => s.(errorState := Some(Unauthorized)))
    case UploadStarted =>
      var stopped := s.(timerActive := false);
      if stopped.defaults.sessionKey.None? then StartLogin(stopped) else stopped
    case UploadReplied(reply) =>
      (match reply
       case Decoded(sub) =>
         s.(status := Processing, subId := Some(sub.subid),
            defaults := s.defaults.(lastSubmission := Some(sub.subid)), timerActive := true)
       case _ => s)
    case StatusReplied(reply) =>
      (match reply
       case Decoded(resp) =>
         var cals := resp.jobCalibrations;
         if |cals| == 0 then s
         else s.(timerActive := false, status := Done,
                 solvedUrl := if |cals[0]| > 0 then Some(AnnotatedUrl(cals[0][0])) else s.solvedUrl)
       case _ => s)
  }

  /** The state after a run of events. */
  function Run(s: State, events: seq<Event>): State
    decreases |events|
  {
    if events == [] then s else Run(Step(s, events[0]), events[1..])
  }

  /**
    The login request of `login()`: a form-encoded POST of
    `request-json={"apikey": "<key>"}` to `login`, with the `Content-Type`
    and `Content-Length` that `setFormURLEncoded` sets.
  */
  ghost predicate IsLoginRequest(r: Request, key: string)
    reads r
  {
    var body := FormUrlEncoded.FormBody(LoginItems(key));
    && r.url == ApiUrl("login") && r.httpMethod == "POST"
    && r.httpBody == Some(body)
    && r.headers == map["Content-Type" := "application/x-www-form-urlencoded",
                        "Content-Length" := Decimal.NatToDecimal(|body|)]
  }

  /**
    The upload request of `uploadImage(_:)`: a POST to `upload` whose
    `Content-Type` names the charset and the boundary that delimits the
    body. A throw from `setMultipartFormData` is only logged, so without a
    charset name the request goes out with neither header nor body.
  */
  ghost predicate IsUploadRequest(r: Request, session: string, image: Bytes, charset: Option<string>,
                                  r1: Multipart.UInt32, r2: Multipart.UInt32, stamp: string)
    reads r
  {
    var boundary := Multipart.Boundary(r1, r2);
    && r.url == ApiUrl("upload") && r.httpMethod == "POST"
    && r.headers == (if charset.Some? then map["Content-Type" := Multipart.ContentTypeHeader(charset.value, boundary)]
                     else map[])
    && r.httpBody == (if charset.Some? then Some(Multipart.Body(UploadParams(session, image), boundary, stamp, EncodeUtf8))
                      else None)
  }

  /** The request `login()` sends for `key`. */
  method LoginRequest(key: string) returns (request: Request)
    ensures fresh(request)
    ensures IsLoginRequest(request, key)
  {
    request := new Request(ApiUrl("login"));
    request.httpMethod := "POST";
    request.SetFormURLEncoded(LoginItems(key));
  }

  /** The request `uploadImage(_:)` sends when a session is stored. */
  method UploadRequest(session: string, image: Bytes, charset: Option<string>,
                       r1: Multipart.UInt32, r2: Multipart.UInt32, stamp: string)
    returns (request: Request)
    ensures fresh(request)
    ensures IsUploadRequest(request, session, image, charset, r1, r2, stamp)
  {
    request := new Request(ApiUrl("upload"));
    request.httpMethod := "POST";
    var params := UploadParams(session, image);
    var _ := request.SetMultipartFormData(params, EncodeUtf8, charset, r1, r2, stamp);
  }

  // ---------------------------------------------------------------------
  // The class
  // ---------------------------------------------------------------------

  class APIService {
    var subId: Option<int>
    var status: SubmissionStatus
    var solvedUrl: Option<string>
    var errorState: Option<ErrorState>
    var apiKey: Option<string>
    var timerActive: bool
    var defaults: Defaults

    ghost function Snapshot(): State
      reads this
    {
      State(subId, status, solvedUrl, errorState, apiKey, timerActive, defaults)
    }

    ghost predicate Valid()
      reads this
    {
      Inv(Snapshot())
    }

    /**
      `init()`: a stored key is taken without logging in (`didSet` does not
      run during initialisation); without one the error is `noAPIKey`.
    */
    constructor (stored: Defaults)
      ensures Valid() && Snapshot() == Initial(stored)
      ensures stored.apiKey.None? ==> errorState == Some(NoAPIKey) && apiKey == None
      ensures stored.apiKey.Some? ==> errorState == None && apiKey == stored.apiKey
      ensures status == NotStarted && subId == None && solvedUrl == None && !timerActive
    {
      subId := None;
      status := NotStarted;
      solvedUrl := None;
      timerActive := false;
      defaults := stored;
      if stored.apiKey.Some? {
        apiKey := stored.apiKey;
        errorState := None;
      } else {
        apiKey := None;
        errorState := Some(NoAPIKey);
      }
    }

    /**
      `login()`: without a key nothing happens and nothing is sent; with one
      the error is cleared and a form-encoded POST of `{"apikey": ...}` goes
      to `login`. Submission state is never touched.
    */
    method Login() returns (sent: Request?)
      requires Valid()
      modifies this
      ensures Valid() && Snapshot() == Step(old(Snapshot()), LoginStarted)
      ensures old(apiKey).None? ==> sent == null && Snapshot() == old(Snapshot())
      ensures old(apiKey).Some? ==> errorState == None
      ensures status == old(status) && subId == old(subId) && solvedUrl == old(solvedUrl)
      ensures old(apiKey).Some? ==> sent != null && fresh(sent) && IsLoginRequest(sent, old(apiKey).value)
    {
      if apiKey.None? {
        return null;
      }
      errorState := None;
      sent := LoginRequest(apiKey.value);
    }

    /** Assigning `apiKey`: its `didSet` logs in with the new key. */
    method SetApiKey(key: Option<string>) returns (sent: Request?)
      requires Valid()
      modifies this
      ensures Valid() && Snapshot() == Step(old(Snapshot()), ApiKeySet(key))
      ensures apiKey == key
      ensures key.None? ==> sent == null
      ensures key.Some? ==> sent != null && fresh(sent) && IsLoginRequest(sent, key.value)
    {
      apiKey := key;
      sent := Login();
    }

    /**
      The login completion handler: no data or an undecodable reply sets
      `unauthorized` (and keeps any stored session); a decoded reply stores
      the session and leaves the error as it is.
    */
    method LoginCompleted(reply: Reply<AuthResponse>)
      requires Valid()
      modifies this
      ensures Valid() && Snapshot() == Step(old(Snapshot()), LoginReplied(reply))
      ensures reply.Decoded? ==> defaults == old(defaults).(sessionKey := Some(reply.value.session))
                                 && errorState == old(errorState)
      ensures !reply.Decoded? ==> errorState == Some(Unauthorized) && defaults == old(defaults)
      ensures status == old(status) && subId == old(subId) && solvedUrl == old(solvedUrl)
      ensures timerActive == old(timerActive) && apiKey == old(apiKey)
    {
      match reply
      case Decoded(auth) =>
        defaults := defaults.(sessionKey := Some(auth.session));
      case _ =>
        errorState := Some(Unauthorized);
    }

    /**
      `uploadImage(_:)`: the timer is always stopped first. Without a stored
      session it logs in instead and sends no upload. Otherwise it sends a
      multipart POST to `upload` with the `request-json` and `file` parts.
      `charset`, `r1`, `r2` and `stamp` are what the platform supplies to
      `setMultipartFormData`; when it throws, the error is only logged and
      the request goes out without a body.
    */
    method UploadImage(image: Bytes, charset: Option<string>, r1: Multipart.UInt32, r2: Multipart.UInt32, stamp: string)
      returns (sent: Request?)
      requires Valid()
      modifies this
      ensures Valid() && Snapshot() == Step(old(Snapshot()), UploadStarted)
      ensures !timerActive
      ensures status == old(status) && subId == old(subId) && solvedUrl == old(solvedUrl)
      ensures old(defaults).sessionKey.None? && old(apiKey).Some? ==>
        sent != null && fresh(sent) && IsLoginRequest(sent, old(apiKey).value)
      ensures old(defaults).sessionKey.None? && old(apiKey).None? ==> sent == null
      ensures old(defaults).sessionKey.Some? ==>
        && errorState == old(errorState)
        && sent != null && fresh(sent)
        && IsUploadRequest(sent, old(defaults).sessionKey.value, image, charset, r1, r2, stamp)
    {
      timerActive := false;
      if defaults.sessionKey.None? {
        sent := Login();
        return;
      }
      sent := UploadRequest(defaults.sessionKey.value, image, charset, r1, r2, stamp);
    }

    /**
      The upload completion handler: a decoded reply makes its id the
      current and stored submission, marks it processing and starts the
      timer; no data or an undecodable reply changes nothing.
    */
    method UploadCompleted(reply: Reply<SubmissionResponse>)
      requires Valid()
      modifies this
      ensures Valid() && Snapshot() == Step(old(Snapshot()), UploadReplied(reply))
      ensures reply.Decoded? ==>
        && status == Processing && subId == Some(reply.value.subid)
        && defaults == old(defaults).(lastSubmission := Some(reply.value.subid))
        && timerActive
        && solvedUrl == old(solvedUrl) && errorState == old(errorState)
      ensures !reply.Decoded? ==> Snapshot() == old(Snapshot())
    {
      if reply.Decoded? {
        var sub := reply.value;
        status := Processing;
        subId := Some(sub.subid);
        defaults := defaults.(lastSubmission := subId);
        timerActive := true;
      }
    }

    /**
      `updateSubmissionStatus()`: nothing is sent without a submission id or
      with id 0; otherwise a GET for `submissions/<id>`. No field changes.
    */
    method UpdateSubmissionStatus() returns (sent: Request?)
      ensures subId.None? || subId == Some(0) ==> sent == null
      ensures subId.Some? && subId != Some(0) ==>
        sent != null && fresh(sent) && sent.url == ApiUrl(SubmissionPath(subId.value))
        && sent.httpMethod == "GET" && sent.headers == map[] && sent.httpBody == None
    {
      if subId.None? || subId.value == 0 {
        return null;
      }
      sent := new Request(ApiUrl(SubmissionPath(subId.value)));
    }

    /**
      The status completion handler: an empty calibration list, no data or an
      undecodable reply change nothing; otherwise the timer stops, the status
      becomes done, and the result URL is set from the first job id of the
      first calibration when there is one.
    */
    method StatusReceived(reply: Reply<SubmissionStatusResponse>)
      requires Valid()
      modifies this
      ensures Valid() && Snapshot() == Step(old(Snapshot()), StatusReplied(reply))
      ensures !reply.Decoded? || reply.value.jobCalibrations == [] ==> Snapshot() == old(Snapshot())
      ensures reply.Decoded? && reply.value.jobCalibrations != [] ==>
        var cals := reply.value.jobCalibrations;
        && !timerActive && status == Done
        && solvedUrl == (if cals[0] != [] then Some(AnnotatedUrl(cals[0][0])) else old(solvedUrl))
        && subId == old(subId) && errorState == old(errorState) && defaults == old(defaults)
    {
      if reply.Decoded? {
        var calibrations := reply.value.jobCalibrations;
        if |calibrations| > 0 {
          timerActive := false;
          status := Done;
          if |calibrations[0]| > 0 {
            solvedUrl := Some(AnnotatedUrl(calibrations[0][0]));
          }
        }
      }
    }

    /** `currentSubUrl()`: the status page of the current submission, from which its id can be read back. */
    function CurrentSubUrl(): (url: Option<string>)
      reads this
      ensures url.None? <==> subId.None?
      ensures url.Some? ==>
        && |StatusBase| < |url.value|
        && url.value[..|StatusBase|] == StatusBase
        && Decimal.ParseInt(url.value[|StatusBase|..]) == subId
        && Decimal.Canonical(url.value[|StatusBase|..])
    {
      match subId
      case None => None
      case Some(id) =>
        Decimal.IntToDecimalRoundTrip(id);
        Decimal.IntToDecimalCanonical(id);
        var url := StatusBase + Decimal.IntToDecimal(id);
        assert url[|StatusBase|..] == Decimal.IntToDecimal(id);
        Some(url)
    }
  }

  // ---------------------------------------------------------------------
  // Properties of runs
  // ---------------------------------------------------------------------

  lemma InitialIsValid(stored: Defaults)
    ensures Inv(Initial(stored))
    ensures Initial(stored).status == NotStarted && Initial(stored).subId.None?
    ensures Initial(stored).errorState == Some(NoAPIKey) <==> stored.apiKey.None?
  {
  }

  lemma StepPreservesInv(s: State, e: Event)
    requires Inv(s)
    ensures Inv(Step(s, e))
  {
  }

  /** Every state reached from the initial one by any events satisfies the invariant. */
  lemma {:induction false} RunPreservesInv(s: State, events: seq<Event>)
    requires Inv(s)
    ensures Inv(Run(s, events))
    decreases |events|
  {
    if events != [] {
      StepPreservesInv(s, events[0]);
      RunPreservesInv(Step(s, events[0]), events[1..]);
    }
  }

  /** No event leads back to `notStarted`: the only assignments are `processing` and `done`. */
  lemma {:induction false} NeverBackToNotStarted(s: State, events: seq<Event>)
    requires s.status != NotStarted
    ensures Run(s, events).status != NotStarted
    decreases |events|
  {
    if events != [] {
      NeverBackToNotStarted(Step(s, events[0]), events[1..]);
    }
  }

  /** A submission id changes only to the id of an upload reply among the events. */
  lemma {:induction false} SubIdComesFromUpload(s: State, events: seq<Event>)
    ensures var t := Run(s, events);
      t.subId == s.subId
      || (t.subId.Some? && exists i :: 0 <= i < |events| && events[i] == UploadReplied(Decoded(SubmissionResponse(t.subId.value))))
    decreases |events|
  {
    if events != [] {
      var s' := Step(s, events[0]);
      var t := Run(s, events);
      SubIdComesFromUpload(s', events[1..]);
      if t.subId != s'.subId {
        var i :| 0 <= i < |events[1..]| && events[1..][i] == UploadReplied(Decoded(SubmissionResponse(t.subId.value)));
        assert events[i + 1] == events[1..][i];
      } else if s'.subId != s.subId {
        assert events[0] == UploadReplied(Decoded(SubmissionResponse(t.subId.value)));
      }
    }
  }

  /** An upload without a stored session produces no submission, whatever the key. */
  lemma UploadWithoutSessionKeepsSubmission(s: State)
    requires s.defaults.sessionKey.None?
    ensures var t := Step(s, UploadStarted);
      t.subId == s.subId && t.status == s.status && t.solvedUrl == s.solvedUrl && !t.timerActive
      && (s.apiKey.Some? ==> t.errorState == None)
  {
  }

  /** A status reply applied twice is the same as once. */
  lemma StatusReplyIdempotent(s: State, reply: Reply<SubmissionStatusResponse>)
    ensures Step(Step(s, StatusReplied(reply)), StatusReplied(reply)) == Step(s, StatusReplied(reply))
  {
  }

  /**
    Replies are not tagged with the submission they belong to: a status reply
    that arrives after a newer upload's reply marks the newer submission done
    with the older reply's job.
  */
  lemma StatusReplyNotMatchedToSubmission(s: State, older: int, newer: int, cals: seq<seq<int>>)
    requires cals != [] && cals[0] != []
    ensures var t := Run(s, [UploadReplied(Decoded(SubmissionResponse(older))),
                             UploadReplied(Decoded(SubmissionResponse(newer))),
                             StatusReplied(Decoded(SubmissionStatusResponse(cals)))]);
      t.subId == Some(newer) && t.status == Done && t.solvedUrl == Some(AnnotatedUrl(cals[0][0]))
  {
    var e1, e2, e3 := UploadReplied(Decoded(SubmissionResponse(older))),
                      UploadReplied(Decoded(SubmissionResponse(newer))),
                      StatusReplied(Decoded(SubmissionStatusResponse(cals)));
    var s1 := Step(s, e1);
    var s2 := Step(s1, e2);
    var s3 := Step(s2, e3);
    assert Run(s2, [e3]) == Run(s3, []) == s3;
    assert Run(s1, [e2, e3]) == Run(s2, [e3]);
    assert Run(s, [e1, e2, e3]) == Run(s1, [e2, e3]);
  }

  /** A new upload does not clear the previous result: it stays visible while the new submission is processing. */
  lemma ResultSurvivesNewUpload(s: State, sub: SubmissionResponse)
    requires s.solvedUrl.Some?
    ensures var t := Step(s, UploadReplied(Decoded(sub)));
      t.status == Processing && t.solvedUrl == s.solvedUrl
  {
  }

  /** A failed login keeps a session stored earlier, which later uploads go on using. */
  lemma FailedLoginKeepsSession(s: State, reply: Reply<AuthResponse>)
    requires !reply.Decoded?
    ensures Step(s, LoginReplied(reply)).defaults.sessionKey == s.defaults.sessionKey
    ensures Step(s, LoginReplied(reply)).errorState == Some(Unauthorized)
  {
  }

  /**
    An empty key is a key: `init` does not report `noAPIKey` for a stored
    `""`, and a login with `""` clears the error as for any other key.
  */
  lemma EmptyKeyIsAKey(stored: Defaults, s: State)
    requires stored.apiKey == Some("")
    requires s.apiKey == Some("")
    ensures Initial(stored).errorState == None
    ensures Step(s, LoginStarted).errorState == None
    ensures Step(s, ApiKeySet(Some(""))).errorState == None
  {
  }

  /**
    The upload encodes with UTF-8, which represents every string and writes
    names as the code does, so the documented behaviour would accept the
    parameters and give the same body: the upload is unaffected by the throw
    that is never made or by the names the code always writes in UTF-8.
  */
  lemma UploadBodyAccepted(session: string, image: Bytes, r1: Multipart.UInt32, r2: Multipart.UInt32, stamp: string)
    ensures var boundary := Multipart.Boundary(r1, r2);
      Multipart.CheckedBody(UploadParams(session, image), boundary, stamp, EncodeUtf8)
        == Multipart.Encoded(Multipart.Body(UploadParams(session, image), boundary, stamp, EncodeUtf8))
  {
    var params := UploadParams(session, image);
    assert forall i :: 0 <= i < |params| ==> Multipart.Representable(params[i], EncodeUtf8);
    Multipart.DocumentedBodyUtf8(params, Multipart.Boundary(r1, r2), stamp, EncodeUtf8);
  }
}
