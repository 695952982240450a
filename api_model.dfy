/**
  The decoded shapes of the service's JSON replies
  (PlateSolver/API/APIModel.swift), and what a data task's completion handler
  is left with once the network and `JSONDecoder` have done their part.
*/
module ApiModel {

  /** `{"session": "<token>"}` from `login`. */
  datatype AuthResponse = AuthResponse(session: string)

  /** `{"subid": <int>}` from `upload`. */
  datatype SubmissionResponse = SubmissionResponse(subid: int)

  /** `{"job_calibrations": [[int, ...], ...]}` from `submissions/<id>`. */
  datatype SubmissionStatusResponse = SubmissionStatusResponse(jobCalibrations: seq<seq<int>>)

  /**
    The outcome of one request: no data came back (a transport error), data
    came back that `JSONDecoder` rejected, or the decoded reply.
  */
  datatype Reply<T> = NoData | Undecodable | Decoded(value: T)
}
