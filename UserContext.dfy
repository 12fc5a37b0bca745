/**
 * The browser side of asking the assistant: `getGeminiResponse` of the
 * user context.  It throttles requests that come less than two seconds
 * after the last admitted one, raises the loading flag while the request
 * is in flight, and turns a failed request into a local reply of kind
 * `error` that echoes the command.
 *
 * The clock and the network are parameters: `now` is the value `Date.now()`
 * returned, and the outcome of the POST is given as a `CallOutcome`.
 */
module UserContext {
  import opened Wrappers
  import opened Json

  /** The minimum time between two admitted requests, in milliseconds. */
  const MinRequestInterval: int := 2000

  /** What the POST to the ask route did: a 2xx answer with its data, or a rejection with the HTTP status it carried, if any. */
  datatype CallOutcome = Delivered(data: Json) | Rejected(status: Option<int>)

  /** What `getGeminiResponse` resolves to: the server's data as it came, or an object built on the client. */
  datatype Reply =
    | FromServer(data: Json)
    | Local(kind: string, response: string, userInput: string)

  /** A request this soon after the last admitted one is refused on the client. */
  predicate ShouldThrottle(now: int, last: int) {
    now - last < MinRequestInterval
  }

  /** The reply to a throttled request. */
  function Throttled(command: string): (r: Reply)
    ensures r.Local? && r.kind == "error" && r.userInput == command
  {
    Local("error", "Please wait a moment before sending another request.", command)
  }

  /** The reply once the request has completed. */
  function ReplyFor(command: string, outcome: CallOutcome): Reply {
    match outcome
    case Delivered(data) => FromServer(data)
    case Rejected(status) =>
      if status == Some(429) then Local("error", "I'm receiving too many requests. Please wait a moment and try again.", command)
      else Local("error", "Sorry, something went wrong. Please try again.", command)
  }

  /** The error message the context shows once the request has completed. */
  function ErrorFor(outcome: CallOutcome): Option<string> {
    match outcome
    case Delivered(_) => None
    case Rejected(status) =>
      if status == Some(429) then Some("Rate limit exceeded. Please wait a moment.")
      else Some("Something went wrong. Please try again.")
  }

  /** A request exactly two seconds after the last is admitted; one a millisecond sooner is not. */
  lemma ThrottleBoundary(last: int)
    ensures ShouldThrottle(last + MinRequestInterval - 1, last)
    ensures !ShouldThrottle(last + MinRequestInterval, last)
    ensures forall now :: ShouldThrottle(now, last) <==> now < last + MinRequestInterval
  {
  }

  /** With the time of the last request still at its initial 0, a request is admitted exactly when the clock reads at least 2000. */
  lemma FirstRequestAdmitted(now: int)
    ensures !ShouldThrottle(now, 0) <==> now >= 2000
  {
  }

  /**
   * Every reply built on the client has kind `error` and echoes the command;
   * the server's data is passed through exactly when the request succeeded,
   * and an error message is shown exactly when it did not.
   */
  lemma LocalRepliesEchoCommand(command: string, outcome: CallOutcome)
    ensures ReplyFor(command, outcome).Local? <==> outcome.Rejected?
    ensures ReplyFor(command, outcome).Local? ==>
      ReplyFor(command, outcome).kind == "error" && ReplyFor(command, outcome).userInput == command
    ensures outcome.Delivered? ==> ReplyFor(command, outcome) == FromServer(outcome.data)
    ensures ErrorFor(outcome).Some? <==> ReplyFor(command, outcome).Local?
  {
  }

  /** Only a 429 is reported as rate limiting; every other failure, a missing status included, gets the generic apology. */
  lemma OnlyTooManyRequestsIsRateLimit(command: string, status: Option<int>)
    ensures ErrorFor(Rejected(status)) == Some("Rate limit exceeded. Please wait a moment.") <==> status == Some(429)
    ensures ReplyFor(command, Rejected(status)).response ==
      (if status == Some(429) then "I'm receiving too many requests. Please wait a moment and try again."
       else "Sorry, something went wrong. Please try again.")
  {
  }

  /** The state `getGeminiResponse` keeps across calls: the time ref and the two state variables it sets. */
  class Session {
    var lastRequestTime: int
    var isLoading: bool
    var error: Option<string>

    /** The state of a freshly mounted context. */
    constructor()
      ensures lastRequestTime == 0 && !isLoading && error == None
    {
      lastRequestTime := 0;
      isLoading := false;
      error := None;
    }

    /**
     * The synchronous part of a call, up to the POST: a throttled request
     * ends here with its reply and changes nothing; an admitted one records
     * the time, raises the loading flag and clears the error.
     */
    method Begin(now: int, command: string) returns (early: Option<Reply>)
      modifies this
      ensures ShouldThrottle(now, old(lastRequestTime)) ==>
        early == Some(Throttled(command))
        && lastRequestTime == old(lastRequestTime) && isLoading == old(isLoading) && error == old(error)
      ensures !ShouldThrottle(now, old(lastRequestTime)) ==>
        early == None && lastRequestTime == now && isLoading && error == None
    {
      if now - lastRequestTime < MinRequestInterval {
        return Some(Throttled(command));
      }
      lastRequestTime := now;
      isLoading := true;
      error := None;
      early := None;
    }

    /**
     * The part after the POST settles: the loading flag drops and the reply
     * follows the outcome; a failure sets the error, a success leaves it as
     * it was (cleared by the admission).
     */
    method Finish(command: string, outcome: CallOutcome) returns (reply: Reply)
      modifies this
      ensures lastRequestTime == old(lastRequestTime) && !isLoading
      ensures error == if outcome.Delivered? then old(error) else ErrorFor(outcome)
      ensures reply == ReplyFor(command, outcome)
    {
      match outcome {
        case Delivered(data) =>
          isLoading := false;
          return FromServer(data);
        case Rejected(status) =>
          isLoading := false;
          if status == Some(429) {
            error := Some("Rate limit exceeded. Please wait a moment.");
            return Local("error", "I'm receiving too many requests. Please wait a moment and try again.", command);
          }
          error := Some("Something went wrong. Please try again.");
          return Local("error", "Sorry, something went wrong. Please try again.", command);
      }
    }

    /** One whole call, with nothing else running while the POST is in flight. */
    method GetGeminiResponse(now: int, command: string, outcome: CallOutcome) returns (reply: Reply)
      modifies this
      ensures ShouldThrottle(now, old(lastRequestTime)) ==>
        reply == Throttled(command)
        && lastRequestTime == old(lastRequestTime) && isLoading == old(isLoading) && error == old(error)
      ensures !ShouldThrottle(now, old(lastRequestTime)) ==>
        reply == ReplyFor(command, outcome) && lastRequestTime == now && !isLoading && error == ErrorFor(outcome)
    {
      var early := Begin(now, command);
      if early.Some? {
        return early.value;
      }
      reply := Finish(command, outcome);
    }
  }

  /**
   * Two submissions less than two seconds apart: the second is answered on
   * the client whatever happened to the first, and leaves the state the
   * first one produced.
   */
  method RapidResubmission(s: Session, t1: int, t2: int, c1: string, c2: string, outcome: CallOutcome)
      returns (first: Reply, second: Reply)
    requires !ShouldThrottle(t1, s.lastRequestTime)
    requires t2 - t1 < MinRequestInterval
    modifies s
    ensures first == ReplyFor(c1, outcome)
    ensures second == Throttled(c2)
    ensures s.lastRequestTime == t1 && !s.isLoading && s.error == ErrorFor(outcome)
  {
    first := s.GetGeminiResponse(t1, c1, outcome);
    second := s.GetGeminiResponse(t2, c2, outcome);
  }

  /**
   * A second submission while the first is still in flight: the time is
   * recorded before the POST, so the second is throttled and the loading
   * flag stays raised for the first.
   */
  method OverlappingSubmission(s: Session, t1: int, t2: int, c1: string, c2: string, outcome: CallOutcome)
      returns (second: Reply, first: Reply)
    requires !ShouldThrottle(t1, s.lastRequestTime)
    requires t2 - t1 < MinRequestInterval
    modifies s
    ensures second == Throttled(c2)
    ensures first == ReplyFor(c1, outcome)
    ensures s.lastRequestTime == t1 && !s.isLoading && s.error == ErrorFor(outcome)
  {
    var early1 := s.Begin(t1, c1);
    var early2 := s.Begin(t2, c2);
    assert s.isLoading;
    second := early2.value;
    first := s.Finish(c1, outcome);
  }
}
