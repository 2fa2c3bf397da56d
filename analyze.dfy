/**
 * The analyze handler: authenticate, check the free AI limit, ask the AI
 * to classify one night's reason, read and parse its reply, and record
 * one AI usage only after a successful parse. The AI call and `JSON.parse`
 * are oracles passed in as functions: `None` stands for a thrown error.
 * The handler reports the effectful steps it took, in order.
 */
module Analyze {
  import opened Wrappers
  import opened Subscription
  import opened AiReply

  datatype Step = Authenticate | CheckLimit | CallAi | ParseReply | RecordUsage

  datatype AnalyzeResponse<J> =
    | Unauthorized
    | LimitReached
    | Analysis(analysis: J)
    | AnalysisFailed

  /** The HTTP status code each response is sent with. */
  function StatusCode<J>(r: AnalyzeResponse<J>): (code: nat)
    ensures code == 401 <==> r.Unauthorized?
    ensures code == 403 <==> r.LimitReached?
    ensures code == 200 <==> r.Analysis?
    ensures code == 500 <==> r.AnalysisFailed?
  {
    match r
    case Unauthorized => 401
    case LimitReached => 403
    case Analysis(_) => 200
    case AnalysisFailed => 500
  }

  /** The user message sent to the AI: the sleep time on the first line, the reason after it. */
  function AnalyzePrompt(sleepTime: string, reasonText: string): (r: string)
    ensures |r| == |sleepTime| + |reasonText| + 21
    ensures r[12..12 + |sleepTime|] == sleepTime
    ensures r[|r| - |reasonText|..] == reasonText
  {
    "Sleep time: " + sleepTime + "\nReason: " + reasonText
  }

  /**
   * `POST /api/analyze`. `signedIn` is the outcome of `getUser`, `status`
   * the user's subscription status, `ai` the AI call for a prompt and
   * `parse` the JSON parser.
   */
  method HandleAnalyze<J>(
    signedIn: bool,
    status: SubscriptionStatus,
    sleepTime: string,
    reasonText: string,
    ai: string -> Option<seq<ContentBlock>>,
    parse: string -> Option<J>)
    returns (response: AnalyzeResponse<J>, steps: seq<Step>)
    ensures !signedIn ==> response == Unauthorized && steps == [Authenticate]
    ensures signedIn && status.aiLimitReached ==> response == LimitReached && steps == [Authenticate, CheckLimit]
    ensures CallAi in steps <==> signedIn && !status.aiLimitReached
    ensures RecordUsage in steps <==> response.Analysis?
    ensures var reply := ai(AnalyzePrompt(sleepTime, reasonText));
      response.Analysis? ==>
        && steps == [Authenticate, CheckLimit, CallAi, ParseReply, RecordUsage]
        && reply.Some?
        && parse(ReplyContent(reply.value)) == Some(response.analysis)
    ensures var reply := ai(AnalyzePrompt(sleepTime, reasonText));
      signedIn && !status.aiLimitReached ==>
        (response.AnalysisFailed? <==> reply.None? || parse(ReplyContent(reply.value)).None?)
    ensures StatusCode(response) == (if !signedIn then 401 else if status.aiLimitReached then 403 else if response.Analysis? then 200 else 500)
  {
    if !signedIn {
      return Unauthorized, [Authenticate];
    }
    if status.aiLimitReached {
      return LimitReached, [Authenticate, CheckLimit];
    }
    var reply := ai(AnalyzePrompt(sleepTime, reasonText));
    if reply.None? {
      return AnalysisFailed, [Authenticate, CheckLimit, CallAi];
    }
    var parsed := parse(ReplyContent(reply.value));
    if parsed.None? {
      return AnalysisFailed, [Authenticate, CheckLimit, CallAi, ParseReply];
    }
    response := Analysis(parsed.value);
    steps := [Authenticate, CheckLimit, CallAi, ParseReply, RecordUsage];
  }
}
