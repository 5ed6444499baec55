/** The callback events sent to the backend (ai/app/schemas/callback.py). */
module Callbacks {
  import opened Common
  import opened Domain

  datatype StageStatus = StageStarted | StageCompleted | ToolReport(tool: ToolName, progress: ToolProgress)

  datatype Body =
    | Progress(stage: Stage, status: StageStatus)
    | AwaitingInputBody(round: int, questions: seq<Question>)
    | ResultBody(assessment: nat)
    | FailedBody(failedStage: Option<Stage>, code: string, retryable: bool, reviewFlag: Option<string>)

  datatype Callback = Callback(diagnosis: string, product: ProductId, run: RunId, sequence: nat, body: Body)

  /** Question, result and failure callbacks end their run. */
  predicate Terminal(c: Callback) {
    !c.body.Progress?
  }

  /** The callbacks of one product, in order. */
  function OfProduct(cs: seq<Callback>, p: ProductId): seq<Callback> {
    if cs == [] then []
    else if cs[|cs| - 1].product == p then OfProduct(cs[..|cs| - 1], p) + [cs[|cs| - 1]]
    else OfProduct(cs[..|cs| - 1], p)
  }

  /** The callbacks of one run, in order. */
  function OfRun(cs: seq<Callback>, r: RunId): seq<Callback> {
    if cs == [] then []
    else if cs[|cs| - 1].run == r then OfRun(cs[..|cs| - 1], r) + [cs[|cs| - 1]]
    else OfRun(cs[..|cs| - 1], r)
  }
}
