/** Identifiers and enumerations shared by sessions, callbacks and the pipeline. */
module Domain {
  import opened Common

  // Product and run identifiers are opaque tokens: the program only compares them.
  type ProductId = nat
  type RunId = nat

  datatype RunType = Production | Evaluation | Test | Dummy

  datatype Stage = Pipeline | Extraction | Selection | ToolExecution | Aggregation | Verification | Finalization

  datatype ToolName = Customs | Radio | FoodDrug | Electrical | Children | LabelAd

  datatype ToolProgress = ToolStarted | ToolCompleted | ToolSkipped

  datatype EndReason =
    | Completed | UserInputRequired | RevisionRequired | RetryLimitExceeded
    | NoProgress | CostLimitExceeded | QuestionLimitExceeded

  /** Identity of one run (ai/app/domain/context.py). */
  datatype Context = Context(run: RunId, product: ProductId, runType: RunType, diagnosis: Option<string>)

  /** A question as the backend receives it (ai/app/schemas/callback.py). */
  datatype Question = Question(key: string, order: int, text: string, help: Option<string>)

  /** A diagnosis result. Sessions and callbacks never open it; they only read why the run ended. */
  datatype Assessment = Assessment(reason: EndReason, content: nat)
}
