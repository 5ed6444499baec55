/** Tool results and verification results (ai/app/schemas/schemas.py, agent.py, pipeline.py). */
module Schemas {
  import opened Common
  import opened Domain
  import opened Json

  datatype ToolStatus = Success | Partial | Failed | Skipped

  datatype VerificationStatus = Approved | ApprovedWithWarnings | RevisionRequired | UserInputRequired | ToolsRequired

  datatype IssueType =
    | MissingTool | ToolFailure | MissingEvidence | UnsupportedClaim | Contradiction
    | InsufficientProductData | IncorrectDetermination

  type Value = j: Json | WellFormed(j) witness Null

  type FieldValues = m: map<string, Json> | forall k :: k in m ==> WellFormed(m[k]) witness map[]

  /** A finding; `others` are its fields besides the id and the requirements, as model_dump prints them. */
  datatype Finding = Finding(id: string, requirements: seq<string>, others: FieldValues)

  /** What the executor attaches to a run of a tool, and what the snapshot leaves out. */
  datatype Execution = Execution(id: Option<string>, round: nat, reason: string, query: Value, raw: Value, at: int)

  datatype ToolResult = ToolResult(
    tool: ToolName, status: ToolStatus, selected: bool, execution: Execution, result: Option<FieldValues>,
    findings: seq<Finding>, actions: seq<string>, missing: seq<string>, error: Option<string>)

  datatype Issue = Issue(id: string, severity: string, kind: IssueType, description: string, related: seq<string>,
    recommended: Option<string>)

  datatype FollowUp = FollowUp(id: string, question: string, reason: string, tools: seq<ToolName>, required: bool)

  datatype Verification = Verification(
    status: VerificationStatus, summary: Option<string>, issues: seq<Issue>, additional: seq<ToolName>,
    questions: seq<FollowUp>, checked: seq<string>, at: int)

  datatype Decision = Decision(selected: bool, reason: string)

  /** The decisions are kept by tool: the schema demands each of the six exactly once. */
  datatype SelectionResult = SelectionResult(decisions: map<ToolName, Decision>, results: seq<ToolResult>, history: seq<ToolResult>)

  datatype RetryRequest = RetryRequest(
    round: nat, requested: seq<ToolName>, verification: Verification, latest: seq<ToolResult>)

  /** The RetryRequest model: it refuses an empty request and a round that some result has reached. */
  function NewRetryRequest(round: nat, requested: seq<ToolName>, verification: Verification, latest: seq<ToolResult>)
    : Option<RetryRequest>
  {
    if round < 1 || requested == [] || exists i :: 0 <= i < |latest| && round <= latest[i].execution.round
    then None else Some(RetryRequest(round, requested, verification, latest))
  }

  /** The members of ToolName in the order they are declared. */
  const TOOLS: seq<ToolName> := [Customs, Radio, FoodDrug, Electrical, Children, LabelAd]

  function ToolText(t: ToolName): string {
    match t
    case Customs => "customs_requirements"
    case Radio => "radio_compliance"
    case FoodDrug => "food_drug_safety"
    case Electrical => "electrical_safety"
    case Children => "children_product_safety"
    case LabelAd => "labeling_advertising_detection"
  }

  function StatusText(s: ToolStatus): string {
    match s
    case Success => "success"
    case Partial => "partial"
    case Failed => "failed"
    case Skipped => "skipped"
  }

  function VerdictText(s: VerificationStatus): string {
    match s
    case Approved => "approved"
    case ApprovedWithWarnings => "approved_with_warnings"
    case RevisionRequired => "revision_required"
    case UserInputRequired => "user_input_required"
    case ToolsRequired => "tools_required"
  }

  function IssueText(k: IssueType): string {
    match k
    case MissingTool => "missing_tool"
    case ToolFailure => "tool_failure"
    case MissingEvidence => "missing_evidence"
    case UnsupportedClaim => "unsupported_claim"
    case Contradiction => "contradiction"
    case InsufficientProductData => "insufficient_product_data"
    case IncorrectDetermination => "incorrect_determination"
  }
}
