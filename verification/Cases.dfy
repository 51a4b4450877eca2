/** Rows of cases and of the events that record each change of a case. */
module CaseRows {
  import opened Basics

  datatype CaseKind = ProblemCase | InitiativeCase

  datatype CaseStatus = Detected | Collecting | RequestReady | NeedsEvidence | NotSupported | ClosedCase

  datatype CaseRow = CaseRow(
    kind: CaseKind,
    status: CaseStatus,
    version: int,
    title: string,
    description: string,
    author: Option<Id>)

  datatype CaseChange =
    | BecameReady | BecameNeedsEvidence | InitiativeRevised | InitiativeDecided | MessageAttached | LaterStep

  // An event's or command's own id, or the name-based id the source derives from an initiative's operation key.
  datatype OperationId = Drawn(id: Id) | Derived(operationKey: string)

  // Within one house the operation id is unique.
  datatype CaseEventRow =
    CaseEventRow(caseId: Id, change: CaseChange, before: int, after: int, operationId: OperationId)

  // Cases of one house; a case of another house is simply not there.
  datatype CaseFile = CaseFile(cases: map<Id, CaseRow>, events: seq<CaseEventRow>)

  predicate OperationApplied(f: CaseFile, operationId: OperationId) {
    exists i :: 0 <= i < |f.events| && f.events[i].operationId == operationId
  }
}
