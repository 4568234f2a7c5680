/** The errors the worker raises or receives, with the flag that decides between retrying and giving up. */
module WorkerErrors {
  datatype WorkerFailure = WorkerFailure(code: string, retryable: bool)

  const WORKFLOW_DEFINITION_INVALID := WorkerFailure("workflow_definition_invalid", false)
  const WORKFLOW_DEFINITION_UNORDERED := WorkerFailure("workflow_definition_unordered", false)
  const WORKFLOW_EXECUTION_WORKER_ERROR := WorkerFailure("workflow_execution_worker_error", true)
}
