/** What the LLM-backed skills share: their string-keyed context, the model
    call they make, and the two exception kinds they raise. */
module Skills {
  import opened Wrappers

  /** The `context` dictionary a skill is invoked with. */
  type Context = map<string, string>

  /** `model.generate_content(prompt).text`, left abstract; `Err` carries the
      message of whatever the call raised. */
  type Model = string -> Result<string, string>

  /** The exceptions a skill raises, with their messages. */
  datatype Raised = ValueError(message: string) | RuntimeError(message: string)
}
