/** The exception the evaluator throws. */
module RuntimeErrors {
  import opened Wrappers
  import opened Tokens

  /**
   * A runtime error: the token it is reported at (`None` for Java's `null`,
   * which the driver prints without a line) and its message. Both are fixed
   * at construction; the getters are the destructors.
   */
  datatype RuntimeError = RuntimeError(operator: Option<Token>, message: string)
}
