/**
 * The few pieces of the Terraform plugin framework that the pipeline
 * resource and data source touch: attribute values that may be null or
 * unknown, error diagnostics, and what a handler does to the stored state.
 */
module Framework {

  /** A `types.String` / `types.Int64` attribute: null, not yet known, or a known value. */
  datatype Value<+T> = Null | Unknown | Known(v: T)

  /** `ValueString()`: the text of a known string, and "" for null and unknown. */
  function ValueString(x: Value<string>): string {
    if x.Known? then x.v else ""
  }

  /** An error diagnostic, as `AddError(summary, detail)` appends it. */
  datatype Diagnostic = Error(summary: string, detail: string)

  /**
   * What a handler leaves in its response's state: the state it was handed
   * (`Untouched`), a new one (`resp.State.Set`), or none
   * (`resp.State.RemoveResource`).
   */
  datatype StateAction<+T> = Untouched | SetState(value: T) | RemoveState
}
