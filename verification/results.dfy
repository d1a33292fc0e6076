/** Failure handling shared by every extractor: the report parse either
    fully succeeds or stops at the first error, as a thrown exception does
    in the source. */
module Results {

  /** The ways a damage-report parse can fail. */
  datatype ParseError =
    | AgentParseError           // a label colour outside the two-entry team table
    | StatusParseError          // the level or health line does not have its fixed shape
    | NoDamageDetected          // no destruction count is non-zero
    | UnknownIconTeam(icon: string)  // the map-icon token is not in the icon table
    | LinkCountMismatch         // destroyed links disagree with the portals of the group
    | Missing(what: string)     // a node, attribute or parameter the code dereferences is absent
    | ReadOnlyName(name: string) // a record merged onto a built-in function, whose `name` cannot be set

  /** Success value or the error that aborted the parse; usable with `:-`. */
  datatype Result<+T> = Ok(value: T) | Err(error: ParseError) {
    predicate IsFailure() {
      Err?
    }

    function PropagateFailure<U>(): Result<U>
      requires Err?
    {
      Err(error)
    }

    function Extract(): T
      requires Ok?
    {
      value
    }
  }

  /** A value that may be absent (JavaScript `null` or `undefined`). */
  datatype Option<+T> = None | Some(value: T)
}
