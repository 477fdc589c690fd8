/** The records shared by the whole model: translation entries, tag attributes and outcomes. */
module Entries {

  /** One translation record: created once for a TEXT tag carrying KEY and VALUE, never changed. */
  datatype Entry = Entry(key: string, value: string, section: string, file: string)

  /**
   * The attribute set of a start tag. The empty map also stands for an absent
   * attribute set: `append` tests `if attributes:`, which treats `None` and an
   * empty mapping alike.
   */
  type Attributes = map<string, string>

  /**
   * How an operation ended. `KeyError(name)` is the exception raised when a
   * required attribute `name` is missing; `MissingDocument(path)` stands for
   * whatever error the parser raises when the root document cannot be opened. Both abort the whole load.
   */
  datatype Outcome = Pass | KeyError(name: string) | MissingDocument(path: string)

  /** The state an operation leaves behind, together with how it ended. */
  datatype Step<S> = Step(state: S, outcome: Outcome)

  /** The sentinel section of entries outside every SECTION tag. */
  const Root: string := "ROOT"
}
