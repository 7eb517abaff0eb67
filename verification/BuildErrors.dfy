/** Outcomes of the table builder. */
module BuildErrors {
  datatype BuildError =
    | LogicError
    | ComplexityMaxStateInGrammarDef
    | ComplexityMaxTerminalInGrammarDef
    | ComplexityMaxProductionLengthInGrammarDef
    | ComplexityMaxProductionPriorityInGrammarDef
    | ComplexityLR1FollowSetsInGrammarDef
    | NoAcceptStatesInGrammarDef

  datatype Result<+T> = Ok(value: T) | Err(error: BuildError)

  const MAX_STATE: nat := 4096
  const MAX_PRODUCTION_LENGTH: nat := 16
  const MAX_NOF_PRODUCTIONS: nat := 512
  const MAX_TERMINAL: nat := 1024
  const MAX_PRIORITY: nat := 32
}
