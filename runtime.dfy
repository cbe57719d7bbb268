/** The few Java runtime notions the engine's code relies on. */
module Runtime {

  /** A `java.lang.Object` stored in one of the engine's untyped tables
      (context variables, property tables, attribute tables). */
  datatype Value = Null | Str(s: string)

  /** The exceptions the modelled code can throw. */
  datatype Exception =
    | NullPointer
    | NoSuchElement
    | NoValidPath
    | JodaEngineRuntime(message: string)
    | DalmatinaRuntime(message: string)

  /** A `java.util.UUID`, identified by its canonical `toString` form. */
  datatype Uuid = Uuid(canonical: string)
}
