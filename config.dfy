/** Configuration errors raised by the kernel's selectors, and the result type
    that carries them. Every selector fails before any state is touched. */
module Config {

  /** The offending option and value, one variant per selector. */
  datatype ConfigError =
    | IllegalEnvelop(form: string)
    | IllegalDegree(degree: int)
    | IllegalCoupling(coupling: int)
    | IllegalSolver(name: string)
    | UndefinedName(name: string)

  datatype Result<+T> = Ok(value: T) | Err(error: ConfigError)
}
