/** Failure-compatible wrappers for the collaborators that can fail: symbol
    resolution, breakpoint injection and guest-memory reads. The C++ code
    reports these as exceptions; here they are values. */
module Results {
  import opened Words

  datatype Option<+T> = None | Some(value: T)

  /** Why an introspection call failed. */
  datatype Error =
    | SymbolNotFound(moduleBase: U64, cr3: U64, symbol: string)
    | BreakpointRefused(address: U64, cr3: U64)
    | MemoryAccess(address: U64, dtb: U64)

  datatype Result<+T> = Ok(value: T) | Err(error: Error) {
    predicate IsFailure() {
      Err?
    }

    function PropagateFailure<U>(): Result<U>
      requires Err?
    {
      Err(error)
    }

    function Extract(): T
      requires Ok?
    {
      value
    }
  }
}
