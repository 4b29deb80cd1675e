/** The values the compiler backends exchange with their callers: options
    in, result out. Compiled modules are byte strings, held as `string` like
    every Go `string` and `[]byte` in this model. */
module CompileTypes {
  import opened Base

  /** A `BeforeDelete` hook: it is shown the compiled module while the
      workspace still exists, and may return an error text. */
  type Hook = string -> Option<string>

  datatype CompileOpts = CompileOpts(genWat: bool, beforeDelete: Option<Hook>)

  /** A hook is given and it returns an error for the module `wasm`. */
  predicate Rejects(hook: Option<Hook>, wasm: string)
  {
    hook.Some? && hook.value(wasm).Some?
  }

  /** `CompileResult{}` is `CompileResult("", "")`. */
  datatype CompileResult = CompileResult(wasm: string, wat: string)

  const EmptyResult: CompileResult := CompileResult("", "")

  /** The `wasm2wat` converter (wasm/wasm2wat.go): the text form of a module, or a failure. */
  type Disassembler = string -> Option<string>
}
