/** Values shared by every part of the model: optional values, results and
    the errors the server reports. */
module Base {

  datatype Option<+T> = None | Some(value: T)

  datatype Result<+T> = Ok(value: T) | Err(error: Error)

  /** An operation performed on the host, on the bucket or by an external tool. */
  datatype Op =
    | MakeDir
    | CreateFile(name: string)
    | WriteFile(name: string)
    | OpenFile(name: string)
    | Wasm2Wat
    | Upload(key: string)
    | Download(key: string)
    | Delete(key: string)
    | List(prefix: string)
    | Presign(key: string)

  /** An error value as the server produces it. */
  datatype Error =
    | Message(text: string)     // built by the server itself (errors.New, fmt.Errorf)
    | Failed(op: Op)            // reported by the host, a tool or the bucket
    | Database(text: string)    // reported by the metadata store, with its message
    | HookError(text: string)   // returned by a caller's BeforeDelete hook
    | Panicked(reason: string)  // a run-time panic, which the HTTP layer answers with a server error

  /** The text of `record not found`, the metadata store's answer to a lookup that matches no row. */
  const RecordNotFound: string := "record not found"
}
