/**
 * The shared result shape every platform backend produces
 * (src/lib.rs): the platform kind plus an optional name and version.
 */
module Os {
  import opened Wrappers

  /** The coarse platform family; fixed by the backend that built the record. */
  datatype OsKind = Linux | Macos | Windows

  /** What a backend reports; `None` marks a field it could not determine. */
  datatype OsInfo = OsInfo(kind: OsKind, name: Option<string>, version: Option<string>)
}
