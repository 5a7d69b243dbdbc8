/** Small value types shared by the other modules. */
module Values {

  datatype Option<+T> = None | Some(value: T)

  /** A Go map lookup: the zero value for a missing key. */
  function Lookup(m: map<string, string>, k: string): string {
    if k in m then m[k] else ""
  }
}
