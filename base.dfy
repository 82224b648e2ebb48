/** Outcomes shared by every module: an optional value, and a result that is
    either a value or one of the Python exceptions the modelled code can raise. */
module Base {

  datatype Option<T> = None | Some(value: T)

  /** The exceptions the modelled functions let escape. */
  datatype Error =
    | KeyError(key: string)
    | IndexError
    | ValueError(text: string)
    | AssertionError

  datatype Result<T> = Ok(value: T) | Err(error: Error)

  /** A Python list of strings that more than one party holds a reference to:
      a method that appends to it changes what every holder sees. */
  class PyList {
    var items: seq<string>

    constructor (items: seq<string>)
      ensures this.items == items
    {
      this.items := items;
    }

    method Append(x: string)
      modifies this
      ensures items == old(items) + [x]
    {
      items := items + [x];
    }

    method Extend(xs: seq<string>)
      modifies this
      ensures items == old(items) + xs
    {
      items := items + xs;
    }
  }
}
