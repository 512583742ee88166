/** Option and Result, and the few facts about sequences that several modules share. */
module Base {

  datatype Option<+T> = None | Some(value: T)

  datatype Result<+T, +E> = Ok(value: T) | Err(error: E)

  /** The code points that end a line in an event stream. */
  predicate LineBreak(c: char) {
    c == '\n' || c == '\r'
  }

  /** The text is free of line breaks. */
  predicate OneLine(s: string) {
    forall i :: 0 <= i < |s| ==> !LineBreak(s[i])
  }

  /** At most the first n elements. */
  function First<T>(s: seq<T>, n: nat): seq<T> {
    if |s| <= n then s else s[..n]
  }
}
