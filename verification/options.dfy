/** A value that may be missing: an absent field of the stock response, an
    emoji no name matches, an item the role table does not map. */
module Options {

  datatype Option<T> = None | Some(value: T) {

    /** The value, or `fallback` when it is missing: lines 80-81 read an
        absent item list as `[]` this way. */
    function ValueOr(fallback: T): T {
      if Some? then value else fallback
    }
  }
}
