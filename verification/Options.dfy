/** A nullable column or an absent argument. */
module Options {

  datatype Option<+T> = None | Some(value: T) {
    /** SQL `coalesce(this, other)`. */
    function Coalesce(other: Option<T>): Option<T> {
      if Some? then this else other
    }

    /** SQL `coalesce(this, other)` for a NOT NULL column. */
    function Or(other: T): T {
      if Some? then value else other
    }
  }
}
