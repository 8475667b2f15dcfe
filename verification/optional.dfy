/** A value that may be absent. It stands for three things in this model:
    an argument the caller left as Python's `None`, the ValueError that
    `xrange` raises for a zero step, and a replay of blinker actions that
    goes wrong. */
module Optional {

  datatype Option<T> = None | Some(value: T) {

    /** The value, or `fallback` when absent: the source's
        `if x == None: x = fallback`. */
    function ValueOr(fallback: T): T {
      if Some? then value else fallback
    }
  }
}
