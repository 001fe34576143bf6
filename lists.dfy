/** A Python list, mutated in place by `append` and `extend`. */
module Lists {

  class MutableList<T> {
    var items: seq<T>

    /** A list display such as `[]` or `[x]`. */
    constructor (initial: seq<T>)
      ensures items == initial
    {
      items := initial;
    }

    /** Truthiness of a list: `if xs:` holds exactly when it is non-empty. */
    predicate IsNonEmpty()
      reads this
      ensures IsNonEmpty() <==> items != []
    {
      |items| > 0
    }

    /** `xs.append(x)`. */
    method Append(x: T)
      modifies this
      ensures items == old(items) + [x]
    {
      items := items + [x];
    }

    /** `xs.extend(other)`; `other` is read before `xs` changes, so
        `xs.extend(xs)` doubles the list, as in Python. */
    method Extend(other: MutableList<T>)
      modifies this
      ensures items == old(items) + old(other.items)
      ensures other != this ==> other.items == old(other.items)
    {
      items := items + other.items;
    }
  }
}
