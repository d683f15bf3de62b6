/** Small shared vocabulary: an optional value, and lists without repetition. */
module Basics {

  datatype Option<+T> = None | Some(value: T)

  predicate Distinct<T(==)>(items: seq<T>) { forall i, j | 0 <= i < j < |items| :: items[i] != items[j] }
}
