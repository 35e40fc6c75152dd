/** What an edit reports: the columns that moved, each with the value replaced and the value put there. */
module ChangeLog {
  datatype Change<V> = Change(previous: V, next: V)

  /** An entry is made only for a value that differs, and a later entry replaces an earlier one. */
  function Logged<K, V(==)>(changes: map<K, Change<V>>, column: K, previous: V, next: V): map<K, Change<V>> {
    if previous == next then changes else changes[column := Change(previous, next)]
  }
}
