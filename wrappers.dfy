/** Optional values. A pandas cell that holds NaN (a missing value) is `None`. */
module Wrappers {
  datatype Option<T> = None | Some(value: T)
  {
    /** The value, or `default` when the cell is missing (pandas `fillna(default)`). */
    function OrElse(default: T): T
    {
      if Some? then value else default
    }
  }

  /** A named column of a row; an absent column reads as a missing value. */
  function Column<K, V>(columns: map<K, Option<V>>, name: K): (v: Option<V>)
    ensures v.Some? ==> name in columns && columns[name] == v
    ensures name !in columns ==> v.None?
  {
    if name in columns then columns[name] else None
  }
}
