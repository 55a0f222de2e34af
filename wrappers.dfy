/** Optional values: the model's stand-in for C# null references and `?.` / `??` chains. */
module Wrappers {
  datatype Option<+T> = None | Some(value: T)
  {
    /** The `??` operator: the value when present, the fallback otherwise. */
    function GetOr(fallback: T): T
    {
      if Some? then value else fallback
    }
  }
}
