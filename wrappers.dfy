/** The optional value used for pointers that may be null (getNodeAs, getDirectCallee)
    and for parses that may fail. */
module Wrappers {

  datatype Option<+T> = None | Some(value: T)
  {
    /** The value, if any, as a sequence of length at most one. */
    function ToSeq(): (s: seq<T>)
      ensures |s| <= 1
    {
      match this
      case None => []
      case Some(v) => [v]
    }
  }

}
