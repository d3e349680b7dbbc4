/** The nullable fields of the detection records (`T | null`) as an Option. */
module Wrappers {

  datatype Option<+T> = None | Some(value: T) {

    /** The present value as a sequence of length zero or one. */
    function ToSeq(): (s: seq<T>)
      ensures |s| <= 1
      ensures Some? <==> |s| == 1
      ensures Some? ==> s[0] == value
    {
      match this
      case None => []
      case Some(v) => [v]
    }
  }
}
