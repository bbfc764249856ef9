/** Small value wrappers shared by the other modules. */
module Wrappers {

  /** A value that may be missing: a field that is absent, or `undefined`. Where the
      source only ever turns a value into text (a template literal, a property key),
      `Some(s)` holds that text, so a JSON `null` there is `Some("null")`; where it only
      tests a value for truth (`x || d`), `None` stands for every falsy value. */
  datatype Option<+T> = None | Some(value: T) {

    /** The wrapped value, or `default` when there is none. */
    function GetOr(default: T): T {
      match this
      case Some(v) => v
      case None => default
    }
  }

  /** The entries of a sequence in which none is missing. */
  function Values<T>(s: seq<Option<T>>): (r: seq<T>)
    requires forall i :: 0 <= i < |s| ==> s[i].Some?
    ensures |r| == |s| && forall i :: 0 <= i < |s| ==> s[i] == Some(r[i])
  {
    seq(|s|, i requires 0 <= i < |s| => s[i].value)
  }
}
