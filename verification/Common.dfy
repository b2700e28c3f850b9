/** Option and Result, used wherever the Go code returns nil or an error. */
module Common {

  datatype Option<+T> = None | Some(value: T)

  datatype Result<+T> = Ok(value: T) | Err(message: string)

  /** What a call comes to where the Go code may also panic. */
  datatype Outcome<+T> = Done(value: T) | Error(message: string) | Panicked

  /** The last element of a non-empty list. */
  function Last<T>(s: seq<T>): T
    requires s != []
  {
    s[|s| - 1]
  }

  ghost function SomeOf<T>(s: set<T>): (e: T)
    requires s != {}
    ensures e in s
  {
    var e :| e in s;
    e
  }

  /** Any member of a set: the arbitrary order in which Go ranges over a map. */
  method AnyOf<T>(s: set<T>) returns (e: T)
    requires s != {}
    ensures e in s
  {
    e :| e in s;
  }
}
