/** Values that may be absent, Go's `value, ok` results and nil pointers, and where a value first occurs. */
module Wrappers {
  datatype Option<+T> = None | Some(value: T)

  /** Position of the first `x` in `s`, as bytes.IndexByte and strings.IndexByte report it. */
  function IndexOf<T(==)>(s: seq<T>, x: T): (r: Option<nat>)
    ensures r.Some? ==> r.value < |s| && s[r.value] == x && x !in s[..r.value]
    ensures r.None? <==> x !in s
  {
    if s == [] then None
    else if s[0] == x then Some(0)
    else
      match IndexOf(s[1..], x)
      case None => None
      case Some(i) => assert s[..i + 1] == [s[0]] + s[1..][..i]; Some(i + 1)
  }
}
