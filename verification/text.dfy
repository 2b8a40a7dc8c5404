/** Small text utilities shared by the protocol modules: an optional value,
    a success/failure value, and Rust's `str::split_once` on one character. */
module Text {

  /** An optional value (Rust's `Option`). */
  datatype Option<+T> = None | Some(value: T)

  /** A success value or a failure value (Rust's `Result`). */
  datatype Result<+T, +E> = Success(value: T) | Failure(error: E)

  /** Splits `s` around the FIRST occurrence of `sep`: the text before it
      (which never contains `sep`) and everything after it. `None` exactly
      when `sep` does not occur. */
  function SplitOnce(s: string, sep: char): (r: Option<(string, string)>)
    ensures r.None? <==> sep !in s
    ensures r.Some? ==> s == r.value.0 + [sep] + r.value.1 && sep !in r.value.0
  {
    if |s| == 0 then None
    else if s[0] == sep then Some(([], s[1..]))
    else match SplitOnce(s[1..], sep)
      case None => None
      case Some((before, after)) => Some(([s[0]] + before, after))
  }

  /** Splitting is the inverse of joining around a separator that does not
      occur in the left part: the first occurrence is the joint. */
  lemma {:induction false} SplitOnceOfJoin(before: string, sep: char, after: string)
    requires sep !in before
    ensures SplitOnce(before + [sep] + after, sep) == Some((before, after))
  {
    var s := before + [sep] + after;
    if |before| > 0 {
      assert s[0] == before[0] != sep;
      assert s[1..] == before[1..] + [sep] + after;
      SplitOnceOfJoin(before[1..], sep, after);
      assert [before[0]] + before[1..] == before;
    }
  }
}
