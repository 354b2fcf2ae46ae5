/** Option and Result, the kinds of HTTP error the services answer with, and facts about sets and sequences. */
module Wrappers {

  datatype Option<+T> = None | Some(value: T) {
    function GetOr(default: T): T {
      if Some? then value else default
    }
  }

  datatype Error = BadRequest | Unauthorized | NotFound | Conflict | Unprocessable | Internal

  /** A call of a service: it answers with a value or raises an exception. */
  datatype Result<+T> = Ok(value: T) | Err(error: Error) {
    predicate IsFailure() {
      Err?
    }

    function PropagateFailure<U>(): Result<U>
      requires Err?
    {
      Err(error)
    }

    function Extract(): T
      requires Ok?
    {
      value
    }
  }

  /** A transaction on tables of type `T` answers as `answer` says and leaves them as it says, or untouched. */
  predicate Answers<T(==)>(before: T, answer: Result<T>, after: T, r: Result<()>) {
    match answer
    case Ok(tables) => r == Ok(()) && after == tables
    case Err(e) => r == Err(e) && after == before
  }

  predicate Distinct<T(==)>(s: seq<T>) {
    forall i, j :: 0 <= i < j < |s| ==> s[i] != s[j]
  }

  /** `[...new Set(s)]` */
  method Deduplicate<T(==)>(s: seq<T>) returns (unique: seq<T>)
    ensures Distinct(unique) && forall x :: x in unique <==> x in s
  {
    unique := [];
    for i := 0 to |s|
      invariant Distinct(unique) && forall x :: x in unique <==> x in s[..i]
    {
      if s[i] !in unique {
        unique := unique + [s[i]];
      }
      assert s[..i + 1] == s[..i] + [s[i]];
    }
    assert s[..|s|] == s;
  }

  /** A set has at least as many elements as any of its subsets. */
  lemma {:induction false} SubsetSize<T>(small: set<T>, big: set<T>)
    requires small <= big
    ensures |small| <= |big|
  {
    if small != {} {
      var x :| x in small;
      SubsetSize(small - {x}, big - {x});
    }
  }
}
