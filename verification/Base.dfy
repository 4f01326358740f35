// Definitions shared by every component model.
module Base {

  datatype Option<+T> = None | Some(value: T)

  // A call to code outside the model: it either answers or reports an error.
  datatype Result<+T> = Ok(value: T) | Err

  // No element of s occurs twice.
  ghost predicate Distinct<T>(s: seq<T>)
  {
    forall i, j :: 0 <= i < j < |s| ==> s[i] != s[j]
  }
}
