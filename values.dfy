/** The optional value used for Python's `None`, the result of an operation that
    raises one of the errors the model tracks, and the list comprehension that applies
    one function to every element. */
module Values {

  datatype Option<+T> = None | Some(value: T)
  {
    function GetOr(default: T): T
    {
      match this
      case Some(v) => v
      case None => default
    }
  }

  datatype Result<+T, +E> = Ok(value: T) | Err(error: E)

  /** `[f(x) for x in s]`. */
  function MapSeq<A, B>(f: A -> B, s: seq<A>): (r: seq<B>)
    ensures |r| == |s|
  {
    if s == [] then [] else MapSeq(f, s[..|s| - 1]) + [f(s[|s| - 1])]
  }

  /** Element `j` of the mapped list is `f` of element `j`. */
  lemma {:induction false} MapSeqAt<A, B>(f: A -> B, s: seq<A>, j: nat)
    requires j < |s|
    ensures MapSeq(f, s)[j] == f(s[j])
  {
    var init := s[..|s| - 1];
    if j < |init| {
      MapSeqAt(f, init, j);
      assert init[j] == s[j];
    }
  }

  /** A prefix one element longer is the shorter prefix and that element. */
  lemma SnocSlice<T>(s: seq<T>, p: nat)
    requires p < |s|
    ensures s[..p + 1] == s[..p] + [s[p]]
  {
  }
}
