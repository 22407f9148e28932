/** The helpers of utils.go that the handshake interceptor relies on. */
module Utils {
  import opened Wrappers

  /** `panicIfError`: a non-nil error aborts the process with that error;
      nil lets execution carry on untouched. */
  function PanicIfError<E>(e: Option<E>): (r: Outcome<E>)
    ensures r.Fail? <==> e.Some?
    ensures r.Fail? ==> r.error == e.value
  {
    match e
    case None => Pass
    case Some(err) => Fail(err)
  }

  /** `indexOf`: the position of the first occurrence of `element` in
      `data`, or -1 when it does not occur. */
  method IndexOf(element: string, data: seq<string>) returns (index: int)
    ensures -1 <= index < |data|
    ensures index == -1 <==> element !in data
    ensures 0 <= index ==> data[index] == element
    ensures 0 <= index ==> forall j :: 0 <= j < index ==> data[j] != element
  {
    for i := 0 to |data|
      invariant element !in data[..i]
    {
      if element == data[i] {
        return i;
      }
    }
    assert data[..|data|] == data;
    return -1;
  }
}
