/** BoardFactory.java: only the standard sizes 9, 13 and 19 produce a board. */
module BoardFactory {
  import opened Wrappers
  import opened StoneColors
  import opened Boards

  const SizeError: string := "Dozwolone rozmiary planszy to: 9, 13, 19"

  predicate AllowedSize(n: int) {
    n == 9 || n == 13 || n == 19
  }

  function CreateBoard(n: int): (r: Result<Board>)
    ensures r.Success? <==> AllowedSize(n)
    ensures r.Failure? ==> r.error == SizeError
    ensures r.Success? ==> r.value.size == n && AllowedSize(r.value.size)
    ensures r.Success? ==> forall p :: r.value.InBounds(p) ==> r.value.At(p) == Empty
  {
    if n != 9 && n != 13 && n != 19 then Failure(SizeError) else Success(NewBoard(n))
  }
}
