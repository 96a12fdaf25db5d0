/**
 * PageNumbersValidation: the 0-based skip count used by the live repository's FindMany,
 * with its argument checks. The product is C#'s unchecked 32-bit multiplication.
 */
module PageNumbersValidation {
  import opened Wrappers
  import opened ClrInt

  const PageSizeMessage: string := "pageSize should be greater than 0."
  const PageIndexMessage: string := "pageIndex should be equal or greater than 0."

  /** `ToSkipNumber(pageIndex, pageSize)`. */
  function ToSkipNumber(pageIndex: Int32, pageSize: Int32): (r: Result<Int32>)
    ensures r.Ok? <==> pageSize >= 1 && pageIndex >= 0
    ensures pageSize < 1 ==> r == Err(ArgumentException(PageSizeMessage))
    ensures pageSize >= 1 && pageIndex < 0 ==> r == Err(ArgumentException(PageIndexMessage))
    ensures r.Ok? && pageIndex * pageSize <= MaxInt32 ==> r.value == pageIndex * pageSize && r.value >= 0
    ensures r.Ok? ==> (pageIndex * pageSize - r.value) % Modulus == 0
  {
    if pageSize < 1 then Err(ArgumentException(PageSizeMessage))
    else if pageIndex < 0 then Err(ArgumentException(PageIndexMessage))
    else Ok(Wrap(pageIndex * pageSize))
  }

  /** Page 0 starts at the first item, and consecutive pages start `pageSize` items apart
      while the product fits in 32 bits. */
  lemma ConsecutivePages(pageIndex: Int32, pageSize: Int32)
    requires pageIndex >= 0 && pageSize >= 1 && (pageIndex + 1) * pageSize <= MaxInt32
    ensures ToSkipNumber(0, pageSize) == Ok(0)
    ensures ToSkipNumber(pageIndex + 1, pageSize).Ok?
    ensures ToSkipNumber(pageIndex + 1, pageSize).value == ToSkipNumber(pageIndex, pageSize).value + pageSize
  {
    assert pageIndex * pageSize <= (pageIndex + 1) * pageSize;
  }

  /** The multiplication is not checked: 65536 pages of 65536 items wrap to a skip of 0, and
      46341 pages of 46341 items to a negative skip. */
  lemma ProductWrapsAround()
    ensures ToSkipNumber(65536, 65536) == Ok(0)
    ensures ToSkipNumber(46341, 46341).Ok? && ToSkipNumber(46341, 46341).value < 0
  {
  }
}

/** MongoDbPageNumbers: a second copy of the 0-based skip count. */
module MongoDbPageNumbers {
  import opened Wrappers
  import opened ClrInt
  import PageNumbersValidation

  const PageSizeMessage: string := "pageSize should be greater than 0."
  const PageIndexMessage: string := "pageIndex should be equal or greater than 0."

  /** `ToSkipNumber(pageIndex, pageSize)`. */
  function ToSkipNumber(pageIndex: Int32, pageSize: Int32): (r: Result<Int32>)
    ensures r.Ok? <==> pageSize >= 1 && pageIndex >= 0
    ensures pageSize < 1 ==> r.Err? && r.error.ArgumentException? && r.error.message == PageSizeMessage
    ensures pageSize >= 1 && pageIndex < 0 ==> r.Err? && r.error.ArgumentException? && r.error.message == PageIndexMessage
    ensures r.Ok? && pageIndex * pageSize <= MaxInt32 ==> r.value == pageIndex * pageSize && r.value >= 0
    ensures r.Ok? ==> (pageIndex * pageSize - r.value) % Modulus == 0
  {
    if pageSize < 1 then Err(ArgumentException(PageSizeMessage))
    else if pageIndex < 0 then Err(ArgumentException(PageIndexMessage))
    else Ok(Wrap(pageIndex * pageSize))
  }

  /** Both copies give the same skip or throw the same exception on every input. */
  lemma AgreesWithValidation(pageIndex: Int32, pageSize: Int32)
    ensures ToSkipNumber(pageIndex, pageSize) == PageNumbersValidation.ToSkipNumber(pageIndex, pageSize)
  {
  }
}
