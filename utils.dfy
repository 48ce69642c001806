/** The query parameters of the list endpoint and their defaults. */
module Utils {

  /** Largest value of an unsigned machine-sized integer on a 64-bit target. */
  const USIZE_MAX: int := 0xFFFF_FFFF_FFFF_FFFF

  /** An unsigned machine-sized integer: a negative page or page size cannot be represented. */
  newtype Usize = x: int | 0 <= x <= USIZE_MAX

  /** The `page` / `per_page` pair a list request may carry. */
  datatype Pagination = Pagination(page: Usize, perPage: Usize)

  /** The parameters used when the request carries none: the first page, thirty records. */
  function DefaultPagination(): (p: Pagination)
    ensures p.page == 1
    ensures p.perPage == 30
  {
    Pagination(1, 30)
  }
}
