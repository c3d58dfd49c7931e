/**
 * The `page` and `size` query parameters of the spot listing: defaults, range
 * checks that each report their own error, and the LIMIT/OFFSET they select.
 */
module Pagination {
  import opened Wrappers

  const DefaultPage := 1
  const DefaultSize := 20
  const MaxPage := 10
  const MaxSize := 20
  const BadRequestMessage := "bad request"
  const PageMessage := "Page must be greater than 0 and no more than 10"
  const SizeMessage := "Size must be greater than 0 and no more than 20"

  datatype PageQuery =
    | BadRequest(errors: map<string, string>)
    | Window(page: int, size: int, limit: nat, offset: nat)
  {
    function Status(): int { if BadRequest? then 400 else 200 }
  }

  predicate PageInRange(page: int) { 1 <= page <= MaxPage }
  predicate SizeInRange(size: int) { 1 <= size <= MaxSize }

  /** The page asked for; an absent or empty parameter means the first page. */
  function PageOrDefault(page: Option<int>): (p: int)
    ensures page.None? ==> p == DefaultPage && PageInRange(p)
    ensures page.Some? ==> p == page.value
  {
    page.GetOr(DefaultPage)
  }

  /** The page size asked for; an absent or empty parameter means the largest size. */
  function SizeOrDefault(size: Option<int>): (s: int)
    ensures size.None? ==> s == DefaultSize && SizeInRange(s)
    ensures size.Some? ==> s == size.value
  {
    size.GetOr(DefaultSize)
  }

  /**
   * Fills the `errors` object one field at a time; any entry rejects the
   * request, otherwise the window is `size` rows starting after `page - 1` pages.
   */
  method Paginate(page: Option<int>, size: Option<int>) returns (r: PageQuery)
    ensures r.BadRequest? <==> !PageInRange(PageOrDefault(page)) || !SizeInRange(SizeOrDefault(size))
    ensures r.BadRequest? ==> r.errors.Keys <= {"page", "size"}
    ensures r.BadRequest? ==> ("page" in r.errors <==> !PageInRange(PageOrDefault(page)))
    ensures r.BadRequest? ==> ("size" in r.errors <==> !SizeInRange(SizeOrDefault(size)))
    ensures r.BadRequest? && "page" in r.errors ==> r.errors["page"] == PageMessage
    ensures r.BadRequest? && "size" in r.errors ==> r.errors["size"] == SizeMessage
    ensures r.Window? ==> r.page == PageOrDefault(page) && r.size == SizeOrDefault(size)
    ensures r.Window? ==> r.limit == r.size && r.offset == (r.page - 1) * r.size
    ensures r.Window? ==> 1 <= r.limit <= MaxSize && r.offset <= (MaxPage - 1) * MaxSize
  {
    var errors: map<string, string> := map[];
    var p := if page.None? then DefaultPage else page.value;
    if p < 1 || p > MaxPage {
      errors := errors["page" := PageMessage];
    }
    assert "page" in errors <==> !PageInRange(p);
    var s := if size.None? then DefaultSize else size.value;
    if s < 1 || s > MaxSize {
      errors := errors["size" := SizeMessage];
    }
    assert "size" in errors <==> !SizeInRange(s);
    if errors.Keys != {} {
      return BadRequest(errors);
    }
    OffsetBound(p, s);
    r := Window(p, s, s, (p - 1) * s);
  }

  /** The last page of the largest size starts at row 180. */
  lemma OffsetBound(page: int, size: int)
    requires PageInRange(page) && SizeInRange(size)
    ensures 0 <= (page - 1) * size <= (MaxPage - 1) * MaxSize
  {
    assert (page - 1) * size <= (MaxPage - 1) * size;
  }
}
