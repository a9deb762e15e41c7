/**
 * The record every registry adapter produces, whatever the jurisdiction:
 * the result of a license lookup and one row of a name search.
 */
module Canonical {
  import opened Common
  import opened Text

  /**
   * A lookup result. `Found` is the `success: True` dictionary (keys a
   * jurisdiction does not fill are `None`); `Failed` is the `success: False`
   * dictionary, which echoes the license number and carries the error text.
   */
  datatype LookupResult =
    | Found(licenseNumber: string, holderName: Option<string>, licenseClass: Option<string>,
            status: string, expirationDate: Option<string>, initialDate: Option<string>,
            firmType: Option<string>, specialties: Option<string>, address: Option<string>,
            violations: Option<string>, rawHtml: string)
    | Failed(licenseNumber: string, error: string)

  /** One result of a name search. */
  datatype SearchHit = SearchHit(licenseNumber: string, name: string, address: Option<string>,
                                 licenseType: string, board: string)

  /** How much of a detail page a successful lookup keeps (`text[:5000]`). */
  const RawExcerptLength := 5000

  function RawExcerpt(body: string): (r: string)
    ensures |r| <= RawExcerptLength && |r| <= |body| && r == body[..|r|]
    ensures |body| <= RawExcerptLength ==> r == body
    ensures |body| > RawExcerptLength ==> |r| == RawExcerptLength
  {
    SliceTo(body, RawExcerptLength)
  }
}
