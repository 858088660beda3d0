/** What the product screens share: the `images` field, which the server may send as a JSON text. */
module Catalog {

  /** A product's `images` field: an array of URLs, a string holding JSON, or absent. */
  datatype Images = Urls(urls: seq<string>) | JsonText(text: string) | NoImages

  /**
   * `typeof images === "string" ? JSON.parse(images) : images`, with the JSON parser
   * given as `parse` (it is assumed to yield a list of URLs).
   */
  function DecodeImages(images: Images, parse: string -> seq<string>): (r: Images)
    ensures !r.JsonText?
    ensures images.JsonText? ==> r == Urls(parse(images.text))
    ensures !images.JsonText? ==> r == images
  {
    if images.JsonText? then Urls(parse(images.text)) else images
  }

  /** Decoding an already decoded field changes nothing. */
  lemma DecodeImagesIdempotent(images: Images, parse: string -> seq<string>)
    ensures DecodeImages(DecodeImages(images, parse), parse) == DecodeImages(images, parse)
  {
  }
}
