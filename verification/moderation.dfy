/**
 * The administrator's queue of products waiting for approval: the normalisation
 * applied to each product as it arrives, the two shapes the list may come in, a
 * title search, and the approve/reject outcome that triggers a reload.
 */
module Moderation {
  import opened Wrappers
  import opened Text
  import opened Lists
  import opened Catalog

  /**
   * A pending product as the server sends it. The identifier may come as `id`
   * or, from some endpoints, as `ID`; either may be missing.
   */
  datatype PendingProduct = PendingProduct(id: Option<int>, upperId: Option<int>, title: string,
                                           price: string, size: string, gender: string, images: Images)

  /**
   * The body of the pending-products response: a JSON array, an object with or
   * without a `products` field, or a failure (request failed or body not JSON).
   */
  datatype PendingReply = ArrayBody(items: seq<PendingProduct>)
                        | ObjectBody(products: Option<seq<PendingProduct>>)
                        | PendingFailed

  /** The approve/reject request: a response (ok or not, JSON body or not), or a network failure. */
  datatype ActionReply = ActionResponse(ok: bool, jsonBody: bool) | ActionFailed

  /** A JavaScript number in a condition: missing and 0 are false. */
  predicate Truthy(n: Option<int>) {
    n.Some? && n.value != 0
  }

  /** `{ ...product, id: product.id || product.ID, images: <decoded> }` */
  function Normalize(p: PendingProduct, parse: string -> seq<string>): (r: PendingProduct)
    ensures Truthy(p.id) ==> r.id == p.id
    ensures !Truthy(p.id) ==> r.id == p.upperId
    ensures r.images == DecodeImages(p.images, parse) && !r.images.JsonText?
    ensures r.(id := p.id, images := p.images) == p
  {
    p.(id := if Truthy(p.id) then p.id else p.upperId, images := DecodeImages(p.images, parse))
  }

  /** A normalised product is left as it is by a second normalisation. */
  lemma NormalizeIdempotent(p: PendingProduct, parse: string -> seq<string>)
    ensures Normalize(Normalize(p, parse), parse) == Normalize(p, parse)
  {
    DecodeImagesIdempotent(p.images, parse);
  }

  /** `Array.isArray(data) ? data : data.products`; `None` when that is missing, so that `.map` throws. */
  function RawList(reply: PendingReply): (r: Option<seq<PendingProduct>>)
    ensures reply.ArrayBody? ==> r == Some(reply.items)
    ensures reply.ObjectBody? ==> r == reply.products
    ensures reply.PendingFailed? ==> r.None?
  {
    match reply
    case ArrayBody(items) => Some(items)
    case ObjectBody(products) => products
    case PendingFailed => None
  }

  /** `rawList.map(normalize)` */
  function NormalizeAll(list: seq<PendingProduct>, parse: string -> seq<string>): (r: seq<PendingProduct>)
    ensures |r| == |list|
    ensures forall i :: 0 <= i < |r| ==> r[i] == Normalize(list[i], parse)
  {
    seq(|list|, i requires 0 <= i < |list| => Normalize(list[i], parse))
  }

  /** The products whose title contains the search text, ignoring case, in list order. */
  function SearchByTitle(products: seq<PendingProduct>, text: string): (r: seq<PendingProduct>)
    ensures forall p :: p in r <==> p in products && MatchesQuery(p.title, text)
    ensures forall p :: multiset(r)[p] == if MatchesQuery(p.title, text) then multiset(products)[p] else 0
    ensures IsSubsequence(r, products)
  {
    var matches := (p: PendingProduct) => MatchesQuery(p.title, text);
    FilterCounts(products, matches);
    Filter(products, matches)
  }

  /** An empty search shows every product. */
  lemma EmptySearchShowsAll(products: seq<PendingProduct>)
    ensures SearchByTitle(products, "") == products
  {
    forall i | 0 <= i < |products| ensures MatchesQuery(products[i].title, "") {
      EmptyQueryMatches(products[i].title);
    }
    FilterKeepsAll(products, (p: PendingProduct) => MatchesQuery(p.title, ""));
  }

  /** The card's gender label. */
  function GenderLabel(gender: string): (r: string)
    ensures r == "Мужское" <==> gender == "male"
    ensures r != "Мужское" ==> r == "Женское"
  {
    if gender == "male" then "Мужское" else "Женское"
  }

  /** Whether an approve/reject outcome reloads the queue: exactly an ok response, JSON body or not. */
  function ShouldReload(reply: ActionReply): (r: bool)
    ensures r <==> reply == ActionResponse(true, true) || reply == ActionResponse(true, false)
  {
    reply.ActionResponse? && reply.ok
  }

  class ModerationScreen {
    var products: seq<PendingProduct>
    var filteredProducts: seq<PendingProduct>
    var loading: bool
    var search: string

    constructor ()
      ensures products == [] && filteredProducts == [] && loading && search == ""
    {
      products := [];
      filteredProducts := [];
      loading := true;
      search := "";
    }

    /**
     * The pending-products request settled. When a list could be read from the
     * body (whatever the response status), both lists become that list
     * normalised; otherwise they stay. Loading ends either way.
     */
    method LoadSettled(reply: PendingReply, parse: string -> seq<string>)
      modifies this`products, this`filteredProducts, this`loading
      ensures RawList(reply).Some? ==>
                products == filteredProducts == NormalizeAll(RawList(reply).value, parse)
      ensures RawList(reply).None? ==> products == old(products) && filteredProducts == old(filteredProducts)
      ensures !loading
    {
      var raw := RawList(reply);
      if raw.Some? {
        var list := NormalizeAll(raw.value, parse);
        products := list;
        filteredProducts := list;
      }
      loading := false;
    }

    /** The search box changed: the shown list is the title search over the whole list. */
    method HandleSearch(text: string)
      modifies this`search, this`filteredProducts
      ensures search == text && filteredProducts == SearchByTitle(products, text)
    {
      search := text;
      filteredProducts := SearchByTitle(products, text);
    }
  }
}
