/**
 * The home feed: approved products, the local favourites list with its toggle,
 * the administrator's delete dialog with its reason guard, and what each card
 * shows (first image, author).
 */
module Home {
  import opened Wrappers
  import opened Text
  import opened Lists
  import opened Catalog

  /** The `user` object nested in a product. */
  datatype Author = Author(username: Option<string>)

  /** An approved product as the feed endpoint sends it. */
  datatype Listing = Listing(id: int, title: string, description: string, price: string,
                             images: Images, user: Option<Author>)

  /** The feed request: an ok response with its products, a non-ok response, or a failure. */
  datatype ProductsReply = ProductsOk(products: seq<Listing>) | ProductsNotOk | ProductsFailed

  /** The delete request: the selected product and the reason as typed. */
  datatype DeleteRequest = DeleteRequest(productId: Option<int>, reason: string)

  /**
   * The delete request's outcome: ok, a non-ok response, or a failure. The handler
   * reads the JSON body before it looks at `ok`, so an ok response whose body is
   * not JSON throws into `catch` and counts as `DeleteFailed`.
   */
  datatype DeleteReply = Deleted | DeleteRefused | DeleteFailed

  const UnknownAuthor: string := "Автор неизвестен"

  // ---------------------------------------------------------------------------
  // Favourites

  /**
   * `prev.includes(id) ? prev.filter((fid) => fid !== id) : [...prev, id]`: an absent
   * id is appended; a present one is removed, every occurrence of it.
   */
  function ToggledFavorites(favorites: seq<int>, id: int): (r: seq<int>)
    ensures id in r <==> id !in favorites
    ensures id !in favorites ==> r == favorites + [id]
    ensures id in favorites ==> IsSubsequence(r, favorites)
    ensures forall x :: x != id ==> (x in r <==> x in favorites)
  {
    if id in favorites then Filter(favorites, (f: int) => f != id) else favorites + [id]
  }

  /** Removing an id keeps every other id exactly as often as it was there. */
  lemma ToggleKeepsOtherCounts(favorites: seq<int>, id: int)
    requires id in favorites
    ensures forall x :: x != id ==> multiset(ToggledFavorites(favorites, id))[x] == multiset(favorites)[x]
  {
    FilterCounts(favorites, (f: int) => f != id);
  }

  /** Toggling an absent id twice restores the list. */
  lemma ToggleTwiceAbsent(favorites: seq<int>, id: int)
    requires id !in favorites
    ensures ToggledFavorites(ToggledFavorites(favorites, id), id) == favorites
  {
    var p := (f: int) => f != id;
    FilterConcat(favorites, [id], p);
    FilterKeepsAll(favorites, p);
    assert Filter([id], p) == [];
  }

  /** Toggling a present id twice does not restore the list in general: the id comes back at the end. */
  lemma ToggleTwicePresent(favorites: seq<int>, id: int)
    requires id in favorites
    ensures ToggledFavorites(ToggledFavorites(favorites, id), id) == Filter(favorites, (f: int) => f != id) + [id]
  {
  }

  /** For example the list [1, 2] toggled twice at 1 becomes [2, 1]. */
  lemma ToggleTwiceReorders()
    ensures ToggledFavorites(ToggledFavorites([1, 2], 1), 1) == [2, 1]
  {
    var p := (f: int) => f != 1;
    assert [1, 2][1..] == [2];
    assert Filter([2], p) == [2];
  }

  /** A filter of a list without duplicates has none either. */
  lemma {:induction false} FilterNoDuplicates(s: seq<int>, p: int -> bool)
    requires NoDuplicates(s)
    ensures NoDuplicates(Filter(s, p))
  {
    if s != [] {
      FilterNoDuplicates(s[1..], p);
      assert s[0] !in s[1..];
    }
  }

  /** The favourites, starting empty, never hold an id twice. */
  lemma ToggleKeepsNoDuplicates(favorites: seq<int>, id: int)
    requires NoDuplicates(favorites)
    ensures NoDuplicates(ToggledFavorites(favorites, id))
  {
    if id in favorites {
      FilterNoDuplicates(favorites, (f: int) => f != id);
    }
  }

  // ---------------------------------------------------------------------------
  // A card

  /** `item.images?.[0] || ""`: the first image, or "" (a still-encoded field yields its first character). */
  function FirstImage(l: Listing): (r: string)
    ensures l.images.Urls? && l.images.urls != [] ==> r == l.images.urls[0]
    ensures l.images.NoImages? || l.images == Urls([]) ==> r == ""
    ensures l.images.JsonText? ==> r == Take(l.images.text, 1)
  {
    match l.images
    case Urls(us) => if us != [] then us[0] else ""
    case JsonText(t) => if t != "" then [t[0]] else ""
    case NoImages => ""
  }

  /** `item.user?.username || "Автор неизвестен"` */
  function AuthorName(l: Listing): (r: string)
    ensures r != ""
    ensures l.user.Some? && Present(l.user.value.username) ==> r == l.user.value.username.value
    ensures !(l.user.Some? && Present(l.user.value.username)) ==> r == UnknownAuthor
    ensures r == UnknownAuthor <==> l.user.None? || l.user.value.username.None?
                                    || l.user.value.username == Some("") || l.user.value.username == Some(UnknownAuthor)
  {
    match l.user
    case Some(Author(Some(name))) => if name != "" then name else UnknownAuthor
    case _ => UnknownAuthor
  }

  /** The feed's product conversion: each product with its `images` field decoded. */
  function DecodeListings(products: seq<Listing>, parse: string -> seq<string>): (r: seq<Listing>)
    ensures |r| == |products|
    ensures forall i :: 0 <= i < |r| ==> r[i] == products[i].(images := DecodeImages(products[i].images, parse))
  {
    seq(|products|, i requires 0 <= i < |products| =>
      products[i].(images := DecodeImages(products[i].images, parse)))
  }

  // ---------------------------------------------------------------------------
  // The screen

  class HomeScreen {
    var products: seq<Listing>
    var favorites: seq<int>
    var loading: bool
    var modalVisible: bool
    var selectedProductId: Option<int>
    var deleteReason: string

    constructor ()
      ensures products == [] && favorites == [] && loading
      ensures !modalVisible && selectedProductId == None && deleteReason == ""
    {
      products := [];
      favorites := [];
      loading := true;
      modalVisible := false;
      selectedProductId := None;
      deleteReason := "";
    }

    /** The feed request settled: only an ok response replaces the products. Loading ends either way. */
    method ApplyProducts(reply: ProductsReply, parse: string -> seq<string>)
      modifies this`products, this`loading
      ensures products == if reply.ProductsOk? then DecodeListings(reply.products, parse) else old(products)
      ensures !loading
    {
      if reply.ProductsOk? {
        products := DecodeListings(reply.products, parse);
      }
      loading := false;
    }

    method ToggleFavorite(id: int)
      modifies this`favorites
      ensures favorites == ToggledFavorites(old(favorites), id)
      ensures IsFavorite(id) <==> !old(IsFavorite(id))
      ensures forall other :: other != id ==> (IsFavorite(other) <==> old(IsFavorite(other)))
    {
      favorites := ToggledFavorites(favorites, id);
    }

    /** The heart is filled exactly for favourite products. */
    predicate IsFavorite(id: int)
      reads this
      ensures IsFavorite(id) <==> exists i :: 0 <= i < |favorites| && favorites[i] == id
    {
      id in favorites
    }

    method OpenDeleteModal(id: int)
      modifies this`selectedProductId, this`deleteReason, this`modalVisible
      ensures selectedProductId == Some(id) && deleteReason == "" && modalVisible
    {
      selectedProductId := Some(id);
      deleteReason := "";
      modalVisible := true;
    }

    method EditReason(text: string)
      modifies this`deleteReason
      ensures deleteReason == text
    {
      deleteReason := text;
    }

    method CancelDelete()
      modifies this`modalVisible, this`deleteReason
      ensures !modalVisible && deleteReason == ""
    {
      modalVisible := false;
      deleteReason := "";
    }

    /**
     * `confirmDelete`: a reason that is blank once trimmed sends nothing; otherwise
     * the request carries the selected product and the reason as typed (untrimmed).
     */
    method ConfirmDelete() returns (request: Option<DeleteRequest>)
      ensures request.None? <==> AllWhitespace(deleteReason)
      ensures request.Some? ==> request.value == DeleteRequest(selectedProductId, deleteReason)
    {
      if IsBlank(deleteReason) {
        request := None;
      } else {
        request := Some(DeleteRequest(selectedProductId, deleteReason));
      }
    }

    /** The delete request settled: on success the feed is fetched again and the dialog closes; otherwise it stays. */
    method DeleteSettled(reply: DeleteReply) returns (refetch: bool)
      modifies this`modalVisible
      ensures refetch <==> reply.Deleted?
      ensures modalVisible == (old(modalVisible) && !reply.Deleted?)
    {
      refetch := reply.Deleted?;
      if reply.Deleted? {
        modalVisible := false;
      }
    }
  }
}
