/**
 * The "add product" form: up to ten pictures picked from the library, removable
 * one by one, a completeness check before submitting, and the multipart body the
 * submission sends (seven text fields, then one file per picture).
 */
module AddProduct {
  import opened Wrappers
  import opened Text
  import opened Lists
  import opened FormData

  /** A picture picked from the library, by its local URI. */
  datatype Asset = Asset(uri: string)

  /** What the image library returned: the user cancelled, or picked some assets. */
  datatype PickResult = Canceled | Picked(assets: seq<Asset>)

  /** The most pictures a product can have. */
  const MaxImages: nat := 10

  /** Every product added from this form is in this category. */
  const Category: string := "clothing"

  /** The MIME type every picture is uploaded with. */
  const PhotoType: string := "image/jpeg"

  /** `[...prev, ...result.assets].slice(0, 10)` when not cancelled. */
  function AfterPick(prev: seq<Asset>, pick: PickResult): (r: seq<Asset>)
    ensures pick.Canceled? ==> r == prev
    ensures pick.Picked? ==> |r| <= MaxImages
    ensures pick.Picked? ==> r == Take(prev + pick.assets, MaxImages)
  {
    if pick.Canceled? then prev else Take(prev + pick.assets, MaxImages)
  }

  /** Picking never disturbs the pictures already there, as far as the cap lets them stay. */
  lemma PickKeepsPrefix(prev: seq<Asset>, pick: PickResult)
    ensures var r := AfterPick(prev, pick);
            forall i :: 0 <= i < |prev| && i < MaxImages ==> i < |r| && r[i] == prev[i]
  {
  }

  /** Below the cap, picking keeps the old pictures and adds as many new ones, in order, as fit. */
  lemma PickAppendsWhatFits(prev: seq<Asset>, assets: seq<Asset>)
    requires |prev| <= MaxImages
    ensures var r := AfterPick(prev, Picked(assets));
            |r| == if |prev| + |assets| <= MaxImages then |prev| + |assets| else MaxImages
    ensures var r := AfterPick(prev, Picked(assets));
            forall j :: 0 <= j < |assets| && |prev| + j < MaxImages ==> r[|prev| + j] == assets[j]
  {
  }

  /**
   * `!title.trim() || !description.trim() || !price.trim() || images.length === 0`:
   * a required field is all whitespace, or there is no picture.
   */
  predicate Incomplete(title: string, description: string, price: string, images: seq<Asset>)
    ensures Incomplete(title, description, price, images) <==>
            AllWhitespace(title) || AllWhitespace(description) || AllWhitespace(price) || |images| == 0
  {
    IsBlank(title) || IsBlank(description) || IsBlank(price) || images == []
  }

  /** `photo${index}.jpg`: the digits between "photo" and ".jpg" read back as the index. */
  function PhotoName(index: nat): (r: string)
    ensures |r| >= 10
    ensures r[..5] == "photo" && r[|r| - 4..] == ".jpg"
    ensures AllDigits(r[5..|r| - 4]) && DigitsValue(r[5..|r| - 4]) == index
    ensures r[5] == '0' ==> r == "photo0.jpg"
  {
    "photo" + Decimal(index) + ".jpg"
  }

  /** Different pictures get different upload names. */
  lemma PhotoNamesDistinct(i: nat, j: nat)
    requires i != j
    ensures PhotoName(i) != PhotoName(j)
  {
  }

  /** The text fields of the body, in the order they are appended. */
  function Header(title: string, description: string, price: string,
                  location: string, gender: string, size: string): (r: seq<FormEntry>)
    ensures |r| == 7
    ensures r[0] == FormEntry("title", Field(title)) && r[1] == FormEntry("description", Field(description))
    ensures r[2] == FormEntry("price", Field(price)) && r[3] == FormEntry("location", Field(location))
    ensures r[4] == FormEntry("gender", Field(gender)) && r[5] == FormEntry("size", Field(size))
    ensures r[6] == FormEntry("category", Field(Category))
  {
    [FormEntry("title", Field(title)), FormEntry("description", Field(description)),
     FormEntry("price", Field(price)), FormEntry("location", Field(location)),
     FormEntry("gender", Field(gender)), FormEntry("size", Field(size)),
     FormEntry("category", Field(Category))]
  }

  /** The file entry for the picture at `index`. */
  function ImageEntry(img: Asset, index: nat): (r: FormEntry)
    ensures r.key == "images" && r.value.File?
    ensures r.value.uri == img.uri && r.value.name == PhotoName(index) && r.value.mimeType == PhotoType
  {
    FormEntry("images", File(img.uri, PhotoName(index), PhotoType))
  }

  /** The whole body: the header, then one file entry per picture, numbered from 0. */
  function FormFor(title: string, description: string, price: string, location: string,
                   gender: string, size: string, images: seq<Asset>): (r: seq<FormEntry>)
    ensures |r| == 7 + |images|
    ensures r[..7] == Header(title, description, price, location, gender, size)
    ensures forall n :: 0 <= n < |images| ==> r[7 + n] == ImageEntry(images[n], n)
  {
    Header(title, description, price, location, gender, size)
      + seq(|images|, n requires 0 <= n < |images| => ImageEntry(images[n], n))
  }

  /** Every picture in the body is a JPEG of its own picture's URI, and no two share a name. */
  lemma FormFilesAreDistinctJpegs(title: string, description: string, price: string, location: string,
                                  gender: string, size: string, images: seq<Asset>)
    ensures var f := FormFor(title, description, price, location, gender, size, images);
            forall n :: 0 <= n < |images| ==>
              f[7 + n].key == "images" && f[7 + n].value.File? && f[7 + n].value.uri == images[n].uri
              && f[7 + n].value.mimeType == PhotoType
    ensures var files := FormFor(title, description, price, location, gender, size, images)[7..];
            forall n, m :: 0 <= n < m < |files| ==> files[n].value.name != files[m].value.name
  {
    var files := FormFor(title, description, price, location, gender, size, images)[7..];
    forall n, m | 0 <= n < m < |files| ensures files[n].value.name != files[m].value.name {
      PhotoNamesDistinct(n, m);
    }
  }

  /** A body with the header first and picture n's entry at 7 + n, and nothing else, is `FormFor`. */
  lemma IsFormFor(form: seq<FormEntry>, title: string, description: string, price: string, location: string,
                  gender: string, size: string, images: seq<Asset>)
    requires |form| == 7 + |images|
    requires form[..7] == Header(title, description, price, location, gender, size)
    requires forall n :: 0 <= n < |images| ==> form[7 + n] == ImageEntry(images[n], n)
    ensures form == FormFor(title, description, price, location, gender, size, images)
  {
    var f := FormFor(title, description, price, location, gender, size, images);
    forall i | 0 <= i < |form| ensures form[i] == f[i] {
      if i < 7 {
        assert form[i] == form[..7][i] && f[i] == f[..7][i];
      } else {
        assert form[7 + (i - 7)] == f[7 + (i - 7)];
      }
    }
  }

  /** `new FormData()`, the seven appends, then `images.forEach` appending each picture. */
  method BuildForm(title: string, description: string, price: string, location: string,
                   gender: string, size: string, images: seq<Asset>) returns (form: seq<FormEntry>)
    ensures form == FormFor(title, description, price, location, gender, size, images)
  {
    ghost var header := Header(title, description, price, location, gender, size);
    form := Header(title, description, price, location, gender, size);
    var index := 0;
    while index < |images|
      invariant 0 <= index <= |images|
      invariant |form| == 7 + index
      invariant form[..7] == header
      invariant forall n :: 0 <= n < index ==> form[7 + n] == ImageEntry(images[n], n)
    {
      form := form + [ImageEntry(images[index], index)];
      index := index + 1;
    }
    IsFormFor(form, title, description, price, location, gender, size, images);
  }

  /** The form's fields, with their initial values. */
  class ProductForm {
    var title: string
    var description: string
    var price: string
    var location: string
    var gender: string
    var size: string
    var images: seq<Asset>
    var loading: bool

    /** The cap holds: the pictures only ever arrive through a pick, which caps them. */
    ghost predicate Valid()
      reads this
    {
      |images| <= MaxImages
    }

    constructor ()
      ensures title == "" && description == "" && price == ""
      ensures location == "Москва" && gender == "male" && size == "M"
      ensures images == [] && !loading
      ensures Valid()
    {
      title := "";
      description := "";
      price := "";
      location := "Москва";
      gender := "male";
      size := "M";
      images := [];
      loading := false;
    }

    /** The image library returned. */
    method PickImages(pick: PickResult)
      requires Valid()
      modifies this`images
      ensures Valid()
      ensures images == AfterPick(old(images), pick)
    {
      images := AfterPick(images, pick);
    }

    /** The cross on the picture at `index` was pressed: a copy without it replaces the list. */
    method RemoveImage(index: nat)
      requires Valid()
      modifies this`images
      ensures Valid()
      ensures images == RemoveAt(old(images), index)
    {
      images := RemoveAt(images, index);
    }

    /**
     * `handleSubmit` up to the request: an incomplete form sends nothing and
     * changes nothing; otherwise the body is built and loading starts.
     */
    method Submit() returns (body: Option<seq<FormEntry>>)
      modifies this`loading
      ensures body.None? <==> Incomplete(title, description, price, images)
      ensures body.None? ==> loading == old(loading)
      ensures body.Some? ==> body.value == FormFor(title, description, price, location, gender, size, images) && loading
    {
      if Incomplete(title, description, price, images) {
        body := None;
        return;
      }
      var form := BuildForm(title, description, price, location, gender, size, images);
      body := Some(form);
      loading := true;
    }

    /** The request settled, whatever the outcome: loading ends and the fields stay as they were. */
    method SubmitSettled()
      modifies this`loading
      ensures !loading
    {
      loading := false;
    }
  }
}
