/**
 * The create-listing modal: its seven pieces of form state, the file picker's
 * size limit, the URL field that displaces an uploaded image, and the submit
 * handler's validation, image choice and reset.
 */
module CreateListing {
  import opened Wrappers

  /** The five options of the category select. */
  datatype Category = School | Apparel | Living | Services | Tickets

  /** The value an option submits. */
  function CategoryName(c: Category): (name: string)
    ensures name in ["school", "apparel", "living", "services", "tickets"]
  {
    match c
    case School => "school"
    case Apparel => "apparel"
    case Living => "living"
    case Services => "services"
    case Tickets => "tickets"
  }

  /** Different options submit different values. */
  lemma CategoryNameInjective(a: Category, b: Category)
    requires CategoryName(a) == CategoryName(b)
    ensures a == b
  {
    assert CategoryName(a)[0] == CategoryName(b)[0];
    if a.Services? || a.School? {
      assert CategoryName(a)[1] == CategoryName(b)[1];
    }
  }

  /** A picked file: its size in bytes and the data URL `FileReader` produces for it. */
  datatype ImageFile = ImageFile(size: nat, dataUrl: string)

  /** The object handed to `onCreateListing`. */
  datatype NewListing = NewListing(title: string, price: real, category: string, description: string, image: string)

  /** What a submit does: an alert and nothing else, or one listing created and the modal closed. */
  datatype SubmitOutcome = Alert(message: string) | Created(listing: NewListing)

  /** The upload limit: 5 MB. */
  const MaxImageBytes: nat := 5 * 1024 * 1024

  const DefaultImage: string := "https://images.unsplash.com/photo-1505740420928-5e560c06d30e?w=400"

  const MissingFields: string := "Please fill in title and price"
  const InvalidPrice: string := "Please enter a valid price"
  const ImageTooLarge: string := "Image size should be less than 5MB"

  /**
   * `imagePreview || imageUrl || default`: the uploaded image wins over the
   * URL, and the URL over the fixed default; the result is never empty.
   */
  function ChooseImage(preview: string, url: string): (image: string)
    ensures image != ""
    ensures preview != "" ==> image == preview
    ensures preview == "" && url != "" ==> image == url
    ensures preview == "" && url == "" ==> image == DefaultImage
  {
    if preview != "" then preview else if url != "" then url else DefaultImage
  }

  /**
   * The two guards of `handleSubmit`. `parseFloat` is a parameter: it gives
   * None for NaN and the parsed number otherwise. The price is accepted
   * exactly when both fields are filled in and it parses to a positive number.
   */
  function ValidateListing(title: string, price: string, parseFloat: string -> Option<real>): (r: Result<real, string>)
    ensures r.Failure? ==> r.error in {MissingFields, InvalidPrice}
    ensures r.Failure? && r.error == MissingFields <==> title == "" || price == ""
    ensures r.Success? <==> title != "" && price != "" && parseFloat(price).Some? && parseFloat(price).value > 0.0
    ensures r.Success? ==> r.value == parseFloat(price).value
  {
    if title == "" || price == "" then Failure(MissingFields)
    else
      var parsed := parseFloat(price);
      if parsed.None? || parsed.value <= 0.0 then Failure(InvalidPrice)
      else Success(parsed.value)
  }

  /** The modal's form state. */
  class ListingForm {
    var title: string
    var price: string
    var category: Category
    var description: string
    var imageUrl: string
    var imageFile: Option<ImageFile>
    var imagePreview: string

    /** At most one image source is filled in: an uploaded preview or a URL. */
    ghost predicate Valid()
      reads this
    {
      imagePreview == "" || imageUrl == ""
    }

    /** The cleared form: empty texts, no file and the `school` category. */
    ghost predicate Cleared()
      reads this
    {
      && title == "" && price == "" && category == School && description == ""
      && imageUrl == "" && imageFile == None && imagePreview == ""
    }

    constructor ()
      ensures Valid() && Cleared()
    {
      title := "";
      price := "";
      category := School;
      description := "";
      imageUrl := "";
      imageFile := None;
      imagePreview := "";
    }

    /** Typing into the text fields or picking a category; the image fields are untouched. */
    method SetFields(title: string, price: string, category: Category, description: string)
      requires Valid()
      modifies this
      ensures Valid()
      ensures this.title == title && this.price == price && this.category == category && this.description == description
      ensures imageUrl == old(imageUrl) && imageFile == old(imageFile) && imagePreview == old(imagePreview)
    {
      this.title := title;
      this.price := price;
      this.category := category;
      this.description := description;
    }

    /**
     * `handleImageChange`, with the reader's load folded in: no file changes
     * nothing; a file over 5 MB is refused with an alert and changes nothing;
     * any other file becomes the upload, its data URL the preview, and the
     * URL field is cleared.
     */
    method HandleImageChange(file: Option<ImageFile>) returns (alert: Option<string>)
      requires Valid()
      modifies this
      ensures Valid()
      ensures alert.Some? <==> file.Some? && file.value.size > MaxImageBytes
      ensures alert.Some? ==> alert.value == ImageTooLarge
      ensures file.None? || alert.Some? ==>
        imageFile == old(imageFile) && imagePreview == old(imagePreview) && imageUrl == old(imageUrl)
      ensures file.Some? && alert.None? ==>
        imageFile == file && imagePreview == file.value.dataUrl && imageUrl == ""
      ensures title == old(title) && price == old(price) && category == old(category) && description == old(description)
    {
      alert := None;
      if file.Some? {
        if file.value.size > MaxImageBytes {
          return Some(ImageTooLarge);
        }
        imageFile := file;
        imagePreview := file.value.dataUrl;
        imageUrl := "";
      }
    }

    /** Editing the URL field: the upload and its preview are dropped. */
    method HandleUrlChange(url: string)
      requires Valid()
      modifies this
      ensures Valid()
      ensures imageUrl == url && imageFile == None && imagePreview == ""
      ensures title == old(title) && price == old(price) && category == old(category) && description == old(description)
    {
      imageUrl := url;
      imageFile := None;
      imagePreview := "";
    }

    /**
     * `handleSubmit`: a form that fails validation raises the alert and keeps
     * every field; a valid one creates exactly one listing from the fields,
     * with the image chosen by precedence, then clears the form.
     */
    method HandleSubmit(parseFloat: string -> Option<real>) returns (outcome: SubmitOutcome)
      requires Valid()
      modifies this
      ensures Valid()
      ensures var v := ValidateListing(old(title), old(price), parseFloat);
        && (v.Failure? ==> outcome == Alert(v.error))
        && (v.Success? ==> outcome == Created(NewListing(old(title), v.value, CategoryName(old(category)),
                                                            old(description), ChooseImage(old(imagePreview), old(imageUrl)))))
      ensures outcome.Alert? ==> unchanged(this)
      ensures outcome.Created? ==> Cleared()
    {
      var v := ValidateListing(title, price, parseFloat);
      if v.Failure? {
        return Alert(v.error);
      }
      outcome := Created(NewListing(title, v.value, CategoryName(category), description, ChooseImage(imagePreview, imageUrl)));
      title := "";
      price := "";
      category := School;
      description := "";
      imageUrl := "";
      imageFile := None;
      imagePreview := "";
    }
  }

  /** A created listing always carries a positive price and a non-empty title and image. */
  lemma CreatedListingWellFormed(title: string, price: string, category: Category, description: string,
                                 preview: string, url: string, parseFloat: string -> Option<real>)
    requires ValidateListing(title, price, parseFloat).Success?
    ensures var l := NewListing(title, ValidateListing(title, price, parseFloat).value, CategoryName(category),
                                description, ChooseImage(preview, url));
      l.price > 0.0 && l.title != "" && l.image != ""
  {
  }
}
