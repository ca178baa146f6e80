/**
 * The administrator's room form (internal/handler/admin/room_form_parser.go):
 * the text fields are trimmed and checked, the price and bed count parsed,
 * then the uploaded images are checked one by one.  Reading the form,
 * `strconv` and the content sniffing of an upload are inputs: the form is
 * a value, the two parsers are functions, and each upload carries the
 * content type sniffed from its first bytes (none when it cannot be read).
 */
module RoomFormParser {
  import opened Wrappers
  import opened Errors
  import opened Strings

  const MaxUploadImages: nat := 5
  /** Two MiB. */
  const MaxFileSize: int := 2 * 1024 * 1024

  /** The content types an image may have. */
  const AllowedImageTypes: map<string, bool> :=
    map["image/jpeg" := true, "image/png" := true, "image/webp" := true]

  /** An uploaded file: its size, and the sniffed content type when the file could be opened and read. */
  datatype Upload = Upload(size: int, sniffedType: Option<string>)

  /** The submitted form: each text field as posted, and the images when the multipart body could be read. */
  datatype RoomForm = RoomForm(
    name: string,
    roomType: string,
    pricePerNight: string,
    bedNum: string,
    viewType: string,
    description: string,
    hasAircon: string,
    isAvailable: string,
    images: Option<seq<Upload>>)

  /** `strconv.ParseFloat` and `strconv.Atoi`: `None` where they report an error. */
  datatype Parsers = Parsers(parseFloat: string -> Option<real>, atoi: string -> Option<int>)

  /** `RoomFormResult`. */
  datatype RoomFormResult = RoomFormResult(
    name: string,
    roomType: string,
    price: real,
    bedNum: int,
    viewType: string,
    description: string,
    hasAircon: bool,
    isAvailable: bool,
    files: seq<Upload>)

  /** `isAllowedImageType`: a file that cannot be read is refused. */
  predicate IsAllowedImageType(f: Upload)
  {
    f.sniffedType.Some? && f.sniffedType.value in AllowedImageTypes && AllowedImageTypes[f.sniffedType.value]
  }

  /** The check of one file: the size first, then the type. */
  function FileError(f: Upload): (r: Option<Error>)
    ensures r.None? <==> f.size <= MaxFileSize && IsAllowedImageType(f)
    ensures f.size > MaxFileSize ==> r == Some(ImageTooLarge)
  {
    if f.size > MaxFileSize then Some(ImageTooLarge)
    else if !IsAllowedImageType(f) then Some(InvalidImageType)
    else None
  }

  /** The files are checked in order and the first that fails decides the error. */
  function ImagesError(files: seq<Upload>): (r: Option<Error>)
    ensures r.None? <==> forall i :: 0 <= i < |files| ==> FileError(files[i]).None?
    ensures r.Some? ==>
      exists i :: 0 <= i < |files| && r == FileError(files[i]) && forall j :: 0 <= j < i ==> FileError(files[j]).None?
  {
    if files == [] then None
    else if FileError(files[0]).Some? then FileError(files[0])
    else
      var rest := ImagesError(files[1..]);
      if rest.Some? then
        var i :| 0 <= i < |files[1..]| && rest == FileError(files[1..][i])
          && forall j :: 0 <= j < i ==> FileError(files[1..][j]).None?;
        assert files[1..][i] == files[i + 1];
        assert forall j :: 1 <= j < i + 1 ==> files[j] == files[1..][j - 1];
        rest
      else
        assert forall j :: 1 <= j < |files| ==> files[j] == files[1..][j - 1];
        rest
  }

  /** A required text field is empty, after trimming where the handler trims. */
  predicate FieldsMissing(form: RoomForm)
  {
    || TrimSpace(form.name) == [] || TrimSpace(form.roomType) == []
    || form.pricePerNight == [] || form.bedNum == [] || TrimSpace(form.viewType) == []
  }

  predicate PriceValid(form: RoomForm, p: Parsers)
  {
    p.parseFloat(form.pricePerNight).Some? && p.parseFloat(form.pricePerNight).value >= 0.0
  }

  predicate BedNumValid(form: RoomForm, p: Parsers)
  {
    p.atoi(form.bedNum).Some? && p.atoi(form.bedNum).value >= 1
  }

  /**
   * `ParseRoomForm`.  The errors come in this order: a missing field, the
   * price, the bed count, an unreadable multipart body, more than five
   * images, then the first image that is too large or of another type.
   * On success the result carries the trimmed text, the parsed numbers,
   * the two check boxes ("on" means ticked) and the images.
   */
  method ParseRoomForm(form: RoomForm, p: Parsers) returns (r: Result<RoomFormResult, Error>)
    ensures FieldsMissing(form) ==> (r.Failure? && r.error == InvalidRequest)
    ensures !FieldsMissing(form) && !PriceValid(form, p) ==> (r.Failure? && r.error == InvalidPricePerNight)
    ensures !FieldsMissing(form) && PriceValid(form, p) && !BedNumValid(form, p) ==> (r.Failure? && r.error == InvalidBedNum)
    ensures (!FieldsMissing(form) && PriceValid(form, p) && BedNumValid(form, p)) ==>
      && (form.images.None? ==> (r.Failure? && r.error == InvalidRequest))
      && (form.images.Some? && |form.images.value| > MaxUploadImages ==> (r.Failure? && r.error == TooManyImages))
      && ((form.images.Some? && |form.images.value| <= MaxUploadImages && ImagesError(form.images.value).Some?)
          ==> (r.Failure? && r.error == ImagesError(form.images.value).value))
    ensures r.Success? <==>
      && !FieldsMissing(form) && PriceValid(form, p) && BedNumValid(form, p)
      && form.images.Some? && |form.images.value| <= MaxUploadImages && ImagesError(form.images.value).None?
    ensures r.Success? ==> r.value == RoomFormResult(
      TrimSpace(form.name), TrimSpace(form.roomType), p.parseFloat(form.pricePerNight).value,
      p.atoi(form.bedNum).value, TrimSpace(form.viewType), TrimSpace(form.description),
      form.hasAircon == "on", form.isAvailable == "on", form.images.value)
  {
    var name := TrimSpace(form.name);
    var roomType := TrimSpace(form.roomType);
    var viewType := TrimSpace(form.viewType);
    var description := TrimSpace(form.description);
    var hasAircon := form.hasAircon == "on";
    var isAvailable := form.isAvailable == "on";
    if name == "" || roomType == "" || form.pricePerNight == "" || form.bedNum == "" || viewType == "" {
      return Failure(InvalidRequest);
    }
    var price := p.parseFloat(form.pricePerNight);
    if price.None? || price.value < 0.0 {
      return Failure(InvalidPricePerNight);
    }
    var beds := p.atoi(form.bedNum);
    if beds.None? || beds.value < 1 {
      return Failure(InvalidBedNum);
    }
    if form.images.None? {
      return Failure(InvalidRequest);
    }
    var files := form.images.value;
    if |files| > MaxUploadImages {
      return Failure(TooManyImages);
    }
    var imageError := CheckImages(files);
    if imageError.Some? {
      return Failure(imageError.value);
    }
    return Success(RoomFormResult(name, roomType, price.value, beds.value, viewType, description,
                                  hasAircon, isAvailable, files));
  }

  /** The loop over the images: the first file that fails ends it with that file's error. */
  method CheckImages(files: seq<Upload>) returns (err: Option<Error>)
    ensures err == ImagesError(files)
  {
    for i := 0 to |files|
      invariant forall j :: 0 <= j < i ==> FileError(files[j]).None?
    {
      if files[i].size > MaxFileSize {
        FirstFailingFile(files, i);
        return Some(ImageTooLarge);
      }
      if !IsAllowedImageType(files[i]) {
        FirstFailingFile(files, i);
        return Some(InvalidImageType);
      }
    }
    return None;
  }

  /** When every file before `i` passes, the error of the files is the error of file `i`, if it has one. */
  lemma FirstFailingFile(files: seq<Upload>, i: nat)
    requires i < |files| && FileError(files[i]).Some?
    requires forall j :: 0 <= j < i ==> FileError(files[j]).None?
    ensures ImagesError(files) == FileError(files[i])
  {
    var r := ImagesError(files);
    var k :| 0 <= k < |files| && r == FileError(files[k]) && forall j :: 0 <= j < k ==> FileError(files[j]).None?;
    assert k == i;
  }

  /** A file of exactly two MiB is accepted; one byte more is too large, whatever its type. */
  lemma SizeLimitInclusive(t: Option<string>)
    ensures FileError(Upload(MaxFileSize, Some("image/png"))).None?
    ensures FileError(Upload(MaxFileSize + 1, t)) == Some(ImageTooLarge)
    ensures FileError(Upload(10, Some("image/gif"))) == Some(InvalidImageType)
    ensures FileError(Upload(10, None)) == Some(InvalidImageType)
  {
  }
}
