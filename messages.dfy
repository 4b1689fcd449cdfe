/** The `imageData` handling of the message endpoints of server/index.js:
    what `POST /api/messages` stores and what `GET /api/messages` turns the
    stored value back into. The database is left out: the stored document
    is read back as it was written. */
module Messages {
  import opened JsValues

  /** `...(imageData && { imageData: Array.isArray(imageData) ? imageData : [imageData] })`:
      a falsy value adds no property (`None`); any other value is stored as an array. */
  function StoredImageData(imageData: Option<Json>): (r: Option<seq<Json>>)
    ensures r.Some? <==> JsonTruthy(imageData)
    ensures r.Some? && imageData.value.Arr? ==> r.value == imageData.value.items
    ensures r.Some? && !imageData.value.Arr? ==> r.value == [imageData.value]
  {
    if !JsonTruthy(imageData) then None
    else match imageData.value
      case Arr(items) => Some(items)
      case _ => Some([imageData.value])
  }

  /** The stored property as a JSON value, `undefined` when omitted. */
  function StoredField(imageData: Option<Json>): (r: Option<Json>)
    ensures r.Some? ==> r.value.Arr?
  {
    match StoredImageData(imageData)
    case None => None
    case Some(items) => Some(Arr(items))
  }

  /** `m.imageData ? (Array.isArray(m.imageData) ? m.imageData : [m.imageData]) : []`. */
  function ReadImageArray(stored: Option<Json>): (r: seq<Json>)
    ensures !JsonTruthy(stored) ==> r == []
    ensures JsonTruthy(stored) && stored.value.Arr? ==> r == stored.value.items
    ensures JsonTruthy(stored) && !stored.value.Arr? ==> r == [stored.value]
  {
    if !JsonTruthy(stored) then []
    else match stored.value
      case Arr(items) => items
      case _ => [stored.value]
  }

  /** `{ data: img.data, mimeType: img.mimeType }`; `None` is `undefined`. */
  datatype Image = Image(data: Option<Json>, mimeType: Option<Json>)

  /** `img.prop`: an object's own property; any other non-null value has none. */
  function Property(img: Json, name: string): (r: Option<Json>)
    ensures r.Some? <==> img.Obj? && name in img.props
    ensures r.Some? ==> r.value == img.props[name]
  {
    if img.Obj? && name in img.props then Some(img.props[name]) else None
  }

  /** The `images` field of a message read back, or the TypeError a `null`
      element raises on `img.data`. */
  datatype ImagesOutcome = NoImages | Images(images: seq<Image>) | ReadThrew

  function ImagesOf(arr: seq<Json>): (r: Option<seq<Image>>)
    ensures r.None? <==> Prim(Null) in arr
    ensures r.Some? ==> |r.value| == |arr|
    ensures r.Some? ==> forall i :: 0 <= i < |arr| ==>
      r.value[i] == Image(Property(arr[i], "data"), Property(arr[i], "mimeType"))
  {
    if arr == [] then Some([])
    else if arr[0] == Prim(Null) then None
    else
      var rest := ImagesOf(arr[1..]);
      assert forall x :: x in arr <==> x == arr[0] || x in arr[1..];
      match rest
      case None => None
      case Some(images) => Some([Image(Property(arr[0], "data"), Property(arr[0], "mimeType"))] + images)
  }

  /** `images: arr.length ? arr.map(...) : undefined`. */
  function ReadImages(arr: seq<Json>): (r: ImagesOutcome)
    ensures r.NoImages? <==> arr == []
    ensures r.ReadThrew? <==> Prim(Null) in arr
    ensures r.Images? ==> |r.images| == |arr| && r.images == ImagesOf(arr).value
  {
    if arr == [] then NoImages
    else match ImagesOf(arr)
      case None => ReadThrew
      case Some(images) => Images(images)
  }

  /** What a message stored with `imageData` reads back as. */
  function ImagesOfStoredMessage(imageData: Option<Json>): ImagesOutcome
  {
    ReadImages(ReadImageArray(StoredField(imageData)))
  }

  /** Reading back a stored value gives the stored array, and an omitted
      value gives the empty array. */
  lemma ReadOfStored(imageData: Option<Json>)
    ensures ReadImageArray(StoredField(imageData)) == if JsonTruthy(imageData) then StoredImageData(imageData).value else []
  {
  }

  /** Normalising a stored array again changes nothing. */
  lemma StoredImageDataIdempotent(imageData: Option<Json>)
    requires JsonTruthy(imageData)
    ensures StoredImageData(StoredField(imageData)) == StoredImageData(imageData)
  {
  }

  /** A single image object sent without an array reads back as one image
      with its own `data` and `mimeType`. */
  lemma SingleImageReadsBack(props: map<string, Json>)
    ensures ImagesOfStoredMessage(Some(Obj(props)))
         == Images([Image(Property(Obj(props), "data"), Property(Obj(props), "mimeType"))])
  {
    var arr := ReadImageArray(StoredField(Some(Obj(props))));
    assert arr == [Obj(props)];
    assert ImagesOf(arr[1..]) == Some([]);
  }

  /** A message stored without image data, or with an empty array, reads
      back with `images` undefined; any other value gives at least one image
      entry or the error. */
  lemma ImagesUndefinedExactly(imageData: Option<Json>)
    ensures ImagesOfStoredMessage(imageData).NoImages?
        <==> !JsonTruthy(imageData) || imageData.value == Arr([])
  {
  }
}
