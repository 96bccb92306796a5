/** Lessons: the records `GET /lessons` lists and `PUT /lessons/:id` updates.

    Two pieces of logic live here: the image-path rewrite applied to every
    lesson `GET /lessons` returns, and the check that `PUT /lessons/:id`
    makes on the `spaces` field of an update before it is stored.
 */
module Lessons {
  import opened Results
  import opened JsText
  import opened Api

  /** A lesson document. Its id is opaque; price, spaces and image may be
      missing from a stored document. */
  datatype Lesson = Lesson(
    id: string,
    subject: string,
    location: string,
    price: Option<int>,
    spaces: Option<int>,
    image: Option<string>
  )

  /** The public host the server is deployed on. */
  const ServerHost: string := "after-school-classes-booking-system.onrender.com"

  /** The public address the server's own images are served under. */
  const ImageBaseUrl: string := "https://" + ServerHost

  /** Image paths relative to the server start with this. */
  const ImagesPrefix: string := "/images/"

  /** An image that is present, non-empty (truthy) and a server-relative
      image path. */
  predicate IsRelativeImage(image: Option<string>) {
    image.Some? && |image.value| > 0 && StartsWith(image.value, ImagesPrefix)
  }

  /** The image a listed lesson is returned with: a server-relative image
      path is made absolute under the base address; any other value,
      including a missing one, is left as it is. */
  function RewriteImage(image: Option<string>): (r: Option<string>)
    ensures r.Some? <==> image.Some?
    ensures r.Some? ==> EndsWith(r.value, image.value)
    ensures r != image ==> StartsWith(image.value, ImagesPrefix) && r.value == ImageBaseUrl + image.value
  {
    if IsRelativeImage(image) then Some(ImageBaseUrl + image.value) else image
  }

  /** Exactly the images that start with the images prefix are rewritten
      (the truthiness test adds nothing: the empty string has no prefix). */
  lemma RewriteChangesExactlyRelativeImages(image: Option<string>)
    ensures RewriteImage(image) != image <==> image.Some? && StartsWith(image.value, ImagesPrefix)
  {
    if image.Some? && StartsWith(image.value, ImagesPrefix) {
      assert |RewriteImage(image).value| > |image.value|;
    }
  }

  /** A rewritten image is absolute, so rewriting it again changes nothing. */
  lemma RewriteImageIdempotent(image: Option<string>)
    ensures RewriteImage(RewriteImage(image)) == RewriteImage(image)
  {
    var r := RewriteImage(image);
    if IsRelativeImage(image) {
      assert r.value == ImageBaseUrl + image.value;
      assert r.value[0] == 'h';
    }
  }

  /** `GET /lessons`: rewrite the image of every listed lesson in place.
      Each lesson keeps every other field; its image becomes the rewritten
      image; and the list that comes out is a fixed point of the rewrite. */
  method RewriteLessonImages(lessons: seq<Lesson>) returns (out: seq<Lesson>)
    ensures |out| == |lessons|
    ensures forall i :: 0 <= i < |out| ==> out[i].image == RewriteImage(lessons[i].image)
    ensures forall i :: 0 <= i < |out| ==> out[i].(image := lessons[i].image) == lessons[i]
    ensures forall i :: 0 <= i < |out| ==> RewriteImage(out[i].image) == out[i].image
  {
    out := [];
    var i := 0;
    while i < |lessons|
      invariant 0 <= i <= |lessons|
      invariant |out| == i
      invariant forall j :: 0 <= j < i ==> out[j].image == RewriteImage(lessons[j].image)
      invariant forall j :: 0 <= j < i ==> out[j].(image := lessons[j].image) == lessons[j]
      invariant forall j :: 0 <= j < i ==> RewriteImage(out[j].image) == out[j].image
    {
      var lesson := lessons[i];
      if IsRelativeImage(lesson.image) {
        lesson := lesson.(image := Some(ImageBaseUrl + lesson.image.value));
      }
      RewriteImageIdempotent(lessons[i].image);
      out := out + [lesson];
      i := i + 1;
    }
  }

  /** The JSON body of `PUT /lessons/:id`: the fields to set on the lesson. */
  type UpdateBody = map<string, JsonValue>

  /** The one field of an update the server inspects. */
  const SpacesField: string := "spaces"

  /** The spaces check of `PUT /lessons/:id`. An update without `spaces`
      passes through untouched. Otherwise `parseInt` of the value must be a
      number that is not negative, and that integer replaces the raw value;
      every other field passes through as sent. */
  function CheckSpacesUpdate(body: UpdateBody): (r: Result<UpdateBody, ApiError>)
    ensures SpacesField !in body ==> r == Ok(body)
    ensures r.Err? ==> r.error == InvalidSpaces
    ensures SpacesField in body ==>
              (r.Ok? <==> ParseIntValue(body[SpacesField]).Some? && ParseIntValue(body[SpacesField]).value >= 0)
    ensures r.Ok? ==> r.value.Keys == body.Keys
    ensures r.Ok? ==> forall k :: k in body && k != SpacesField ==> r.value[k] == body[k]
    ensures r.Ok? && SpacesField in body ==>
              && r.value[SpacesField].Num?
              && r.value[SpacesField].n >= 0
              && ParseIntValue(body[SpacesField]) == Some(r.value[SpacesField].n)
  {
    if SpacesField !in body then Ok(body)
    else
      match ParseIntValue(body[SpacesField])
      case None => Err(InvalidSpaces)
      case Some(spaces) =>
        if spaces < 0 then Err(InvalidSpaces)
        else Ok(body[SpacesField := Num(spaces)])
  }

  /** An update that passed the check passes it again unchanged: the stored
      `spaces` is a non-negative integer that `parseInt` reads back. */
  lemma CheckSpacesIdempotent(body: UpdateBody)
    requires CheckSpacesUpdate(body).Ok?
    ensures CheckSpacesUpdate(CheckSpacesUpdate(body).value) == CheckSpacesUpdate(body)
  {
    var b := CheckSpacesUpdate(body).value;
    if SpacesField in b {
      ParseIntRoundTrip(b[SpacesField].n);
      assert b[SpacesField := Num(b[SpacesField].n)] == b;
    }
  }

  /** A negative number of spaces is refused, whether sent as a JSON number
      or as its numeral. */
  lemma NegativeSpacesRejected(body: UpdateBody, n: int)
    requires n < 0
    requires SpacesField in body
    requires body[SpacesField] == Num(n) || body[SpacesField] == Str(IntToDecimal(n))
    ensures CheckSpacesUpdate(body) == Err(InvalidSpaces)
  {
    ParseIntRoundTrip(n);
  }

  /** A non-negative JSON number of spaces is accepted and the update is
      stored exactly as sent. */
  lemma NonNegativeSpacesAccepted(body: UpdateBody, n: int)
    requires n >= 0
    requires SpacesField in body && body[SpacesField] == Num(n)
    ensures CheckSpacesUpdate(body) == Ok(body)
  {
    ParseIntRoundTrip(n);
    assert body[SpacesField := Num(n)] == body;
  }

  /** `null`, `true` and `false` are not a number of spaces. */
  lemma NonNumericSpacesRejected(body: UpdateBody)
    requires SpacesField in body && (body[SpacesField].Null? || body[SpacesField].Bool?)
    ensures CheckSpacesUpdate(body) == Err(InvalidSpaces)
  {
    ParseIntOfNonNumbers(body[SpacesField]);
  }

  /** `parseInt` stops at the decimal point, so a fractional string of
      spaces is accepted and truncated: `"3.7"` is stored as 3. */
  lemma FractionalSpacesTruncated(body: UpdateBody, n: nat, fraction: string)
    requires SpacesField in body && body[SpacesField] == Str(NatToDecimal(n) + "." + fraction)
    ensures CheckSpacesUpdate(body) == Ok(body[SpacesField := Num(n)])
  {
    assert NatToDecimal(n) + "." + fraction == IntToDecimal(n) + ("." + fraction);
    ParseIntOfNumeral(n, "." + fraction);
  }
}
