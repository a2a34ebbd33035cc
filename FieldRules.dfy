/**
 * The two validating input rules of the form: the price box, which ignores
 * input it cannot take as a non-negative integer, and the photo picker, which
 * takes only JPEG and PNG images.
 */
module FieldRules {
  import opened Wrappers
  import opened NumberParsing

  /** The price slot's invariant: unset, or a non-negative integer. */
  predicate ValidPrice(price: Option<int>) {
    price.None? || price.value >= 0
  }

  /** The price after the box's `onChange` receives `input`, given the price before. */
  function NextPrice(price: Option<int>, input: string): (r: Option<int>)
    ensures ValidPrice(price) ==> ValidPrice(r)
  {
    if input == "" then None
    else
      match ParseInt(input)
      case Some(n) => if n >= 0 then Some(n) else price
      case None => price
  }

  /** What the price box shows: `price ?? ""`. */
  function PriceText(price: Option<int>): string {
    match price
    case None => ""
    case Some(n) => ShowInt(n)
  }

  /**
   * The three outcomes of a keystroke: empty input clears the price, input read
   * as a non-negative integer sets it, anything else leaves it as it was.
   */
  lemma NextPriceOutcomes(price: Option<int>, input: string)
    ensures input == "" ==> NextPrice(price, input) == None
    ensures input != "" && ParseInt(input).Some? && ParseInt(input).value >= 0 ==>
      NextPrice(price, input) == ParseInt(input)
    ensures input != "" && (ParseInt(input).None? || ParseInt(input).value < 0) ==>
      NextPrice(price, input) == price
  {
  }

  /** The new price is either unset, the previous price, or the number the input reads as. */
  lemma NextPriceSources(price: Option<int>, input: string)
    ensures var r := NextPrice(price, input); r == None || r == price || r == ParseInt(input)
  {
  }

  /** Receiving the same input twice is the same as receiving it once. */
  lemma NextPriceIdempotent(price: Option<int>, input: string)
    ensures NextPrice(NextPrice(price, input), input) == NextPrice(price, input)
  {
  }

  /**
   * The box is a faithful controlled input: feeding back the text it shows for
   * a valid price yields that same price, whatever the price was before.
   */
  lemma PriceTextRoundTrip(before: Option<int>, shown: Option<int>)
    requires ValidPrice(shown)
    ensures NextPrice(before, PriceText(shown)) == shown
  {
    if shown.Some? {
      ParseShowInt(shown.value);
    }
  }

  /** A chosen file: its name and the MIME type the browser reports for it. */
  datatype File = File(name: string, mimeType: string)

  /** `e.target.files?.[0]`: the first chosen file, if any. */
  function FirstFile(files: seq<File>): (f: Option<File>)
    ensures f.Some? <==> files != []
    ensures f.Some? ==> f.value == files[0]
  {
    if files == [] then None else Some(files[0])
  }

  /** The MIME types the photo picker takes. */
  predicate IsAcceptedImageType(mimeType: string) {
    mimeType == "image/jpeg" || mimeType == "image/png"
  }

  /** The picker keeps the chosen file: one is present and it is a JPEG or a PNG. */
  predicate AcceptsPhoto(file: Option<File>) {
    file.Some? && IsAcceptedImageType(file.value.mimeType)
  }

  /** Choosing nothing, or a file of any other type (plain text, GIF, WebP, `image/jpg`), is refused. */
  lemma RefusedPhotos(files: seq<File>)
    ensures files == [] ==> !AcceptsPhoto(FirstFile(files))
    ensures files != [] ==>
      (AcceptsPhoto(FirstFile(files)) <==> files[0].mimeType in {"image/jpeg", "image/png"})
    ensures !IsAcceptedImageType("text/plain") && !IsAcceptedImageType("image/gif")
    ensures !IsAcceptedImageType("image/webp") && !IsAcceptedImageType("image/jpg")
  {
  }
}
