/**
 * Classification of what the clipboard holds, as the watcher (`handle_clipboard_update`) and the
 * one-shot read (`get_clipboard_content`) do it, and the write rule of `set_clipboard_content`.
 * The clipboard library is not modelled: an Observation records what each of its calls answers.
 */
module Classifier {
  import opened Wrappers
  import opened Decimal
  import opened Items

  const ImagePlaceholder := "[图片内容]"
  const ImageSaveFailedPlaceholder := "[图片内容-保存失败]"
  const ImageReadFailedPlaceholder := "[图片内容-读取失败]"
  const RichTextPlaceholder := "[富文本内容]"
  const HtmlPlaceholder := "[HTML内容]"
  const ReadFailedPlaceholder := "[读取失败]"

  /**
   * The answers of the clipboard library during one classification: the three `has` checks, the
   * outcome of each `get_*` call (error messages as strings), whether the image was saved to disk,
   * and the clock reading taken for the image file name.
   */
  datatype Observation = Observation(
    hasImage: bool,
    hasRtf: bool,
    hasHtml: bool,
    image: Result<(), string>,
    imageSave: Result<(), string>,
    rtf: Result<string, string>,
    html: Result<string, string>,
    text: Result<string, string>,
    imageTimestamp: nat)

  /** The locals the classification chain assigns: text, content type, html, rtf, image path. */
  datatype Capture = Capture(
    text: string,
    kind: ContentType,
    html: Option<string>,
    rtf: Option<string>,
    imagePath: Option<string>)

  /** The item `create_item` builds from a capture, with the given id and clock reading. */
  function ToItem(c: Capture, id: nat, timestamp: nat): (item: ClipboardItem)
    ensures item.id == id && item.timestamp == timestamp
    ensures item.content == c.text && item.contentType == c.kind
    ensures item.htmlContent == c.html && item.rtfContent == c.rtf && item.imagePath == c.imagePath
  {
    ClipboardItem(id, c.text, c.kind, c.html, c.rtf, c.imagePath, timestamp)
  }

  /** The file name an image captured at `timestamp` is saved under, relative to the image folder. */
  function ImageFileName(timestamp: nat): (name: string)
    ensures |name| > 20 && name[..16] == "clipboard_image_" && name[|name| - 4..] == ".png"
    ensures name[16..|name| - 4] == NatToString(timestamp)
    ensures forall i :: 16 <= i < |name| - 4 ==> IsDigit(name[i])
    ensures StringToNat(name[16..|name| - 4]) == timestamp
  {
    var name := "clipboard_image_" + NatToString(timestamp) + ".png";
    assert name[16..|name| - 4] == NatToString(timestamp);
    StringToNatOfNatToString(timestamp);
    name
  }

  /** Images captured in different seconds get different file names. */
  lemma ImageFileNameInjective(a: nat, b: nat)
    requires ImageFileName(a) == ImageFileName(b)
    ensures a == b
  {
    NatToStringInjective(a, b);
  }

  /** The watcher's classification: image, then rich text, then HTML, then plain text. */
  function Classify(obs: Observation): (c: Capture)
    // precedence: the first format present decides the type
    ensures c.kind == Image <==> obs.hasImage
    ensures c.kind == RichText <==> !obs.hasImage && obs.hasRtf
    ensures c.kind == Html <==> !obs.hasImage && !obs.hasRtf && obs.hasHtml
    ensures c.kind == Text <==> !obs.hasImage && !obs.hasRtf && !obs.hasHtml && obs.text.Success?
    ensures c.kind != File
    // an image path only for a saved image, named after the clock reading
    ensures c.imagePath.Some? <==> c.kind == Image && obs.image.Success? && obs.imageSave.Success?
    ensures c.imagePath.Some? ==> c.imagePath.value == ImageFileName(obs.imageTimestamp)
    ensures c.kind == Image && obs.image.Failure? ==> c.text == ImageReadFailedPlaceholder
    ensures c.kind == Image && obs.image.Success? && obs.imageSave.Failure? ==> c.text == ImageSaveFailedPlaceholder
    ensures c.imagePath.Some? ==> c.text == ImagePlaceholder
    // rich text and HTML are kept only for their own type; at most one optional is present
    ensures c.rtf.Some? <==> c.kind == RichText && obs.rtf.Success?
    ensures c.rtf.Some? ==> c.rtf.value == obs.rtf.value
    ensures c.html.Some? <==> c.kind == Html && obs.html.Success?
    ensures c.html.Some? ==> c.html.value == obs.html.value
    ensures |Present(c.html)| + |Present(c.rtf)| + |Present(c.imagePath)| <= 1
    // display text: the text verbatim where it was read, a placeholder where it was not
    ensures c.kind in {Text, RichText, Html} && obs.text.Success? ==> c.text == obs.text.value
    ensures c.kind == RichText && obs.text.Failure? ==> c.text == RichTextPlaceholder
    ensures c.kind == Html && obs.text.Failure? ==> c.text == HtmlPlaceholder
    ensures c.kind == Unknown ==> c.text == ReadFailedPlaceholder
    // an empty display text comes only from an empty text read, never from a placeholder
    ensures c.text == [] ==> c.kind in {Text, RichText, Html} && obs.text == Success([])
  {
    if obs.hasImage then
      match obs.image
      case Success(_) =>
        (match obs.imageSave
         case Success(_) => Capture(ImagePlaceholder, Image, None, None, Some(ImageFileName(obs.imageTimestamp)))
         case Failure(_) => Capture(ImageSaveFailedPlaceholder, Image, None, None, None))
      case Failure(_) => Capture(ImageReadFailedPlaceholder, Image, None, None, None)
    else if obs.hasRtf then
      Capture(obs.text.GetOr(RichTextPlaceholder), RichText, None, obs.rtf.ToOption(), None)
    else if obs.hasHtml then
      Capture(obs.text.GetOr(HtmlPlaceholder), Html, obs.html.ToOption(), None, None)
    else
      match obs.text
      case Success(t) => Capture(t, Text, None, None, None)
      case Failure(_) => Capture(ReadFailedPlaceholder, Unknown, None, None, None)
  }

  /**
   * Two image captures get the same fingerprint exactly when both were saved in the same second, or
   * neither was saved and both failed at the same step. A second image saved in the same second as
   * the previous one is therefore taken for a duplicate, while re-copying the same image a second
   * later is inserted again.
   */
  lemma ImageFingerprintsEqualIff(o1: Observation, o2: Observation, id1: nat, id2: nat, t1: nat, t2: nat)
    requires o1.hasImage && o2.hasImage
    ensures var saved1, saved2 := o1.image.Success? && o1.imageSave.Success?, o2.image.Success? && o2.imageSave.Success?;
            CalculateHash(ToItem(Classify(o1), id1, t1)) == CalculateHash(ToItem(Classify(o2), id2, t2)) <==>
              && saved1 == saved2
              && (saved1 ==> o1.imageTimestamp == o2.imageTimestamp)
              && (!saved1 ==> o1.image.Success? == o2.image.Success?)
  {
    var a, b := ToItem(Classify(o1), id1, t1), ToItem(Classify(o2), id2, t2);
    FingerprintEqualIff(a, b);
    if a.imagePath.Some? && b.imagePath.Some? && a.imagePath == b.imagePath {
      ImageFileNameInjective(o1.imageTimestamp, o2.imageTimestamp);
    }
  }

  /**
   * The classification chain of `get_clipboard_content`: the image is neither read nor saved, and a
   * failed plain-text read is an error instead of an Unknown entry.
   */
  function ClassifyOnce(obs: Observation): Result<Capture, string> {
    if obs.hasImage then
      Success(Capture(ImagePlaceholder, Image, None, None, None))
    else if obs.hasRtf then
      Success(Capture(obs.text.GetOr(RichTextPlaceholder), RichText, None, obs.rtf.ToOption(), None))
    else if obs.hasHtml then
      Success(Capture(obs.text.GetOr(HtmlPlaceholder), Html, obs.html.ToOption(), None, None))
    else
      match obs.text
      case Success(t) => Success(Capture(t, Text, None, None, None))
      case Failure(e) => Failure("获取剪贴板文本失败: " + e)
  }

  /**
   * `get_clipboard_content`: `init` is the outcome of opening the clipboard, `now` the clock reading.
   * It agrees with the watcher's classification except on images and on a failed text read.
   */
  function GetClipboardContent(init: Result<(), string>, obs: Observation, now: nat): (r: Result<ClipboardItem, string>)
    ensures init.Failure? ==> r == Failure("初始化剪贴板失败: " + init.error)
    ensures init.Success? ==> (r.Failure? <==> Classify(obs).kind == Unknown)
    ensures init.Success? && r.Failure? ==> obs.text.Failure? && r.error == "获取剪贴板文本失败: " + obs.text.error
    ensures r.Success? ==> r.value.id == 0 && r.value.timestamp == now && r.value.imagePath.None?
    ensures r.Success? ==> r.value.contentType == Classify(obs).kind
    ensures r.Success? ==> r.value.htmlContent == Classify(obs).html && r.value.rtfContent == Classify(obs).rtf
    ensures r.Success? && r.value.contentType != Image ==> r.value.content == Classify(obs).text
    ensures r.Success? && r.value.contentType == Image ==> r.value.content == ImagePlaceholder
  {
    match init
    case Failure(e) => Failure("初始化剪贴板失败: " + e)
    case Success(_) =>
      match ClassifyOnce(obs)
      case Failure(e) => Failure(e)
      case Success(c) => Success(ToItem(c, 0, now))
  }

  /** A call `set_clipboard_content` makes on the clipboard. */
  datatype WriteCall = SetText(text: string) | SetHtml(html: string) | SetRichText(rtf: string)

  /** The answers of the clipboard library to `set_clipboard_content`'s calls. */
  datatype WriteOutcomes = WriteOutcomes(
    init: Result<(), string>,
    setText: Result<(), string>,
    setHtml: Result<(), string>,
    setRichText: Result<(), string>)

  /**
   * `set_clipboard_content`: the overall result and the calls made, in order. Only opening the
   * clipboard and writing the text can fail the command; HTML and rich text are written when given,
   * after the text, and their failures are ignored.
   */
  function SetClipboardContent(w: WriteOutcomes, content: string, html: Option<string>, rtf: Option<string>)
    : (r: (Result<(), string>, seq<WriteCall>))
    ensures r.0.Success? <==> w.init.Success? && w.setText.Success?
    ensures w.init.Failure? ==> r.0 == Failure("初始化剪贴板失败: " + w.init.error) && r.1 == []
    ensures w.init.Success? && w.setText.Failure? ==> r.0 == Failure("设置剪贴板文本失败: " + w.setText.error)
    ensures w.init.Success? && w.setText.Failure? ==> r.1 == [SetText(content)]
    ensures w.init.Success? ==> |r.1| >= 1 && r.1[0] == SetText(content)
    ensures forall h :: SetHtml(h) in r.1 <==> r.0.Success? && html == Some(h)
    ensures forall t :: SetRichText(t) in r.1 <==> r.0.Success? && rtf == Some(t)
    ensures r.0.Success? ==> |r.1| == 1 + |Present(html)| + |Present(rtf)|
    ensures r.0.Success? && html.Some? ==> r.1[1] == SetHtml(html.value)
  {
    match w.init
    case Failure(e) => (Failure("初始化剪贴板失败: " + e), [])
    case Success(_) =>
      match w.setText
      case Failure(e) => (Failure("设置剪贴板文本失败: " + e), [SetText(content)])
      case Success(_) =>
        var htmlCalls := if html.Some? then [SetHtml(html.value)] else [];
        var rtfCalls := if rtf.Some? then [SetRichText(rtf.value)] else [];
        (Success(()), [SetText(content)] + htmlCalls + rtfCalls)
  }
}
