/** The history entry `ClipboardItem` and the fingerprint `calculate_hash` takes of it. */
module Items {
  import opened Wrappers

  /** `ClipboardContentType`; `File` is declared by the source but no path produces it. */
  datatype ContentType = Text | RichText | Html | Image | File | Unknown

  /** One captured clipboard state (`ClipboardItem`). */
  datatype ClipboardItem = ClipboardItem(
    id: nat,
    content: string,
    contentType: ContentType,
    htmlContent: Option<string>,
    rtfContent: Option<string>,
    imagePath: Option<string>,
    timestamp: nat)

  /**
   * What `calculate_hash` feeds its hasher, in order: the content, then each optional field that is
   * present. No tag says which optional a string came from, and id, type and timestamp are not fed.
   */
  type Fingerprint = seq<string>

  function Present(o: Option<string>): (s: seq<string>)
    ensures |s| <= 1
    ensures o.None? ==> s == []
    ensures o.Some? ==> s == [o.value]
  {
    match o
    case None => []
    case Some(v) => [v]
  }

  function CalculateHash(item: ClipboardItem): (f: Fingerprint)
    ensures |f| >= 1 && f[0] == item.content
    ensures |f| == |Present(item.htmlContent)| + |Present(item.rtfContent)| + |Present(item.imagePath)| + 1
  {
    [item.content] + Present(item.htmlContent) + Present(item.rtfContent) + Present(item.imagePath)
  }

  /** At most one of the three optional fields is present, as every captured item has it. */
  predicate AtMostOnePayload(item: ClipboardItem) {
    |Present(item.htmlContent)| + |Present(item.rtfContent)| + |Present(item.imagePath)| <= 1
  }

  /** The present optional field, whichever it is. */
  function Payload(item: ClipboardItem): (p: Option<string>)
    requires AtMostOnePayload(item)
    ensures p.None? <==> item.htmlContent.None? && item.rtfContent.None? && item.imagePath.None?
  {
    if item.htmlContent.Some? then item.htmlContent
    else if item.rtfContent.Some? then item.rtfContent
    else item.imagePath
  }

  /**
   * For items with at most one optional field, two fingerprints agree exactly when the contents agree
   * and the present optional strings agree, whichever field holds them.
   */
  lemma FingerprintEqualIff(a: ClipboardItem, b: ClipboardItem)
    requires AtMostOnePayload(a) && AtMostOnePayload(b)
    ensures CalculateHash(a) == CalculateHash(b) <==> a.content == b.content && Payload(a) == Payload(b)
  {
    var fa, fb := CalculateHash(a), CalculateHash(b);
    assert fa == [a.content] + (if Payload(a).Some? then [Payload(a).value] else []);
    assert fb == [b.content] + (if Payload(b).Some? then [Payload(b).value] else []);
    if fa == fb {
      assert a.content == fa[0] == fb[0] == b.content;
      if Payload(a).Some? {
        assert |fb| == 2;
        assert Payload(a).value == fa[1] == fb[1] == Payload(b).value;
      }
    }
  }

  /** The fingerprint ignores id, content type and timestamp. */
  lemma FingerprintIgnoresMetadata(item: ClipboardItem, id: nat, kind: ContentType, timestamp: nat)
    ensures CalculateHash(item.(id := id, contentType := kind, timestamp := timestamp)) == CalculateHash(item)
  {
  }
}
