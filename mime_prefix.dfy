/**
 * The base64 content sniffer (src/utils/getMimePrefix.ts): a fixed table of magic prefixes of a
 * base64 payload, each mapped to the `data:` URI prefix that makes the payload displayable.
 */
module MimePrefix {
  import opened Common
  import opened Text

  /** The head of a base64 data URI for the MIME type `mime`. */
  function DataUriPrefix(mime: string): (r: string)
    ensures "data:" <= r && EndsWith(r, ";base64,")
    ensures ',' !in mime ==> ',' !in r[..|r| - 1]
  {
    var r := "data:" + mime + ";base64,";
    assert r[|r| - 8..] == ";base64,";
    assert r[..|r| - 1] == "data:" + mime + ";base64";
    r
  }

  const OctetStreamPrefix := DataUriPrefix("application/octet-stream")
  const PdfMime := "application/pdf"
  const PngMime := "image/png"
  const JpegMime := "image/jpeg"
  const PdfPrefix := DataUriPrefix(PdfMime)
  const PngPrefix := DataUriPrefix(PngMime)
  const JpegPrefix := DataUriPrefix(JpegMime)
  const DocxMime := "application/" + "vnd.openxmlformats-" + "officedocument." + "wordprocessingml." + "document"
  const DocxPrefix := DataUriPrefix(DocxMime)

  /** Base64 of the first bytes of a PDF (`%PDF`), a PNG, a JPEG and a ZIP/DOCX container. */
  const PdfSignature := "JVBER"
  const PngSignature := "iVBOR"
  const JpegSignature := "/9j/"
  const DocxSignature := "UEsDB"

  /** `payload` starts with one of the four known signatures. */
  predicate HasSignature(payload: string) {
    PdfSignature <= payload || PngSignature <= payload ||
    JpegSignature <= payload || DocxSignature <= payload
  }

  /**
   * getMimePrefix. The argument is `None` when the JavaScript value is not a string (for example
   * `undefined`); the empty string and non-strings fall back to octet-stream, and so does any
   * payload that starts with none of the signatures.
   */
  function GetMimePrefix(payload: Option<string>): (r: string)
    ensures payload.None? || payload == Some([]) ==> r == OctetStreamPrefix
    ensures payload.Some? && PdfSignature <= payload.value ==> r == PdfPrefix
    ensures payload.Some? && PngSignature <= payload.value ==> r == PngPrefix
    ensures payload.Some? && JpegSignature <= payload.value ==> r == JpegPrefix
    ensures payload.Some? && DocxSignature <= payload.value ==> r == DocxPrefix
    ensures payload.Some? && !HasSignature(payload.value) ==> r == OctetStreamPrefix
    ensures "data:" <= r && EndsWith(r, ";base64,")
    ensures ',' !in r[..|r| - 1]
  {
    SignaturesExclusive(payload.GetOr(""));
    if payload.None? || payload.value == [] then OctetStreamPrefix
    else if PdfSignature <= payload.value then PdfPrefix
    else if PngSignature <= payload.value then PngPrefix
    else if JpegSignature <= payload.value then JpegPrefix
    else if DocxSignature <= payload.value then assert ',' !in DocxMime; DocxPrefix
    else OctetStreamPrefix
  }

  /** The signatures begin with four different characters, so a payload carries at most one. */
  lemma SignaturesExclusive(payload: string)
    ensures PdfSignature <= payload ==> !(PngSignature <= payload || JpegSignature <= payload || DocxSignature <= payload)
    ensures PngSignature <= payload ==> !(JpegSignature <= payload || DocxSignature <= payload)
    ensures JpegSignature <= payload ==> !(DocxSignature <= payload)
  {
    if payload != [] {
      assert PdfSignature <= payload ==> payload[0] == 'J';
      assert PngSignature <= payload ==> payload[0] == 'i';
      assert JpegSignature <= payload ==> payload[0] == '/';
      assert DocxSignature <= payload ==> payload[0] == 'U';
    }
  }

  /** The first five characters of a payload (all of it when shorter). */
  function Head(payload: string): string {
    if |payload| <= 5 then payload else payload[..5]
  }

  /** The prefix depends on nothing beyond the first five characters of the payload. */
  lemma {:induction false} PrefixDependsOnHead(p: string, q: string)
    requires Head(p) == Head(q)
    ensures GetMimePrefix(Some(p)) == GetMimePrefix(Some(q))
  {
    var sigs := [PdfSignature, PngSignature, JpegSignature, DocxSignature];
    forall k | 0 <= k < |sigs|
      ensures sigs[k] <= p <==> sigs[k] <= q
    {
      assert |sigs[k]| <= 5;
      if sigs[k] <= p {
        assert sigs[k] <= Head(p);
      }
      if sigs[k] <= q {
        assert sigs[k] <= Head(q);
      }
    }
    assert sigs[0] == PdfSignature && sigs[1] == PngSignature;
    assert sigs[2] == JpegSignature && sigs[3] == DocxSignature;
    assert p == [] <==> q == [];
  }

  /**
   * The url the console stores and displays for an invoice: kept as is when it is already a
   * data URI, otherwise the raw base64 body behind the prefix getMimePrefix chooses for it.
   */
  function ToDataUrl(url: string): (r: string)
    ensures "data:" <= r
    ensures EndsWith(r, url)
    ensures "data:" <= url ==> r == url
  {
    if "data:" <= url then url else GetMimePrefix(Some(url)) + url
  }

  /** Converting to a data URI twice changes nothing beyond the first conversion. */
  lemma ToDataUrlIdempotent(url: string)
    ensures ToDataUrl(ToDataUrl(url)) == ToDataUrl(url)
  {
  }

  /** After a prefix whose only comma is its last character, the second comma field is the rest. */
  lemma AfterPrefixComma(p: string, body: string)
    requires p != [] && p[|p| - 1] == ',' && ',' !in p[..|p| - 1] && ',' !in body
    ensures SecondField(p + body, ',') == Some(body)
  {
    var head := p[..|p| - 1];
    assert p == head + [','];
    assert p + body == head + [','] + body;
    SecondFieldOfSingleSeparator(head, ',', body);
  }

  /**
   * A base64 body (which holds no comma) survives the trip through a data URI: the text after
   * the first comma of the stored url is the body again; a body that already looked like a data
   * URI is kept as is and has no second field.
   */
  lemma {:induction false} DataUrlBody(body: string)
    requires ',' !in body
    ensures SecondField(ToDataUrl(body), ',') == if "data:" <= body then None else Some(body)
  {
    if !("data:" <= body) {
      var p := GetMimePrefix(Some(body));
      AfterPrefixComma(p, body);
    }
  }
}
