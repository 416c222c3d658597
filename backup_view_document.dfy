/**
 * The earlier document viewer (backup/components/ViewDocumentdialog.tsx): of the files it is
 * given it keeps only those whose data URI is a pdf, png or jpeg, selects the first of them,
 * and previews a pdf in a frame and an image as a picture.
 */
module BackupViewDocument {
  import opened Common
  import opened Text
  import opened MimePrefix
  import opened BackupUploadDialog

  const PdfUriHead := "data:" + PdfMime
  const PngUriHead := "data:" + PngMime
  const JpegUriHead := "data:" + JpegMime

  /** A file the viewer can show: its url starts with a pdf, png or jpeg data-URI head. */
  predicate IsPreviewable(file: Preview) {
    PdfUriHead <= file.url || PngUriHead <= file.url || JpegUriHead <= file.url
  }

  /** `previewableFiles`: the previewable files, in order. */
  function PreviewableFiles(files: seq<Preview>): seq<Preview> {
    Filter(files, IsPreviewable)
  }

  /**
   * The previewable files are exactly the given files with a pdf, png or jpeg data URI, each
   * kept as often as it occurs and in the original order; filtering them again changes nothing.
   */
  lemma PreviewableFilesSpec(files: seq<Preview>)
    ensures IsSubsequence(PreviewableFiles(files), files)
    ensures forall f :: f in PreviewableFiles(files) <==> f in files && IsPreviewable(f)
    ensures forall f :: IsPreviewable(f) ==> multiset(PreviewableFiles(files))[f] == multiset(files)[f]
    ensures PreviewableFiles(PreviewableFiles(files)) == PreviewableFiles(files)
  {
    FilterIdempotent(files, IsPreviewable);
  }

  /** The selection the viewer falls back to whenever its files change: the first previewable one. */
  function DefaultSelection(files: seq<Preview>): (r: Option<Preview>)
    ensures r.None? <==> forall f :: f in files ==> !IsPreviewable(f)
    ensures r.Some? ==> r.value == PreviewableFiles(files)[0] && r.value in files && IsPreviewable(r.value)
  {
    var previewable := PreviewableFiles(files);
    if |previewable| > 0 then
      assert previewable[0] in previewable;
      Some(previewable[0])
    else
      None
  }

  /** The right-hand pane: a frame for a pdf, a picture for anything else, nothing unselected. */
  datatype Pane = Frame(src: string, title: string) | Picture(src: string, alt: string) | Blank

  /** One entry of the selection list. */
  datatype ListEntry = ListEntry(name: string, highlighted: bool)

  /** What the dialog shows. */
  datatype Screen = NoDocuments | Showing(list: seq<ListEntry>, pane: Pane)

  /** The pane for a selection. */
  function PaneOf(selected: Option<Preview>): (r: Pane)
    ensures selected.None? <==> r == Blank
    ensures r.Frame? <==> selected.Some? && PdfUriHead <= selected.value.url
    ensures r.Frame? ==> r.src == selected.value.url && r.title == selected.value.name
    ensures r.Picture? ==> r.src == selected.value.url && r.alt == selected.value.name
  {
    if selected.Some? && PdfUriHead <= selected.value.url then Frame(selected.value.url, selected.value.name)
    else if selected.Some? then Picture(selected.value.url, selected.value.name)
    else Blank
  }

  /** The dialog's content for the given files and the selection `selected`. */
  function Render(files: seq<Preview>, selected: Option<Preview>): (r: Screen)
    ensures r.NoDocuments? <==> PreviewableFiles(files) == []
    ensures r.Showing? ==> (r.list != [] <==> |PreviewableFiles(files)| > 1) && r.pane == PaneOf(selected)
    ensures r.Showing? && r.list != [] ==>
              |r.list| == |PreviewableFiles(files)| &&
              forall i :: 0 <= i < |r.list| ==>
                r.list[i].name == PreviewableFiles(files)[i].name &&
                (r.list[i].highlighted <==> selected.Some? && selected.value.name == PreviewableFiles(files)[i].name)
  {
    var previewable := PreviewableFiles(files);
    if previewable == [] then NoDocuments
    else
      Showing(if |previewable| > 1
              then seq(|previewable|, i requires 0 <= i < |previewable| =>
                     ListEntry(previewable[i].name, selected.Some? && selected.value.name == previewable[i].name))
              else [],
              PaneOf(selected))
  }

  /**
   * On opening, the dialog shows the first previewable file, in a frame exactly when it is a
   * pdf, and says there are no documents when none is previewable; files that are not pdf, png
   * or jpeg are never offered.
   */
  lemma OpenShowsFirstPreviewable(files: seq<Preview>)
    ensures PreviewableFiles(files) == [] ==> Render(files, DefaultSelection(files)) == NoDocuments
    ensures PreviewableFiles(files) != [] ==>
              var first := PreviewableFiles(files)[0];
              Render(files, DefaultSelection(files)).pane ==
                (if PdfUriHead <= first.url then Frame(first.url, first.name) else Picture(first.url, first.name))
    ensures forall i :: 0 <= i < |PreviewableFiles(files)| ==> IsPreviewable(PreviewableFiles(files)[i])
  {
    var p := PreviewableFiles(files);
    forall i | 0 <= i < |p|
      ensures IsPreviewable(p[i])
    {
      assert p[i] in p;
    }
  }

  /** A string that starts with `a` does not start with `p` when the two differ at a common position. */
  lemma NotPrefixAt(p: string, a: string, s: string, k: nat)
    requires a <= s && k < |a| && k < |p| && p[k] != a[k]
    ensures !(p <= s)
  {
  }

  /** A data URI of an `application/` type other than pdf is refused. */
  lemma ApplicationMimeRefused(mime: string, name: string, body: string)
    requires "application/" <= mime && |mime| > 12 && mime[12] != 'p'
    ensures !IsPreviewable(Preview(name, DataUriPrefix(mime) + body))
  {
    var url := DataUriPrefix(mime) + body;
    assert url == "data:" + mime + (";base64," + body);
    assert url[5] == mime[0] == 'a';
    assert url[17] == mime[12];
    NotPrefixAt(PdfUriHead, url[..18], url, 17);
    NotPrefixAt(PngUriHead, url[..18], url, 5);
    NotPrefixAt(JpegUriHead, url[..18], url, 5);
  }

  /** The octet-stream head is refused. */
  lemma OctetStreamRefused(name: string, body: string)
    ensures !IsPreviewable(Preview(name, OctetStreamPrefix + body))
  {
    var mime := "application/" + "octet-stream";
    assert mime == "application/octet-stream";
    assert mime[12] == 'o';
    ApplicationMimeRefused(mime, name, body);
  }

  /** The docx head is refused. */
  lemma DocxRefused(name: string, body: string)
    ensures !IsPreviewable(Preview(name, DocxPrefix + body))
  {
    assert DocxMime[12] == 'v';
    ApplicationMimeRefused(DocxMime, name, body);
  }

  /** A data URI for `mime` starts with `data:` and the MIME type. */
  lemma DataUriStartsWith(mime: string, body: string)
    ensures "data:" + mime <= DataUriPrefix(mime) + body
  {
    assert DataUriPrefix(mime) + body == ("data:" + mime) + (";base64," + body);
  }

  /** The pdf, png and jpeg heads are shown. */
  lemma ImageHeadsShown(name: string, body: string)
    ensures IsPreviewable(Preview(name, PdfPrefix + body))
    ensures IsPreviewable(Preview(name, PngPrefix + body))
    ensures IsPreviewable(Preview(name, JpegPrefix + body))
  {
    DataUriStartsWith(PdfMime, body);
    DataUriStartsWith(PngMime, body);
    DataUriStartsWith(JpegMime, body);
  }

  /**
   * The stored base64 bodies the current console turns into data URIs are previewable here
   * exactly when their signature is a pdf, png or jpeg one: the docx and octet-stream heads that
   * the sniffer gives every other body are refused.
   */
  lemma SniffedPreviewable(name: string, body: string)
    requires !("data:" <= body)
    ensures IsPreviewable(Preview(name, ToDataUrl(body))) <==>
              PdfSignature <= body || PngSignature <= body || JpegSignature <= body
  {
    var head := GetMimePrefix(Some(body));
    assert ToDataUrl(body) == head + body;
    ImageHeadsShown(name, body);
    OctetStreamRefused(name, body);
    DocxRefused(name, body);
    SignaturesExclusive(body);
  }
}
