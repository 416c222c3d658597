/**
 * The document viewer of the current console (src/components/ViewDocumentdialog.tsx): it shows
 * the documents of a bill, lets the user pick one when there are several, and previews the
 * picked one by the extension of its name: pdf and image files are embedded, Word documents
 * are decoded from their base64 body into bytes for a docx renderer, anything else is refused.
 */
module ViewDocument {
  import opened Common
  import opened Text
  import opened BillModel

  /** The selection the viewer falls back to whenever its documents change: the first, if any. */
  function DefaultSelection(files: seq<Document>): (r: Option<Document>)
    ensures r.None? <==> files == []
    ensures r.Some? ==> r.value == files[0] && r.value in files
  {
    if |files| > 0 then Some(files[0]) else None
  }

  // ---------------------------------------------------------------- classification

  /** How the selected document is previewed. */
  datatype PreviewKind = Embedded | DocxContainer | Unsupported

  /** A lower-cased name ending in `.pdf`, or matching `/\.(jpg|jpeg|png|gif)$/`. */
  predicate IsEmbeddable(lower: string) {
    EndsWith(lower, ".pdf") || EndsWith(lower, ".jpg") || EndsWith(lower, ".jpeg") ||
    EndsWith(lower, ".png") || EndsWith(lower, ".gif")
  }

  /** The last character of a string that ends with a non-empty suffix is the suffix's last character. */
  lemma EndsWithLast(s: string, suffix: string)
    requires suffix != [] && EndsWith(s, suffix)
    ensures s[|s| - 1] == suffix[|suffix| - 1]
  {
    assert s[|s| - |suffix|..][|suffix| - 1] == s[|s| - 1];
  }

  /** No name is both embeddable and a Word document: the two tests look at different last letters. */
  lemma DocxNotEmbeddable(lower: string)
    ensures EndsWith(lower, ".docx") ==> !IsEmbeddable(lower)
  {
    if !EndsWith(lower, ".docx") {
      return;
    }
    EndsWithLast(lower, ".docx");
    if EndsWith(lower, ".pdf") { EndsWithLast(lower, ".pdf"); }
    if EndsWith(lower, ".jpg") { EndsWithLast(lower, ".jpg"); }
    if EndsWith(lower, ".jpeg") { EndsWithLast(lower, ".jpeg"); }
    if EndsWith(lower, ".png") { EndsWithLast(lower, ".png"); }
    if EndsWith(lower, ".gif") { EndsWithLast(lower, ".gif"); }
  }

  /**
   * The preview branch for a name, judged on its lower-cased form: embedded exactly for the pdf
   * and image extensions, the docx container exactly for `.docx`, refused otherwise. The two
   * tests never both hold, so the order in which they are tried does not matter.
   */
  function Classify(name: string): (r: PreviewKind)
    ensures r == Embedded <==> IsEmbeddable(Lower(name))
    ensures r == DocxContainer <==> EndsWith(Lower(name), ".docx")
    ensures r == Unsupported <==> !IsEmbeddable(Lower(name)) && !EndsWith(Lower(name), ".docx")
  {
    var lower := Lower(name);
    DocxNotEmbeddable(lower);
    if IsEmbeddable(lower) then Embedded
    else if EndsWith(lower, ".docx") then DocxContainer
    else Unsupported
  }

  /** Lower-casing twice is lower-casing once. */
  lemma {:induction false} LowerIdempotent(s: string)
    ensures Lower(Lower(s)) == Lower(s)
  {
    forall i | 0 <= i < |s|
      ensures Lower(Lower(s))[i] == Lower(s)[i]
    {
      var c := s[i];
      if 'A' <= c <= 'Z' {
        assert 'a' <= LowerChar(c) <= 'z';
      }
    }
  }

  /** The classification ignores case: a name and its lower-cased form preview the same way. */
  lemma ClassifyIgnoresCase(name: string)
    ensures Classify(Lower(name)) == Classify(name)
  {
    LowerIdempotent(name);
  }

  // ---------------------------------------------------------------- the dialog's content

  /** The label shown for a document's type. */
  function TypeLabel(kind: string): (r: string)
    ensures r == "Sales" <==> kind == Sales
    ensures r == "Sales" || r == "Voucher"
  {
    if kind == Sales then "Sales" else "Voucher"
  }

  /** One entry of the selection list. */
  datatype ListEntry = ListEntry(name: string, typeLabel: string, highlighted: bool)

  /** The previewed document: its name, type label and preview branch. */
  datatype Pane = Pane(name: string, typeLabel: string, preview: PreviewKind)

  /** What the dialog shows. */
  datatype Screen = NoDocuments | Showing(list: seq<ListEntry>, pane: Option<Pane>)

  /** The list entry for a document, highlighted when its name is the selected file's name. */
  function EntryOf(file: Document, selected: Option<Document>): ListEntry {
    ListEntry(file.name, TypeLabel(file.kind), selected.Some? && selected.value.name == file.name)
  }

  /** The dialog's content for the documents `files` and the selection `selected`. */
  function Render(files: seq<Document>, selected: Option<Document>): (r: Screen)
    ensures r.NoDocuments? <==> files == []
    ensures r.Showing? ==> (r.list != [] <==> |files| > 1)
    ensures r.Showing? && |files| > 1 ==>
              |r.list| == |files| &&
              forall i :: 0 <= i < |files| ==>
                r.list[i].name == files[i].name &&
                (r.list[i].highlighted <==> selected.Some? && selected.value.name == files[i].name)
    ensures r.Showing? ==> (r.pane.Some? <==> selected.Some?)
    ensures r.Showing? && selected.Some? ==>
              r.pane.value.name == selected.value.name && r.pane.value.preview == Classify(selected.value.name)
  {
    if files == [] then NoDocuments
    else
      Showing(if |files| > 1 then seq(|files|, i requires 0 <= i < |files| => EntryOf(files[i], selected)) else [],
              if selected.Some? then Some(Pane(selected.value.name, TypeLabel(selected.value.kind), Classify(selected.value.name)))
              else None)
  }

  /**
   * When the dialog receives documents it previews the first one, and with several documents
   * the first entry of the list is highlighted; with none it says there are no documents.
   */
  lemma OpenShowsFirst(files: seq<Document>)
    ensures files == [] ==> Render(files, DefaultSelection(files)) == NoDocuments
    ensures files != [] ==>
              Render(files, DefaultSelection(files)).pane == Some(Pane(files[0].name, TypeLabel(files[0].kind), Classify(files[0].name)))
    ensures |files| > 1 ==> Render(files, DefaultSelection(files)).list[0].highlighted
  {
  }

  // ---------------------------------------------------------------- the docx decode

  /** An element of a `Uint8Array`. */
  newtype Byte = x: int | 0 <= x < 256

  /** `Uint8Array` storage of a character code: the code modulo 256. */
  function ByteOf(c: char): (b: Byte)
    ensures b as int == c as int % 256
  {
    (c as int % 256) as Byte
  }

  /** The bytes the decode loop stores for a binary string, one per character. */
  function Latin1Bytes(binary: string): (r: seq<Byte>)
    ensures |r| == |binary|
  {
    seq(|binary|, i requires 0 <= i < |binary| => ByteOf(binary[i]))
  }

  /**
   * A binary string (every character code below 256, as `atob` produces) loses nothing in the
   * conversion: byte `i` is the code of character `i`.
   */
  lemma Latin1BytesExact(binary: string)
    requires forall i :: 0 <= i < |binary| ==> binary[i] as int < 256
    ensures forall i :: 0 <= i < |binary| ==> Latin1Bytes(binary)[i] as int == binary[i] as int
  {
  }

  /** The copy loop: a fresh byte array as long as `binary`, byte `i` from character `i`. */
  method ToByteArray(binary: string) returns (byteArray: array<Byte>)
    ensures fresh(byteArray)
    ensures byteArray[..] == Latin1Bytes(binary)
  {
    byteArray := new Byte[|binary|];
    var i := 0;
    while i < |binary|
      invariant 0 <= i <= |binary|
      invariant forall j :: 0 <= j < i ==> byteArray[j] == ByteOf(binary[j])
    {
      byteArray[i] := ByteOf(binary[i]);
      i := i + 1;
    }
  }

  /**
   * The decode effect for the selected document. Only a `.docx` name is decoded; its base64 is
   * the text after the first comma of the url (JavaScript's `undefined`, which `atob` reads as
   * the text "undefined", when the url has none), and `atob` (`None` when it throws) gives the
   * binary string whose bytes go to the renderer.
   */
  method LoadDocx(selected: Option<Document>, atob: string -> Option<string>) returns (bytes: Option<array<Byte>>)
    ensures bytes.Some? <==>
              selected.Some? && EndsWith(Lower(selected.value.name), ".docx") &&
              atob(SecondField(selected.value.url, ',').GetOr("undefined")).Some?
    ensures bytes.Some? ==>
              fresh(bytes.value) &&
              bytes.value[..] == Latin1Bytes(atob(SecondField(selected.value.url, ',').GetOr("undefined")).value)
  {
    if selected.Some? && EndsWith(Lower(selected.value.name), ".docx") {
      var base64 := SecondField(selected.value.url, ',').GetOr("undefined");
      var binary := atob(base64);
      if binary.Some? {
        var byteArray := ToByteArray(binary.value);
        return Some(byteArray);
      }
    }
    return None;
  }
}
