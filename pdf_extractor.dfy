/** `PDFExtractor`: direct text extraction first, OCR when the direct text
    is too short. The PDF and OCR libraries are replaced by their outputs:
    the text of each page, or None when the library raises. */
module PdfExtractor {
  import opened Wrappers
  import opened Strings

  const EtiquetaPyMuPdf := "PyMuPDF"
  const EtiquetaOcr := "Tesseract OCR"

  /** Below this many stripped characters the direct text is replaced by OCR. */
  const MinimoTextoDirecto: nat := 100

  /** What the libraries yield for one file: the text layer of each page
      (`page.get_text()`), and the OCR text of each page image
      (`pytesseract.image_to_string`), each None when the library raises. */
  datatype Paginas = Paginas(directas: Option<seq<string>>, ocr: Option<seq<string>>)

  /** The `{"text": ..., "method": ...}` result of `extract_text`. */
  datatype Extraccion = Extraccion(texto: string, metodo: string)

  /** The pages joined in page order. */
  function Concatenar(ps: seq<string>): (r: string)
    ensures ps == [] ==> r == []
  {
    if ps == [] then [] else Concatenar(ps[..|ps| - 1]) + ps[|ps| - 1]
  }

  /** Where page `k` starts in the joined text. */
  function Desplazamiento(ps: seq<string>, k: nat): nat
    requires k <= |ps|
  {
    |Concatenar(ps[..k])|
  }

  /** Page `k` sits in the joined text right after pages `0..k-1`. */
  lemma {:induction false} PaginaEnSuLugar(ps: seq<string>, k: nat)
    requires k < |ps|
    ensures Desplazamiento(ps, k) + |ps[k]| <= |Concatenar(ps)|
    ensures Concatenar(ps)[Desplazamiento(ps, k)..Desplazamiento(ps, k) + |ps[k]|] == ps[k]
  {
    var n := |ps|;
    var init := ps[..n - 1];
    assert ps[..n] == ps;
    if k == n - 1 {
      assert ps[..k] == init;
    } else {
      PaginaEnSuLugar(init, k);
      assert init[..k] == ps[..k];
      assert init[k] == ps[k];
    }
  }

  /** The joined text is as long as all pages together. */
  lemma {:induction false} LongitudConcatenada(ps: seq<string>, extra: string)
    ensures |Concatenar(ps + [extra])| == |Concatenar(ps)| + |extra|
  {
    assert (ps + [extra])[..|ps|] == ps;
  }

  /** What the OCR loop leaves behind: `text = page_text + "\n\n"` keeps
      only the last page. */
  function UltimaPagina(ps: seq<string>): (r: string)
    ensures ps == [] ==> r == []
  {
    if ps == [] then [] else ps[|ps| - 1] + "\n\n"
  }

  /** `extract_with_pymupdf`: `text += page.get_text()` over the pages. */
  method ExtraerConPyMuPdf(paginas: Option<seq<string>>) returns (texto: string)
    ensures paginas.None? ==> texto == []
    ensures paginas.Some? ==> texto == Concatenar(paginas.value)
  {
    if paginas.None? {
      return "";
    }
    var ps := paginas.value;
    texto := "";
    for i := 0 to |ps|
      invariant texto == Concatenar(ps[..i])
    {
      assert ps[..i + 1][..i] == ps[..i];
      texto := texto + ps[i];
    }
    assert ps[..|ps|] == ps;
  }

  /** `extract_with_ocr` as written: each page overwrites the text. */
  method ExtraerConOcr(paginas: Option<seq<string>>) returns (texto: string)
    ensures paginas.None? ==> texto == []
    ensures paginas.Some? ==> texto == UltimaPagina(paginas.value)
  {
    if paginas.None? {
      return "";
    }
    var ps := paginas.value;
    texto := "";
    for i := 0 to |ps|
      invariant texto == UltimaPagina(ps[..i])
    {
      texto := ps[i] + "\n\n";
    }
    assert ps[..|ps|] == ps;
  }

  /** The text the direct path yields. */
  function TextoDirecto(p: Paginas): string {
    if p.directas.None? then [] else Concatenar(p.directas.value)
  }

  /** The text the OCR path yields. */
  function TextoOcr(p: Paginas): string {
    if p.ocr.None? then [] else UltimaPagina(p.ocr.value)
  }

  /** The direct text is kept iff it has at least 100 characters once
      stripped; otherwise the OCR text is returned, empty or not. */
  function ExtraccionEsperada(p: Paginas): (r: Extraccion)
    ensures r.metodo == EtiquetaOcr <==> |Strip(TextoDirecto(p))| < 100
    ensures r.metodo == EtiquetaOcr ==> r.texto == TextoOcr(p)
    ensures r.metodo != EtiquetaOcr ==> r.metodo == EtiquetaPyMuPdf && r.texto == TextoDirecto(p)
  {
    var directo := TextoDirecto(p);
    if directo == [] || |Strip(directo)| < MinimoTextoDirecto then Extraccion(TextoOcr(p), EtiquetaOcr)
    else Extraccion(directo, EtiquetaPyMuPdf)
  }

  /** `extract_text`. */
  method ExtraerTexto(p: Paginas) returns (r: Extraccion)
    ensures r == ExtraccionEsperada(p)
  {
    var texto := ExtraerConPyMuPdf(p.directas);
    var metodo := EtiquetaPyMuPdf;
    if texto == [] || |Strip(texto)| < MinimoTextoDirecto {
      texto := ExtraerConOcr(p.ocr);
      metodo := EtiquetaOcr;
    }
    r := Extraccion(texto, metodo);
  }

  /** Pages before the last one have no effect on the OCR text. */
  lemma {:induction false} OcrSoloUltimaPagina(previas: seq<string>, resto: seq<string>)
    requires resto != []
    ensures UltimaPagina(previas + resto) == UltimaPagina(resto)
  {
    assert (previas + resto)[|previas + resto| - 1] == resto[|resto| - 1];
  }

  /** Two OCR pages: the first page's text is lost. */
  lemma OcrPierdePrimeraPagina()
    ensures UltimaPagina(["uno", "dos"]) == "dos\n\n"
    ensures !Contains(UltimaPagina(["uno", "dos"]), "uno")
  {
    var r := UltimaPagina(["uno", "dos"]);
    assert r == "dos\n\n";
    forall i | 0 <= i <= |r| ensures !MatchAt(r, "uno", i) {
      if i + 3 <= |r| {
        assert r[i..i + 3][0] == r[i] != 'u';
      }
    }
  }
}
