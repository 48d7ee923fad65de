/** The size formatter `formatearTamaño` of the client's
    `DocumentoService`. */
module DocumentoService {
  import opened Wrappers
  import opened Strings
  import opened Models

  // ---------------------------------------------------------------------------
  // `formatearTamaño`

  /** Its answer: "0 B" for a missing or zero size, otherwise a value and a
      unit (rendered with one decimal, which the model leaves out). */
  datatype TamanoCliente = CeroB | Escalado(medida: Medida)

  /** The unit the client's loop stops at: the backend's rung, capped at GB. */
  function PeldanoCliente(bytes: nat): (k: nat)
    ensures k <= 3
  {
    if Peldano(bytes) < 3 then Peldano(bytes) else 3
  }

  function TamanoClienteDe(bytes: Option<nat>): TamanoCliente {
    if bytes.None? || bytes.value == 0 then CeroB
    else
      var k := PeldanoCliente(bytes.value);
      Escalado(Medida(bytes.value as real / Escala(k) as real, UnidadDe(k)))
  }

  /** The rung is the only `k` with every lower bound passed and its own
      bound not reached. */
  lemma PeldanoUnico(bytes: nat, k: nat)
    requires k <= 4 && (k < 4 ==> bytes < Umbral(k))
    requires forall j :: 0 <= j < k ==> Umbral(j) <= bytes
    ensures Peldano(bytes) == k
  {
  }

  /** `formatearTamaño`: divide by 1024 while the value is at least 1024 and
      the unit is below GB. */
  method FormatearTamano(bytes: Option<nat>) returns (r: TamanoCliente)
    ensures r == TamanoClienteDe(bytes)
  {
    if bytes.None? || bytes.value == 0 {
      return CeroB;
    }
    var n := bytes.value;
    var tamano: real := n as real;
    var unidadIndex: nat := 0;
    while tamano >= 1024.0 && unidadIndex < 3
      invariant unidadIndex <= 3
      invariant tamano == n as real / Escala(unidadIndex) as real
      invariant forall j :: 0 <= j < unidadIndex ==> Umbral(j) <= n
      decreases 3 - unidadIndex
    {
      Paso(n, unidadIndex);
      tamano := tamano / 1024.0;
      unidadIndex := unidadIndex + 1;
    }
    if unidadIndex < 3 {
      Paso(n, unidadIndex);
      PeldanoUnico(n, unidadIndex);
    } else if n < Umbral(3) {
      PeldanoUnico(n, 3);
    } else {
      PeldanoUnico(n, 4);
    }
    return Escalado(Medida(tamano, UnidadDe(unidadIndex)));
  }

  /** The shown unit is never above GB; below GB the value is under 1024;
      from KB up it is at least 1. */
  lemma TamanoClienteAcotado(bytes: nat)
    requires bytes > 0
    ensures var m := TamanoClienteDe(Some(bytes)).medida;
      && m.unidad != TB
      && (m.unidad != GB ==> m.valor < 1024.0)
      && (m.unidad != B ==> m.valor >= 1.0)
  {
    var k := Peldano(bytes);
    LadderBounds(bytes, k);
    var c := PeldanoCliente(bytes);
    if k == 4 {
      assert Umbral(2) <= bytes;
      Paso(bytes, 2);
      assert bytes as real / Escala(2) as real >= 1024.0;
      assert bytes as real / Escala(3) as real == bytes as real / Escala(2) as real / 1024.0;
    }
  }

  /** Below 1024^4 bytes the client shows what the backend's
      `tamaño_legible` shows. */
  lemma ClienteComoServidor(bytes: nat)
    requires 0 < bytes < Escala(4)
    ensures TamanoClienteDe(Some(bytes)) == Escalado(MedidaLegible(bytes))
  {
    LadderBounds(bytes, Peldano(bytes));
  }

  /** From 1024^4 bytes on, the backend switches to TB but the client stays
      at GB, with a value of 1024 or more. */
  lemma ClienteSeQuedaEnGB(bytes: nat)
    requires bytes >= Escala(4)
    ensures MedidaLegible(bytes).unidad == TB
    ensures var m := TamanoClienteDe(Some(bytes)).medida;
      m.unidad == GB && m.valor >= 1024.0
  {
    LadderBounds(bytes, Peldano(bytes));
    Paso(bytes, 3);
  }
}

/** The search-term highlighter `resaltarTermino` of the client's
    `DocumentoService`. */
module Resaltado {
  import opened Strings

  /** A piece of the highlighted text: a character left as it was, or an
      occurrence of the term wrapped in `<mark>`. */
  datatype Segmento = Plano(c: char) | Marca(m: string)

  /** The text of one segment, without tags. */
  function TextoDe(seg: Segmento): string {
    match seg
    case Plano(c) => [c]
    case Marca(m) => m
  }

  /** The text rendered without the inserted tags. */
  function Texto(segs: seq<Segmento>): string {
    if segs == [] then [] else TextoDe(segs[0]) + Texto(segs[1..])
  }

  const AbreMarca := "<mark>"
  const CierraMarca := "</mark>"

  /** One segment rendered with its tags. */
  function RenderDe(seg: Segmento): string {
    match seg
    case Plano(c) => [c]
    case Marca(m) => AbreMarca + m + CierraMarca
  }

  /** The text rendered with the tags. */
  function Render(segs: seq<Segmento>): string {
    if segs == [] then [] else RenderDe(segs[0]) + Render(segs[1..])
  }

  /** Two strings agree character by character once ASCII letters are
      lowered, as a regular expression with the `i` flag compares them. */
  predicate IgualCi(a: string, b: string) {
    |a| == |b| && (a == [] || (LowerChar(a[0]) == LowerChar(b[0]) && IgualCi(a[1..], b[1..])))
  }

  /** The term occurs at `p`, ignoring case. */
  predicate CoincideEn(s: string, t: string, p: int) {
    0 <= p && p + |t| <= |s| && IgualCi(s[p..p + |t|], t)
  }

  /** Comparing ignoring case is comparing the lowered strings. */
  lemma {:induction false} IgualCiMinusculas(a: string, b: string)
    ensures IgualCi(a, b) <==> Lower(a) == Lower(b)
    decreases |a|
  {
    if |a| == |b| && a != [] {
      IgualCiMinusculas(a[1..], b[1..]);
      assert Lower(a[1..]) == Lower(a)[1..] && Lower(b[1..]) == Lower(b)[1..];
      if Lower(a) == Lower(b) {
        assert Lower(a)[0] == Lower(b)[0];
      } else if LowerChar(a[0]) == LowerChar(b[0]) {
        assert Lower(a) == [Lower(a)[0]] + Lower(a)[1..];
        assert Lower(b) == [Lower(b)[0]] + Lower(b)[1..];
      }
    } else if |a| == |b| {
      assert Lower(a) == [] == Lower(b);
    } else {
      assert |Lower(a)| != |Lower(b)|;
    }
  }

  /** The term occurs at `p` exactly when the lowered term occurs there in
      the lowered text. */
  lemma CoincideEnMinusculas(s: string, t: string, p: int)
    ensures CoincideEn(s, t, p) <==> MatchAt(Lower(s), Lower(t), p)
  {
    if 0 <= p && p + |t| <= |s| {
      IgualCiMinusculas(s[p..p + |t|], t);
      LowerSlice(s, p, p + |t|);
    }
  }

  /** Where the scan resumes after index `i`: past the occurrence of the
      term that starts there, or past the one character kept. */
  function Siguiente(s: string, t: string, i: nat): (j: nat)
    requires t != [] && i < |s|
    ensures i < j <= |s|
  {
    if CoincideEn(s, t, i) then i + |t| else i + 1
  }

  /** The segment the scan leaves at index `i`. */
  function Primero(s: string, t: string, i: nat): Segmento
    requires t != [] && i < |s|
  {
    if CoincideEn(s, t, i) then Marca(s[i..i + |t|]) else Plano(s[i])
  }

  /** The global, case-insensitive match of a literal term from index `i`,
      left to right: an occurrence is wrapped and the scan resumes after
      it; otherwise one character is kept and the scan moves on. Every
      segment it leaves is valid where the text of the ones before it ends. */
  function Segmentos(s: string, t: string, i: nat): (r: seq<Segmento>)
    requires t != [] && i <= |s|
    ensures Escaneo(s, t, i, r)
    decreases |s| - i
  {
    if i == |s| then []
    else
      var resto := Segmentos(s, t, Siguiente(s, t, i));
      PrimeroValido(s, t, i);
      assert ([Primero(s, t, i)] + resto)[1..] == resto;
      [Primero(s, t, i)] + resto
  }

  /** `resaltarTermino`: the text unchanged when it or the term is empty,
      otherwise every occurrence wrapped in `<mark>…</mark>`. */
  function ResaltarTermino(texto: string, termino: string): (r: string)
    ensures texto == [] || termino == [] ==> r == texto
  {
    if texto == [] || termino == [] then texto
    else Render(Segmentos(texto, termino, 0))
  }

  /** `seg` is what the scan leaves at index `p` of `s`: a kept character is
      the original one and no occurrence of the term starts there; a wrapped
      piece is an occurrence of the term, in the original casing. */
  predicate SegmentoValido(s: string, t: string, p: int, seg: Segmento) {
    match seg
    case Plano(c) => 0 <= p < |s| && c == s[p] && !CoincideEn(s, t, p)
    case Marca(m) => CoincideEn(s, t, p) && m == s[p..p + |t|]
  }

  /** The segment left at `i` is valid there and spells out the text up to
      where the scan resumes. */
  lemma PrimeroValido(s: string, t: string, i: nat)
    requires t != [] && i < |s|
    ensures SegmentoValido(s, t, i, Primero(s, t, i))
    ensures TextoDe(Primero(s, t, i)) == s[i..Siguiente(s, t, i)]
  {
    if !CoincideEn(s, t, i) {
      assert s[i..i + 1] == [s[i]];
    }
  }

  /** One step of the scan. */
  lemma PasoSegmentos(s: string, t: string, i: nat)
    requires t != [] && i < |s|
    ensures Segmentos(s, t, i)[0] == Primero(s, t, i)
    ensures Segmentos(s, t, i)[1..] == Segmentos(s, t, Siguiente(s, t, i))
  {
  }

  lemma UnirTrozos(s: string, i: nat, j: nat)
    requires i <= j <= |s|
    ensures s[i..j] + s[j..] == s[i..]
  {
  }

  /** The segments of the scan from `i` spell out the text from `i`. */
  lemma {:induction false} TextoSegmentos(s: string, t: string, i: nat)
    requires t != [] && i <= |s|
    ensures Texto(Segmentos(s, t, i)) == s[i..]
    decreases |s| - i
  {
    if i < |s| {
      var j := Siguiente(s, t, i);
      PasoSegmentos(s, t, i);
      PrimeroValido(s, t, i);
      TextoSegmentos(s, t, j);
      UnirTrozos(s, i, j);
    }
  }

  /** Removing the tags gives back the original text. */
  lemma QuitarMarcas(texto: string, termino: string)
    requires texto != [] && termino != []
    ensures Texto(Segmentos(texto, termino, 0)) == texto
  {
    TextoSegmentos(texto, termino, 0);
    assert texto[0..] == texto;
  }

  /** Every segment of `segs` is valid where the text of the ones before it
      ends, the first one at `p`. */
  predicate Escaneo(s: string, t: string, p: int, segs: seq<Segmento>)
    decreases |segs|
  {
    segs == [] || (SegmentoValido(s, t, p, segs[0]) && Escaneo(s, t, p + |TextoDe(segs[0])|, segs[1..]))
  }

  /** In a valid scan from `p`, the `k`-th segment is valid where the text
      of the segments before it ends. */
  lemma {:induction false} EscaneoEnPosicion(s: string, t: string, p: int, segs: seq<Segmento>, k: nat)
    requires Escaneo(s, t, p, segs) && k < |segs|
    ensures SegmentoValido(s, t, p + |Texto(segs[..k])|, segs[k])
    decreases k
  {
    if k == 0 {
      assert segs[..0] == [];
    } else {
      var q := p + |TextoDe(segs[0])|;
      assert Escaneo(s, t, q, segs[1..]);
      EscaneoEnPosicion(s, t, q, segs[1..], k - 1);
      LargoPrefijo(segs, k);
      assert q + |Texto(segs[1..][..k - 1])| == p + |Texto(segs[..k])|;
      assert segs[1..][k - 1] == segs[k];
    }
  }

  /** The text before segment `k` is that of the first segment, then that
      of the following ones before it. */
  lemma LargoPrefijo(segs: seq<Segmento>, k: nat)
    requires 0 < k <= |segs|
    ensures |Texto(segs[..k])| == |TextoDe(segs[0])| + |Texto(segs[1..][..k - 1])|
  {
    assert segs[..k][1..] == segs[1..][..k - 1];
  }

  /** The `k`-th segment of the scan from `i` is valid at the index where
      the text of the segments before it ends. */
  lemma SegmentoEnPosicion(s: string, t: string, i: nat, k: nat)
    requires t != [] && i <= |s| && k < |Segmentos(s, t, i)|
    ensures SegmentoValido(s, t, i + |Texto(Segmentos(s, t, i)[..k])|, Segmentos(s, t, i)[k])
  {
    EscaneoEnPosicion(s, t, i, Segmentos(s, t, i), k);
  }

  /** A text in which the term never occurs comes back without tags. */
  lemma {:induction false} SinCoincidenciasSinMarcas(s: string, t: string, i: nat)
    requires t != [] && i <= |s|
    requires forall p :: i <= p < |s| ==> !CoincideEn(s, t, p)
    ensures Render(Segmentos(s, t, i)) == s[i..]
    decreases |s| - i
  {
    if i < |s| {
      PasoSegmentos(s, t, i);
      SinCoincidenciasSinMarcas(s, t, i + 1);
      assert RenderDe(Primero(s, t, i)) == [s[i]];
      UnirTrozos(s, i, i + 1);
      assert s[i..i + 1] == [s[i]];
    }
  }

  /** Where the term "HOLA" occurs in "Hola hola", ignoring case. */
  lemma EjemploCoincidencias()
    ensures CoincideEn("Hola hola", "HOLA", 0)
    ensures !CoincideEn("Hola hola", "HOLA", 4)
    ensures CoincideEn("Hola hola", "HOLA", 5)
  {
    var s := "Hola hola";
    assert s[0..4] == "Hola" && s[4..8] == " hol" && s[5..9] == "hola";
    assert IgualCi("Hola", "HOLA") && IgualCi("hola", "HOLA");
  }

  /** The scan of "Hola hola" for "HOLA": two occurrences around a space. */
  lemma EjemploSegmentos()
    ensures Segmentos("Hola hola", "HOLA", 0) == [Marca("Hola"), Plano(' '), Marca("hola")]
  {
    var s := "Hola hola";
    var t := "HOLA";
    EjemploCoincidencias();
    assert s[0..4] == "Hola" && s[4] == ' ' && s[5..9] == "hola";
    assert Segmentos(s, t, 9) == [];
    assert Segmentos(s, t, 5) == [Marca("hola")];
    assert Segmentos(s, t, 4) == [Plano(' '), Marca("hola")];
  }

  lemma RenderCabeza(seg: Segmento, resto: seq<Segmento>)
    ensures Render([seg] + resto) == RenderDe(seg) + Render(resto)
  {
    assert ([seg] + resto)[1..] == resto;
  }

  /** "Hola hola" with the term "HOLA": both occurrences are wrapped, each
      in its own casing. */
  lemma ResaltarEjemplo()
    ensures ResaltarTermino("Hola hola", "HOLA")
         == AbreMarca + "Hola" + CierraMarca + " " + AbreMarca + "hola" + CierraMarca
  {
    EjemploSegmentos();
    RenderCabeza(Marca("Hola"), [Plano(' '), Marca("hola")]);
    RenderCabeza(Plano(' '), [Marca("hola")]);
    RenderCabeza(Marca("hola"), []);
  }
}
