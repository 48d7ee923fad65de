/** The request rules of the document views: pagination settings, the
    search endpoint, the owner-only and global detail lookups, the soft
    delete endpoint, the statistics endpoint and the upload pipeline. */
module Views {
  import opened Wrappers
  import opened Strings
  import opened Models
  import opened Serializers
  import opened PdfExtractor

  // ---------------------------------------------------------------------------
  // Newest first: `ordering = ['-fecha_procesamiento']`. Records with the
  // same processing time keep the table's order.

  ghost predicate NuevosPrimero(s: seq<Documento>) {
    forall i, j :: 0 <= i < j < |s| ==> s[i].fechaProcesamiento >= s[j].fechaProcesamiento
  }

  lemma AnteponerMasNuevo(d: Documento, s: seq<Documento>)
    requires NuevosPrimero(s)
    requires s != [] ==> d.fechaProcesamiento >= s[0].fechaProcesamiento
    ensures NuevosPrimero([d] + s)
  {
    forall j | 0 < j < |[d] + s| ensures d.fechaProcesamiento >= ([d] + s)[j].fechaProcesamiento {
      assert ([d] + s)[j] == s[j - 1];
      if j > 1 {
        assert s[0].fechaProcesamiento >= s[j - 1].fechaProcesamiento;
      }
    }
  }

  function Insertar(d: Documento, s: seq<Documento>): (r: seq<Documento>)
    requires NuevosPrimero(s)
    ensures |r| == |s| + 1
    ensures r[0] == d || (s != [] && r[0] == s[0])
    ensures multiset(r) == multiset(s) + multiset{d}
    ensures NuevosPrimero(r)
  {
    if s == [] then [d]
    else if d.fechaProcesamiento >= s[0].fechaProcesamiento then
      AnteponerMasNuevo(d, s);
      [d] + s
    else
      var resto := Insertar(d, s[1..]);
      AnteponerCabeza(d, s, resto);
      [s[0]] + resto
  }

  /** The head of `s`, newer than `d`, stays in front of `d` inserted into
      the tail. */
  lemma AnteponerCabeza(d: Documento, s: seq<Documento>, resto: seq<Documento>)
    requires s != [] && NuevosPrimero(s) && d.fechaProcesamiento < s[0].fechaProcesamiento
    requires resto != [] && (resto[0] == d || (|s| > 1 && resto[0] == s[1]))
    requires multiset(resto) == multiset(s[1..]) + multiset{d} && NuevosPrimero(resto)
    ensures multiset([s[0]] + resto) == multiset(s) + multiset{d}
    ensures NuevosPrimero([s[0]] + resto)
  {
    assert |s| > 1 ==> s[0].fechaProcesamiento >= s[1].fechaProcesamiento;
    AnteponerMasNuevo(s[0], resto);
    assert s == [s[0]] + s[1..];
    assert multiset(s) == multiset{s[0]} + multiset(s[1..]);
    assert multiset([s[0]] + resto) == multiset{s[0]} + multiset(resto);
  }

  lemma MismosElementos(a: seq<Documento>, b: seq<Documento>)
    requires multiset(a) == multiset(b)
    ensures |a| == |b|
    ensures forall x :: x in a <==> x in b
  {
    assert |multiset(a)| == |multiset(b)|;
    forall x ensures x in a <==> x in b {
      assert x in a <==> x in multiset(a);
      assert x in b <==> x in multiset(b);
    }
  }

  /** The records ordered newest first, as a permutation of the input. */
  function OrdenarRecientes(s: seq<Documento>): (r: seq<Documento>)
    ensures multiset(r) == multiset(s)
    ensures |r| == |s| && forall x :: x in r <==> x in s
    ensures NuevosPrimero(r)
  {
    if s == [] then []
    else
      assert s == [s[0]] + s[1..];
      var r := Insertar(s[0], OrdenarRecientes(s[1..]));
      MismosElementos(r, s);
      r
  }

  // ---------------------------------------------------------------------------
  // `DocumentoPagination`.

  /** `page_size = 10`. */
  const TamanoPagina: nat := 10
  /** `max_page_size = 50`. */
  const TamanoPaginaMaximo: nat := 50

  /** The page size a request gets from its `page_size` parameter (None when
      absent or not an integer): the default unless it is a positive
      integer, capped at 50. */
  function TamanoEfectivo(param: Option<int>): (n: nat)
    ensures 1 <= n <= 50
    ensures param.None? || param.value <= 0 ==> n == 10
    ensures param.Some? && 1 <= param.value ==> n == if param.value <= 50 then param.value else 50
  {
    if param.None? || param.value <= 0 then TamanoPagina
    else if param.value > TamanoPaginaMaximo then TamanoPaginaMaximo
    else param.value
  }

  /** The `page` parameter: absent or empty (`page=` is read as page 1, so both are
      `SinPagina`), `last`, an integer, or something else. */
  datatype ParamPagina = SinPagina | Ultima | Numero(n: int) | NoEntero

  /** The paginator's page count: at least one page, even with no results. */
  function NumeroPaginas(total: nat, tam: nat): (n: nat)
    requires tam >= 1
    ensures n >= 1
    ensures total > 0 ==> (n - 1) * tam < total <= n * tam
  {
    if total == 0 then 1 else
      var n := (total + tam - 1) / tam;
      assert n * tam <= total + tam - 1 < (n + 1) * tam;
      n
  }

  /** The page a request resolves to, or None when the paginator rejects the
      number (answered with 404). */
  function PaginaResuelta(param: ParamPagina, numPaginas: nat): (r: Option<nat>)
    requires numPaginas >= 1
    ensures r.Some? ==> 1 <= r.value <= numPaginas
  {
    match param
    case SinPagina => Some(1)
    case Ultima => Some(numPaginas)
    case Numero(n) => if 1 <= n <= numPaginas then Some(n) else None
    case NoEntero => None
  }

  /** Where page `p` starts and ends in `s`. */
  function DesdePagina(n: nat, tam: nat, p: nat): (a: nat)
    requires p >= 1
    ensures a <= n
  {
    if (p - 1) * tam >= n then n else (p - 1) * tam
  }

  function HastaPagina(n: nat, tam: nat, p: nat): (b: nat)
    requires tam >= 1 && p >= 1
    ensures DesdePagina(n, tam, p) <= b <= n
    ensures b - DesdePagina(n, tam, p) <= tam
  {
    assert p * tam == (p - 1) * tam + tam;
    if p * tam >= n then n else p * tam
  }

  /** Page `p` of `s` with `tam` items per page: a slice of `s`. */
  function Pagina<T>(s: seq<T>, tam: nat, p: nat): (r: seq<T>)
    requires tam >= 1 && p >= 1
    ensures |r| <= tam
    ensures r == s[DesdePagina(|s|, tam, p)..HastaPagina(|s|, tam, p)]
  {
    s[DesdePagina(|s|, tam, p)..HastaPagina(|s|, tam, p)]
  }

  /** Pages `1..k` joined back together. */
  function PrimerasPaginas<T>(s: seq<T>, tam: nat, k: nat): seq<T>
    requires tam >= 1
  {
    if k == 0 then [] else PrimerasPaginas(s, tam, k - 1) + Pagina(s, tam, k)
  }

  /** Pages `1..k` are the first `k * tam` items, in order. */
  lemma {:induction false} PrimerasPaginasPrefijo<T>(s: seq<T>, tam: nat, k: nat)
    requires tam >= 1
    ensures PrimerasPaginas(s, tam, k) == s[..if k * tam <= |s| then k * tam else |s|]
  {
    if k > 0 {
      PrimerasPaginasPrefijo(s, tam, k - 1);
      assert (k - 1) * tam + tam == k * tam;
      var a := if (k - 1) * tam <= |s| then (k - 1) * tam else |s|;
      var b := if k * tam <= |s| then k * tam else |s|;
      assert s[..a] + s[a..b] == s[..b];
    }
  }

  /** Reading every page from 1 to the page count gives back every result,
      once each and in order; no result is skipped or repeated. */
  lemma TodasLasPaginas<T>(s: seq<T>, tam: nat)
    requires tam >= 1
    ensures PrimerasPaginas(s, tam, NumeroPaginas(|s|, tam)) == s
  {
    PrimerasPaginasPrefijo(s, tam, NumeroPaginas(|s|, tam));
  }

  // ---------------------------------------------------------------------------
  // `DocumentoBusquedaView`.

  /** The query parameters of a search request. `q` and `global` are None
      when absent; `page_size` is None when absent or not an integer. */
  datatype Consulta = Consulta(q: Option<string>, global: Option<string>,
                               pagina: ParamPagina, tamanoPagina: Option<int>)

  /** `query_params.get('q', '')`, untouched: what the snippet receives. */
  function QCrudo(c: Consulta): string {
    if c.q.None? then "" else c.q.value
  }

  /** `query_params.get('q', '').strip()`: what the filter uses. */
  function TerminoBusqueda(c: Consulta): string {
    Strip(QCrudo(c))
  }

  /** `query_params.get('global', 'false').lower() == 'true'`. */
  function EsGlobal(c: Consulta): bool {
    Lower(if c.global.None? then "false" else c.global.value) == "true"
  }

  /** The queryset of `get_queryset` for a non-empty term. */
  function Candidatos(docs: seq<Documento>, solicitante: Usuario, c: Consulta): (r: seq<Documento>)
    ensures forall d :: d in r <==> d in docs && !d.eliminado
                                    && ContainsCi(d.textoExtraido, TerminoBusqueda(c))
                                    && (EsGlobal(c) || d.usuario.id == solicitante.id)
  {
    if EsGlobal(c) then BusquedaGlobal(docs, TerminoBusqueda(c))
    else BusquedaUsuario(docs, solicitante, TerminoBusqueda(c))
  }

  /** One item of `resultados`, as `DocumentoBusquedaSerializer` renders it. */
  datatype Resultado = Resultado(
    id: nat,
    nombreArchivo: string,
    tamanoLegible: Medida,
    metodo: Metodo,
    fechaProcesamiento: int,
    usuarioInfo: UsuarioInfoBusqueda,
    fragmento: string)

  function ResultadoDe(d: Documento, termino: string): Resultado {
    Resultado(d.id, d.nombreArchivo, MedidaLegible(d.tamanoBytes), d.metodo,
              d.fechaProcesamiento, InfoUsuarioBusqueda(d.usuario),
              FragmentoRelevante(d.textoExtraido, termino))
  }

  /** `paginacion`; the `siguiente` and `anterior` links are modelled by
      whether they are present. */
  datatype Paginacion = Paginacion(
    haySiguiente: bool,
    hayAnterior: bool,
    totalPaginas: nat,
    paginaActual: nat,
    totalDocumentos: nat,
    documentosPorPagina: nat)

  /** `busqueda`, the echo of the query. */
  datatype InfoBusqueda = InfoBusqueda(termino: string, esGlobal: bool, resultadosEncontrados: nat)

  datatype RespuestaBusqueda = RespuestaBusqueda(
    resultados: seq<Resultado>,
    paginacion: Paginacion,
    busqueda: InfoBusqueda)

  /** The error answers of the views. */
  datatype ErrorHttp =
    | SolicitudIncorrecta(mensaje: string)   // 400
    | NoEncontrado                           // 404

  const MensajeSinTermino := "Parámetro de búsqueda \"q\" es requerido"

  /** The serializer applied to each record of a page. */
  function RenderizarPagina(pagina: seq<Documento>, termino: string): (r: seq<Resultado>)
    ensures |r| == |pagina|
    ensures forall i :: 0 <= i < |r| ==> r[i] == ResultadoDe(pagina[i], termino)
  {
    seq(|pagina|, i requires 0 <= i < |pagina| => ResultadoDe(pagina[i], termino))
  }

  /** The scope of a search, newest first. */
  function Ordenados(docs: seq<Documento>, solicitante: Usuario, c: Consulta): (r: seq<Documento>)
    ensures |r| == |Candidatos(docs, solicitante, c)|
    ensures NuevosPrimero(r)
    ensures forall d :: d in r <==> d in docs && !d.eliminado
                                    && ContainsCi(d.textoExtraido, TerminoBusqueda(c))
                                    && (EsGlobal(c) || d.usuario.id == solicitante.id)
  {
    OrdenarRecientes(Candidatos(docs, solicitante, c))
  }

  /** `DocumentoBusquedaView.list`: reject a blank term, resolve the scope,
      order newest first, cut the requested page and render each record
      with a snippet for the raw `q`. */
  function Buscar(docs: seq<Documento>, solicitante: Usuario, c: Consulta): (r: Result<RespuestaBusqueda, ErrorHttp>)
    ensures AllSpace(QCrudo(c)) ==> r == Err(SolicitudIncorrecta(MensajeSinTermino))
    ensures r.Err? ==> r.error == SolicitudIncorrecta(MensajeSinTermino) || r.error == NoEncontrado
    ensures r.Ok? ==> |r.value.resultados| <= TamanoPaginaMaximo
    ensures r.Ok? ==> r.value.busqueda.resultadosEncontrados == |Candidatos(docs, solicitante, c)|
  {
    var termino := TerminoBusqueda(c);
    if termino == [] then Err(SolicitudIncorrecta(MensajeSinTermino))
    else
      var ordenados := Ordenados(docs, solicitante, c);
      var tam := TamanoEfectivo(c.tamanoPagina);
      var total := NumeroPaginas(|ordenados|, tam);
      match PaginaResuelta(c.pagina, total)
      case None => Err(NoEncontrado)
      case Some(p) =>
        Ok(RespuestaBusqueda(
          RenderizarPagina(Pagina(ordenados, tam, p), QCrudo(c)),
          Paginacion(p < total, p > 1, total, p, |ordenados|, TamanoPagina),
          InfoBusqueda(termino, EsGlobal(c), |ordenados|)))
  }

  /** A blank or whitespace-only `q` is refused with 400 before any lookup;
      any other term never gets that answer. */
  lemma BuscarRechazaTerminoVacio(docs: seq<Documento>, solicitante: Usuario, c: Consulta)
    ensures Buscar(docs, solicitante, c).Err? && Buscar(docs, solicitante, c).error.SolicitudIncorrecta?
            <==> AllSpace(QCrudo(c))
  {
  }

  /** The echo and the pagination block of a successful search: the trimmed
      term, the scope, a total that counts every record in scope (the same
      number twice), the class's page size, and consistent page links. */
  lemma BuscarEco(docs: seq<Documento>, solicitante: Usuario, c: Consulta)
    requires Buscar(docs, solicitante, c).Ok?
    ensures var r := Buscar(docs, solicitante, c).value;
      && r.busqueda.termino == TerminoBusqueda(c) != []
      && r.busqueda.esGlobal == EsGlobal(c)
      && r.busqueda.resultadosEncontrados == r.paginacion.totalDocumentos
      && r.paginacion.totalDocumentos == |Candidatos(docs, solicitante, c)|
      && r.paginacion.documentosPorPagina == 10
      && |r.resultados| <= TamanoEfectivo(c.tamanoPagina) <= 50
      && 1 <= r.paginacion.paginaActual <= r.paginacion.totalPaginas
      && (r.paginacion.haySiguiente <==> r.paginacion.paginaActual < r.paginacion.totalPaginas)
      && (r.paginacion.hayAnterior <==> r.paginacion.paginaActual > 1)
  {
  }

  /** The results of a successful search are one slice of the ordered scope. */
  lemma BuscarEsRebanada(docs: seq<Documento>, solicitante: Usuario, c: Consulta)
    requires Buscar(docs, solicitante, c).Ok?
    ensures exists a, b :: 0 <= a <= b <= |Ordenados(docs, solicitante, c)|
              && Buscar(docs, solicitante, c).value.resultados
                 == RenderizarPagina(Ordenados(docs, solicitante, c)[a..b], QCrudo(c))
  {
    var ordenados := Ordenados(docs, solicitante, c);
    var tam := TamanoEfectivo(c.tamanoPagina);
    var p := PaginaResuelta(c.pagina, NumeroPaginas(|ordenados|, tam)).value;
    var a, b := DesdePagina(|ordenados|, tam, p), HastaPagina(|ordenados|, tam, p);
    assert Buscar(docs, solicitante, c).value.resultados == RenderizarPagina(ordenados[a..b], QCrudo(c));
  }

  /** A slice of a newest-first sequence is newest first. */
  lemma RebanadaOrdenada(s: seq<Documento>, a: nat, b: nat)
    requires NuevosPrimero(s) && a <= b <= |s|
    ensures NuevosPrimero(s[a..b])
  {
    var p := s[a..b];
    forall i, j | 0 <= i < j < |p| ensures p[i].fechaProcesamiento >= p[j].fechaProcesamiento {
      assert p[i] == s[a + i] && p[j] == s[a + j];
    }
  }

  /** Rendering keeps each record's processing time, hence the order. */
  lemma RenderizarConservaOrden(pagina: seq<Documento>, q: string)
    requires NuevosPrimero(pagina)
    ensures var r := RenderizarPagina(pagina, q);
      forall i, j :: 0 <= i < j < |r| ==> r[i].fechaProcesamiento >= r[j].fechaProcesamiento
  {
    var r := RenderizarPagina(pagina, q);
    forall i, j | 0 <= i < j < |r| ensures r[i].fechaProcesamiento >= r[j].fechaProcesamiento {
      assert r[i] == ResultadoDe(pagina[i], q) && r[j] == ResultadoDe(pagina[j], q);
    }
  }

  /** A rendered slice of a newest-first sequence is newest first, and each
      item renders one record of the slice. */
  lemma RenderizarRebanada(s: seq<Documento>, a: nat, b: nat, q: string)
    requires NuevosPrimero(s) && a <= b <= |s|
    ensures var r := RenderizarPagina(s[a..b], q);
      && (forall i, j :: 0 <= i < j < |r| ==> r[i].fechaProcesamiento >= r[j].fechaProcesamiento)
      && (forall i :: 0 <= i < |r| ==> s[a + i] in s && r[i] == ResultadoDe(s[a + i], q))
  {
    RebanadaOrdenada(s, a, b);
    RenderizarConservaOrden(s[a..b], q);
    var r := RenderizarPagina(s[a..b], q);
    forall i | 0 <= i < |r| ensures s[a + i] in s && r[i] == ResultadoDe(s[a + i], q) {
      assert s[a..b][i] == s[a + i];
    }
  }

  /** A rendered slice of the ordered scope is newest first, and each of its
      items is a record in scope. */
  lemma RebanadaEnAlcance(docs: seq<Documento>, solicitante: Usuario, c: Consulta, a: nat, b: nat)
    requires a <= b <= |Ordenados(docs, solicitante, c)|
    ensures var r := RenderizarPagina(Ordenados(docs, solicitante, c)[a..b], QCrudo(c));
      && (forall i, j :: 0 <= i < j < |r| ==> r[i].fechaProcesamiento >= r[j].fechaProcesamiento)
      && (forall i :: 0 <= i < |r| ==>
            exists d :: d in docs && !d.eliminado
                        && ContainsCi(d.textoExtraido, TerminoBusqueda(c))
                        && (EsGlobal(c) || d.usuario.id == solicitante.id)
                        && r[i] == ResultadoDe(d, QCrudo(c)))
  {
    var ordenados := Ordenados(docs, solicitante, c);
    RenderizarRebanada(ordenados, a, b, QCrudo(c));
  }

  /** The results of a successful search are newest first, and each one is
      a record in scope, rendered with the snippet for the untrimmed `q`. */
  lemma BuscarResultados(docs: seq<Documento>, solicitante: Usuario, c: Consulta)
    requires Buscar(docs, solicitante, c).Ok?
    ensures var r := Buscar(docs, solicitante, c).value.resultados;
      && (forall i, j :: 0 <= i < j < |r| ==> r[i].fechaProcesamiento >= r[j].fechaProcesamiento)
      && (forall i :: 0 <= i < |r| ==>
            exists d :: d in docs && !d.eliminado
                        && ContainsCi(d.textoExtraido, TerminoBusqueda(c))
                        && (EsGlobal(c) || d.usuario.id == solicitante.id)
                        && r[i] == ResultadoDe(d, QCrudo(c)))
  {
    var ordenados := Ordenados(docs, solicitante, c);
    var tam := TamanoEfectivo(c.tamanoPagina);
    var p := PaginaResuelta(c.pagina, NumeroPaginas(|ordenados|, tam)).value;
    var a, b := DesdePagina(|ordenados|, tam, p), HastaPagina(|ordenados|, tam, p);
    assert Buscar(docs, solicitante, c).value.resultados == RenderizarPagina(ordenados[a..b], QCrudo(c));
    RebanadaEnAlcance(docs, solicitante, c, a, b);
  }

  /** Every active record in scope that contains the term is counted, and
      shows up on one of the pages. */
  lemma BuscarCompleto(docs: seq<Documento>, solicitante: Usuario, c: Consulta, d: Documento)
    requires TerminoBusqueda(c) != []
    requires d in docs && !d.eliminado && ContainsCi(d.textoExtraido, TerminoBusqueda(c))
    requires EsGlobal(c) || d.usuario.id == solicitante.id
    ensures var ordenados := Ordenados(docs, solicitante, c);
            var tam := TamanoEfectivo(c.tamanoPagina);
            d in PrimerasPaginas(ordenados, tam, NumeroPaginas(|ordenados|, tam))
  {
    var ordenados := Ordenados(docs, solicitante, c);
    TodasLasPaginas(ordenados, TamanoEfectivo(c.tamanoPagina));
  }

  /** A record owned by someone else never appears in a personal search. */
  lemma BusquedaPersonalExcluyeAjenos(docs: seq<Documento>, solicitante: Usuario, c: Consulta, d: Documento)
    requires !EsGlobal(c) && d.usuario.id != solicitante.id
    ensures d !in Ordenados(docs, solicitante, c)
  {
  }

  /** `q = " abc "` is trimmed to "abc" for the filter. */
  lemma TerminoRecortado()
    ensures TerminoBusqueda(Consulta(Some(" abc "), None, SinPagina, None)) == "abc"
  {
    StripEjemplo();
    assert QCrudo(Consulta(Some(" abc "), None, SinPagina, None)) == " abc ";
  }

  /** The filter trims `q` but the snippet does not: a text containing
      "abc" is found for `q = " abc "`, yet the snippet does not find
      " abc " in it and falls back to the summary. */
  lemma FragmentoConQSinRecortar()
    ensures ContainsCi("abc", "abc") && !ContainsCi("abc", " abc ")
    ensures FragmentoRelevante("abc", " abc ") == ResumenTexto("abc")
  {
    assert MatchAt(Lower("abc"), Lower("abc"), 0);
  }

  // ---------------------------------------------------------------------------
  // `DocumentoDetailView` and `DocumentoGlobalDetailView`: `get_object()` on
  // the view's queryset, looked up by `id`; no match is a 404.

  /** Primary keys are unique along the table. */
  ghost predicate IdsDistintos(s: seq<Documento>) {
    forall i, j :: 0 <= i < |s| && 0 <= j < |s| && s[i].id == s[j].id ==> i == j
  }

  lemma AlmacenIdsDistintos(almacen: Almacen)
    requires almacen.Valid()
    ensures IdsDistintos(almacen.documentos)
  {
    forall i, j | 0 <= i < |almacen.documentos| && 0 <= j < |almacen.documentos|
                  && almacen.documentos[i].id == almacen.documentos[j].id
      ensures i == j
    {
      IdsUnicos(almacen.documentos, almacen.siguienteId, i, j);
    }
  }

  /** `DocumentoProcesadoSerializer` applied to one record. */
  datatype Detalle = Detalle(
    id: nat,
    nombreArchivo: string,
    tamanoBytes: nat,
    tamanoLegible: Medida,
    textoExtraido: string,
    resumenTexto: string,
    metodo: Metodo,
    fechaProcesamiento: int,
    usuarioInfo: UsuarioInfo,
    eliminado: bool)

  function DetalleDe(d: Documento): (r: Detalle)
    ensures r.id == d.id && r.textoExtraido == d.textoExtraido && r.nombreArchivo == d.nombreArchivo
    ensures r.usuarioInfo.id == d.usuario.id && r.eliminado == d.eliminado
  {
    Detalle(d.id, d.nombreArchivo, d.tamanoBytes, MedidaLegible(d.tamanoBytes), d.textoExtraido,
            ResumenTexto(d.textoExtraido), d.metodo, d.fechaProcesamiento, InfoUsuario(d.usuario), d.eliminado)
  }

  /** The owner-only detail: found exactly when an active record of the
      requester carries that id; another user's record and a deleted one
      are both answered with 404. */
  function ObtenerDetalle(docs: seq<Documento>, solicitante: Usuario, id: nat): (r: Result<Detalle, ErrorHttp>)
    ensures r.Ok? <==> exists d :: d in docs && d.id == id && !d.eliminado && d.usuario.id == solicitante.id
    ensures r.Ok? ==> exists d :: d in docs && d.id == id && !d.eliminado && d.usuario.id == solicitante.id
                                  && r.value == DetalleDe(d)
    ensures r.Err? ==> r.error == NoEncontrado
  {
    match BuscarPorId(PorUsuario(docs, solicitante), id)
    case None => Err(NoEncontrado)
    case Some(d) => Ok(DetalleDe(d))
  }

  /** The global detail: any active record, whoever owns it. */
  function ObtenerDetalleGlobal(docs: seq<Documento>, id: nat): (r: Result<Detalle, ErrorHttp>)
    ensures r.Ok? <==> exists d :: d in docs && d.id == id && !d.eliminado
    ensures r.Ok? ==> exists d :: d in docs && d.id == id && !d.eliminado && r.value == DetalleDe(d)
    ensures r.Err? ==> r.error == NoEncontrado
  {
    match BuscarPorId(Activos(docs), id)
    case None => Err(NoEncontrado)
    case Some(d) => Ok(DetalleDe(d))
  }

  /** Whatever the owner-only detail finds, the global detail finds too, and
      answers with the same record. */
  lemma DetalleGlobalAmplia(docs: seq<Documento>, solicitante: Usuario, id: nat)
    requires IdsDistintos(docs)
    requires ObtenerDetalle(docs, solicitante, id).Ok?
    ensures ObtenerDetalleGlobal(docs, id) == ObtenerDetalle(docs, solicitante, id)
  {
    var propio := ObtenerDetalle(docs, solicitante, id).value;
    var d1 :| d1 in docs && d1.id == id && !d1.eliminado && d1.usuario.id == solicitante.id
              && propio == DetalleDe(d1);
    var global := ObtenerDetalleGlobal(docs, id).value;
    var d2 :| d2 in docs && d2.id == id && !d2.eliminado && global == DetalleDe(d2);
    var i :| 0 <= i < |docs| && docs[i] == d1;
    var j :| 0 <= j < |docs| && docs[j] == d2;
  }

  // ---------------------------------------------------------------------------
  // `DocumentoDeleteView`: the owner-only lookup, then the record's soft
  // `delete()`.

  /** The body of a successful delete. */
  datatype Eliminacion = Eliminacion(id: nat, nombreArchivo: string, mensaje: string)

  function MensajeEliminado(nombre: string): string {
    "Documento \"" + nombre + "\" eliminado exitosamente"
  }

  /** `destroy`: a 404 that changes nothing unless an active record of the
      requester has that id; otherwise exactly that record is soft-deleted. */
  method EliminarDocumento(almacen: Almacen, solicitante: Usuario, id: nat, ahora: int)
    returns (r: Result<Eliminacion, ErrorHttp>)
    requires almacen.Valid()
    modifies almacen
    ensures almacen.Valid() && almacen.siguienteId == old(almacen.siguienteId)
    ensures r.Ok? <==> ObtenerDetalle(old(almacen.documentos), solicitante, id).Ok?
    ensures r.Err? ==> r.error == NoEncontrado && almacen.documentos == old(almacen.documentos)
    ensures r.Ok? ==> exists i :: 0 <= i < |old(almacen.documentos)| && old(almacen.documentos)[i].id == id
                        && almacen.documentos == old(almacen.documentos)[i := EliminadoSuave(old(almacen.documentos)[i], ahora)]
                        && r.value == Eliminacion(id, old(almacen.documentos)[i].nombreArchivo,
                                                  MensajeEliminado(old(almacen.documentos)[i].nombreArchivo))
  {
    AlmacenIdsDistintos(almacen);
    var docs := almacen.documentos;
    var indice := IndicePorId(docs, id);
    if indice.None? {
      return Err(NoEncontrado);
    }
    var i := indice.value;
    if docs[i].eliminado || docs[i].usuario.id != solicitante.id {
      forall d | d in docs && d.id == id ensures d.eliminado || d.usuario.id != solicitante.id {
        var j :| 0 <= j < |docs| && docs[j] == d;
      }
      return Err(NoEncontrado);
    }
    var nombre := docs[i].nombreArchivo;
    almacen.EliminarSuave(i, ahora);
    r := Ok(Eliminacion(id, nombre, MensajeEliminado(nombre)));
  }

  /** After the soft delete of record `i`, nothing reaches it by its id any
      more: neither detail view, the active set, nor any search; every other
      active record stays active. */
  lemma TrasEliminar(docs: seq<Documento>, i: nat, ahora: int, u: Usuario, t: string)
    requires IdsDistintos(docs) && i < |docs|
    ensures var nuevos := docs[i := EliminadoSuave(docs[i], ahora)];
      && ObtenerDetalle(nuevos, u, docs[i].id) == Err(NoEncontrado)
      && ObtenerDetalleGlobal(nuevos, docs[i].id) == Err(NoEncontrado)
      && (forall d :: d in Activos(nuevos) <==> d in Activos(docs) && d.id != docs[i].id)
      && (forall d :: d in BusquedaGlobal(nuevos, t) ==> d.id != docs[i].id)
      && (forall d :: d in BusquedaUsuario(nuevos, u, t) ==> d.id != docs[i].id)
  {
    var nuevos := docs[i := EliminadoSuave(docs[i], ahora)];
    forall d | d in nuevos && d.id == docs[i].id ensures d.eliminado {
      var j :| 0 <= j < |nuevos| && nuevos[j] == d;
      assert docs[j].id == nuevos[j].id;
    }
    forall d ensures d in Activos(nuevos) <==> d in Activos(docs) && d.id != docs[i].id {
      if d in nuevos && !d.eliminado {
        var j :| 0 <= j < |nuevos| && nuevos[j] == d;
        assert j != i && docs[j] == d;
      }
      if d in docs && !d.eliminado && d.id != docs[i].id {
        var j :| 0 <= j < |docs| && docs[j] == d;
        assert nuevos[j] == d;
      }
    }
  }

  // ---------------------------------------------------------------------------
  // `DocumentoEstadisticasView`: aggregates over `por_usuario(request.user)`.

  /** `Sum('tamaño_bytes') or 0`. */
  function SumaTamanos(s: seq<Documento>): (r: nat)
    ensures s == [] ==> r == 0
    ensures forall d :: d in s ==> d.tamanoBytes <= r
  {
    if s == [] then 0 else s[0].tamanoBytes + SumaTamanos(s[1..])
  }

  /** The `Count('id')` of one `metodo_extraccion` group. */
  function ContarMetodo(s: seq<Documento>, m: Metodo): (n: nat)
    ensures n <= |s|
    ensures n == 0 <==> forall d :: d in s ==> d.metodo != m
  {
    if s == [] then 0
    else (if s[0].metodo == m then 1 else 0) + ContarMetodo(s[1..], m)
  }

  /** `filter(fecha_procesamiento__gte=limite).count()`. */
  function ContarDesde(s: seq<Documento>, limite: int): (n: nat)
    ensures n <= |s|
    ensures n == 0 <==> forall d :: d in s ==> d.fechaProcesamiento < limite
    ensures n == |s| <==> forall d :: d in s ==> d.fechaProcesamiento >= limite
  {
    if s == [] then 0
    else (if s[0].fechaProcesamiento >= limite then 1 else 0) + ContarDesde(s[1..], limite)
  }

  lemma {:induction false} SumaTamanosConcat(a: seq<Documento>, b: seq<Documento>)
    ensures SumaTamanos(a + b) == SumaTamanos(a) + SumaTamanos(b)
  {
    if a == [] {
      assert a + b == b;
    } else {
      assert (a + b)[0] == a[0] && (a + b)[1..] == a[1..] + b;
      SumaTamanosConcat(a[1..], b);
    }
  }

  lemma {:induction false} ContarMetodoConcat(a: seq<Documento>, b: seq<Documento>, m: Metodo)
    ensures ContarMetodo(a + b, m) == ContarMetodo(a, m) + ContarMetodo(b, m)
  {
    if a == [] {
      assert a + b == b;
    } else {
      assert (a + b)[0] == a[0] && (a + b)[1..] == a[1..] + b;
      ContarMetodoConcat(a[1..], b, m);
    }
  }

  lemma {:induction false} ContarDesdeConcat(a: seq<Documento>, b: seq<Documento>, limite: int)
    ensures ContarDesde(a + b, limite) == ContarDesde(a, limite) + ContarDesde(b, limite)
  {
    if a == [] {
      assert a + b == b;
    } else {
      assert (a + b)[0] == a[0] && (a + b)[1..] == a[1..] + b;
      ContarDesdeConcat(a[1..], b, limite);
    }
  }

  /** Every record has exactly one of the two methods. */
  lemma {:induction false} MetodosSuman(s: seq<Documento>)
    ensures ContarMetodo(s, Ocr) + ContarMetodo(s, PyPdf) == |s|
  {
    if s != [] {
      MetodosSuman(s[1..]);
    }
  }

  /** `timedelta(days=7)` in seconds. */
  const SieteDias: int := 7 * 24 * 60 * 60

  /** One row of `distribucion_por_metodo`. */
  datatype FilaMetodo = FilaMetodo(metodo: Metodo, cantidad: nat)

  /** Python's `<` on strings: code point by code point, a proper prefix
      first. */
  predicate AntesAlfabetico(a: string, b: string) {
    if a == [] then b != []
    else if b == [] then false
    else a[0] < b[0] || (a[0] == b[0] && AntesAlfabetico(a[1..], b[1..]))
  }

  function SumaCantidades(filas: seq<FilaMetodo>): nat {
    if filas == [] then 0 else filas[0].cantidad + SumaCantidades(filas[1..])
  }

  /** `values('metodo_extraccion').annotate(cantidad=Count('id'))
      .order_by('metodo_extraccion')`: one row per method that occurs, with
      its count, ordered by the stored method name. */
  function Distribucion(s: seq<Documento>): (r: seq<FilaMetodo>)
    ensures forall f :: f in r <==> f.cantidad > 0 && f.cantidad == ContarMetodo(s, f.metodo)
    ensures forall i, j :: 0 <= i < j < |r| ==> AntesAlfabetico(NombreMetodo(r[i].metodo), NombreMetodo(r[j].metodo))
    ensures SumaCantidades(r) == |s|
  {
    var ocr := ContarMetodo(s, Ocr);
    var pypdf := ContarMetodo(s, PyPdf);
    MetodosSuman(s);
    FilasDeConteos(ocr, pypdf);
    assert forall m: Metodo {:trigger ContarMetodo(s, m)} :: ContarMetodo(s, m) == (if m == Ocr then ocr else pypdf);
    Filas(ocr, pypdf)
  }

  /** The grouped rows for `ocr` OCR records and `pypdf` direct ones. */
  function Filas(ocr: nat, pypdf: nat): seq<FilaMetodo> {
    (if ocr > 0 then [FilaMetodo(Ocr, ocr)] else []) + (if pypdf > 0 then [FilaMetodo(PyPdf, pypdf)] else [])
  }

  lemma FilasDeConteos(ocr: nat, pypdf: nat)
    ensures var r := Filas(ocr, pypdf);
      && (forall f :: f in r <==> f.cantidad > 0 && f.cantidad == (if f.metodo == Ocr then ocr else pypdf))
      && (forall i, j :: 0 <= i < j < |r| ==> AntesAlfabetico(NombreMetodo(r[i].metodo), NombreMetodo(r[j].metodo)))
      && SumaCantidades(r) == ocr + pypdf
  {
    var r := Filas(ocr, pypdf);
    assert AntesAlfabetico("ocr", "pypdf");
    if ocr > 0 && pypdf > 0 {
      assert r[1..] == [FilaMetodo(PyPdf, pypdf)] && r[1..][1..] == [];
      assert SumaCantidades(r[1..]) == pypdf;
    } else if r != [] {
      assert r[1..] == [];
    }
  }

  /** Both methods occur: the OCR row comes first. */
  lemma DistribucionDosMetodos(s: seq<Documento>)
    requires ContarMetodo(s, Ocr) > 0 && ContarMetodo(s, PyPdf) > 0
    ensures Distribucion(s) == [FilaMetodo(Ocr, ContarMetodo(s, Ocr)), FilaMetodo(PyPdf, ContarMetodo(s, PyPdf))]
  {
  }

  /** `_format_size`'s answer: "0 B" for zero, else the unit ladder. */
  datatype TamanoFormateado = CeroB | Escalado(medida: Medida)

  /** Zero answers "0 B"; any other size climbs the same ladder as
      `tamaño_legible`. */
  function FormatoTamano(bytes: nat): (r: TamanoFormateado)
    ensures r.CeroB? <==> bytes == 0
    ensures r.Escalado? ==> r.medida == MedidaLegible(bytes)
  {
    if bytes == 0 then CeroB else Escalado(MedidaLegible(bytes))
  }

  /** `_format_size`, as the loop over the units computes it. */
  method FormatearTamano(bytes: nat) returns (r: TamanoFormateado)
    ensures r == FormatoTamano(bytes)
  {
    if bytes == 0 {
      return CeroB;
    }
    var m := TamanoLegible(bytes);
    r := Escalado(m);
  }

  /** The statistics response. The average processing time is not
      modelled. */
  datatype Estadisticas = Estadisticas(
    totalDocumentos: nat,
    totalTamanoBytes: nat,
    totalTamanoLegible: TamanoFormateado,
    distribucion: seq<FilaMetodo>,
    recientes: nat,
    usuario: string)

  /** `DocumentoEstadisticasView.get` at time `ahora`: everything is
      computed over the requester's active records; the method rows add up
      to the total and the recent count never exceeds it. */
  function CalcularEstadisticas(docs: seq<Documento>, solicitante: Usuario, ahora: int): (r: Estadisticas)
    ensures r.totalDocumentos == |PorUsuario(docs, solicitante)|
    ensures SumaCantidades(r.distribucion) == r.totalDocumentos
    ensures r.recientes <= r.totalDocumentos
    ensures r.totalDocumentos == 0 ==> r.totalTamanoBytes == 0 && r.distribucion == [] && r.totalTamanoLegible == CeroB
    ensures r.usuario == solicitante.username
  {
    var propios := PorUsuario(docs, solicitante);
    var total := SumaTamanos(propios);
    Estadisticas(|propios|, total, FormatoTamano(total), Distribucion(propios),
                 ContarDesde(propios, ahora - SieteDias), solicitante.username)
  }

  /** Another user's record, or a deleted one, changes nothing in the
      statistics. */
  lemma EstadisticasIgnoranAjenos(docs: seq<Documento>, d: Documento, u: Usuario, ahora: int)
    requires d.eliminado || d.usuario.id != u.id
    ensures CalcularEstadisticas(docs + [d], u, ahora) == CalcularEstadisticas(docs, u, ahora)
  {
    PorUsuarioAnadir(docs, d, u);
    assert PorUsuario(docs, u) + [] == PorUsuario(docs, u);
  }

  /** A new active record of the requester adds one to the total, its size
      to the byte total, one to its method's row, and one to the recent
      count when it is at most seven days old. */
  lemma EstadisticasTrasSubida(docs: seq<Documento>, d: Documento, u: Usuario, ahora: int)
    requires !d.eliminado && d.usuario.id == u.id
    ensures var antes, despues := CalcularEstadisticas(docs, u, ahora), CalcularEstadisticas(docs + [d], u, ahora);
      && despues.totalDocumentos == antes.totalDocumentos + 1
      && despues.totalTamanoBytes == antes.totalTamanoBytes + d.tamanoBytes
      && despues.recientes == antes.recientes + (if d.fechaProcesamiento >= ahora - SieteDias then 1 else 0)
      && ContarMetodo(PorUsuario(docs + [d], u), d.metodo) == ContarMetodo(PorUsuario(docs, u), d.metodo) + 1
  {
    var propios := PorUsuario(docs, u);
    PorUsuarioAnadir(docs, d, u);
    SumaTamanosConcat(propios, [d]);
    ContarDesdeConcat(propios, [d], ahora - SieteDias);
    ContarMetodoConcat(propios, [d], d.metodo);
  }

  /** The scenario of the statistics test: two active records of 1024 and
      2048 bytes for the requester, one by direct text and one by OCR, and
      an active record of another user. */
  lemma EscenarioPropios(d1: Documento, d2: Documento, d3: Documento, u: Usuario)
    requires !d1.eliminado && !d2.eliminado
    requires d1.usuario.id == u.id && d2.usuario.id == u.id && d3.usuario.id != u.id
    ensures PorUsuario([d1, d2, d3], u) == [d1, d2]
  {
    var s := [d1, d2, d3];
    assert s[1..] == [d2, d3] && [d2, d3][1..] == [d3] && [d3][1..] == [];
    var resto := NoEliminados([d3]);
    assert DeUsuario(resto, u) == [] by {
      assert resto == [] || resto == [d3];
    }
    assert NoEliminados(s) == [d1, d2] + resto;
    DeUsuarioConcat([d1, d2], resto, u);
    assert [d1, d2][1..] == [d2];
  }

  lemma EstadisticasEscenario(d1: Documento, d2: Documento, d3: Documento, u: Usuario, ahora: int)
    requires !d1.eliminado && !d2.eliminado
    requires d1.usuario.id == u.id && d2.usuario.id == u.id && d3.usuario.id != u.id
    requires d1.tamanoBytes == 1024 && d2.tamanoBytes == 2048
    requires d1.metodo == PyPdf && d2.metodo == Ocr
    requires d1.fechaProcesamiento == ahora && d2.fechaProcesamiento == ahora
    ensures var r := CalcularEstadisticas([d1, d2, d3], u, ahora);
      && r.totalDocumentos == 2 && r.totalTamanoBytes == 3072
      && r.distribucion == [FilaMetodo(Ocr, 1), FilaMetodo(PyPdf, 1)]
      && r.recientes == 2
  {
    EscenarioPropios(d1, d2, d3, u);
    var propios := [d1, d2];
    assert propios[1..] == [d2] && propios[1..][1..] == [];
    assert SumaTamanos(propios) == 3072;
    assert ContarMetodo(propios, Ocr) == 1 && ContarMetodo(propios, PyPdf) == 1;
    assert ContarDesde(propios, ahora - SieteDias) == 2;
    DistribucionDosMetodos(propios);
  }

  // ---------------------------------------------------------------------------
  // `PDFProcessingView.post`: the checks of the upload, in order, then the
  // extraction and the save through `DocumentoCreacionSerializer`.

  /** The uploaded `archivo`: its name, its size and what the PDF libraries
      would read from each of its pages. */
  datatype Archivo = Archivo(nombre: string, tamano: nat, paginas: Paginas)

  /** The error answers of the upload, in the order they are checked. */
  datatype ErrorSubida =
    | SinArchivo                      // 400
    | NoEsPdf                         // 400
    | DemasiadoGrande(tamano: nat)    // 413
    | TextoInsuficiente               // 422
    | DatosInvalidos(campos: seq<Campo>)   // 400

  function CodigoDe(e: ErrorSubida): (codigo: nat)
    ensures codigo in {400, 413, 422}
    ensures codigo == 413 <==> e.DemasiadoGrande?
    ensures codigo == 422 <==> e.TextoInsuficiente?
  {
    match e
    case SinArchivo => 400
    case NoEsPdf => 400
    case DemasiadoGrande(_) => 413
    case TextoInsuficiente => 422
    case DatosInvalidos(_) => 400
  }

  /** `mapeo_metodos.get(metodo_usado, "pypdf")`. */
  function MetodoBd(etiqueta: string): (m: Metodo)
    ensures m == Ocr <==> etiqueta == EtiquetaOcr
  {
    if etiqueta == EtiquetaPyMuPdf then PyPdf
    else if etiqueta == EtiquetaOcr then Ocr
    else PyPdf
  }

  /** `archivo.name.lower().endswith('.pdf')`. */
  predicate EsNombrePdf(nombre: string) {
    EndsWith(Lower(nombre), ".pdf")
  }

  /** The `datos_documento` handed to the serializer: the name and size as
      received, the extracted text, and the mapped method. */
  function DatosSubida(a: Archivo): DatosCreacion {
    var e := ExtraccionEsperada(a.paginas);
    DatosCreacion(a.nombre, a.tamano, e.texto, MetodoBd(e.metodo))
  }

  /** The checks of `post` up to the serializer, first failure wins: a
      missing file, a name not ending in ".pdf" in any case, a size over
      50 MiB, an extracted text with fewer than 10 characters once stripped,
      and last the serializer's own field errors. On success, the data the
      serializer saves. */
  function ValidarSubida(archivo: Option<Archivo>): (r: Result<DatosCreacion, ErrorSubida>)
    ensures archivo.None? ==> r == Err(SinArchivo)
    ensures archivo.Some? && !EsNombrePdf(archivo.value.nombre) ==> r == Err(NoEsPdf)
    ensures archivo.Some? && EsNombrePdf(archivo.value.nombre) && archivo.value.tamano > TamanoMaximo
            ==> r == Err(DemasiadoGrande(archivo.value.tamano))
    ensures archivo.Some? && EsNombrePdf(archivo.value.nombre) && archivo.value.tamano <= TamanoMaximo
            ==> (|Strip(DatosSubida(archivo.value).textoExtraido)| < 10 ==> r == Err(TextoInsuficiente))
    ensures archivo.Some? && EsNombrePdf(archivo.value.nombre) && archivo.value.tamano <= TamanoMaximo
            && |Strip(DatosSubida(archivo.value).textoExtraido)| >= 10
            ==> r == (if ValidarCreacion(DatosSubida(archivo.value)).Ok?
                      then Ok(ValidarCreacion(DatosSubida(archivo.value)).value)
                      else Err(DatosInvalidos(ValidarCreacion(DatosSubida(archivo.value)).error)))
  {
    if archivo.None? then Err(SinArchivo)
    else
      var a := archivo.value;
      if !EsNombrePdf(a.nombre) then Err(NoEsPdf)
      else if a.tamano > TamanoMaximo then Err(DemasiadoGrande(a.tamano))
      else
        var datos := DatosSubida(a);
        if datos.textoExtraido == [] || |Strip(datos.textoExtraido)| < 10 then Err(TextoInsuficiente)
        else
          match ValidarCreacion(datos)
          case Ok(v) => Ok(v)
          case Err(campos) => Err(DatosInvalidos(campos))
  }

  /** A name that passes the extension check is not blank. */
  lemma NombrePdfNoVacio(n: string)
    requires EsNombrePdf(n)
    ensures Strip(n) != []
  {
    assert Lower(n)[|n| - 1] == ".pdf"[3];
    assert !IsSpace(n[|n| - 1]);
  }

  /** The text check of `post` is stronger than the serializer's, so the only
      field error left is a name longer than 255 characters. */
  lemma SubidaSoloFallaPorNombreLargo(archivo: Option<Archivo>)
    requires ValidarSubida(archivo).Err? && ValidarSubida(archivo).error.DatosInvalidos?
    ensures ValidarSubida(archivo).error.campos == [NombreArchivo]
    ensures |Strip(archivo.value.nombre)| > 255
  {
    NombrePdfNoVacio(archivo.value.nombre);
    var datos := DatosSubida(archivo.value);
    assert Strip(datos.textoExtraido) != [];
  }

  /** Whatever `post` stores also passes the two field validators of
      `DocumentoProcesadoSerializer`: its text, already stripped, keeps at
      least 10 characters, and its size is at most 50 MiB. */
  lemma SubidaCumpleValidadores(archivo: Option<Archivo>)
    requires ValidarSubida(archivo).Ok?
    ensures var datos := ValidarSubida(archivo).value;
      && ValidarTextoExtraido(datos.textoExtraido) == Ok(datos.textoExtraido)
      && ValidarTamanoBytes(datos.tamanoBytes) == Ok(datos.tamanoBytes)
  {
    var a := archivo.value;
    var enviados := DatosSubida(a);
    assert EsNombrePdf(a.nombre) && a.tamano <= TamanoMaximo && |Strip(enviados.textoExtraido)| >= 10;
    assert ValidarCreacion(enviados).Ok?;
    var datos := ValidarCreacion(enviados).value;
    assert ValidarSubida(archivo).value == datos;
    var t := datos.textoExtraido;
    assert t == Strip(enviados.textoExtraido);
    StripNoSpace(t);
  }

  /** The body of the 201 answer. The text and the name are echoed as
      received; the stored row holds them stripped. */
  datatype Subida = Subida(
    documentoId: nat,
    textoExtraido: string,
    nombreArchivo: string,
    tamanoBytes: nat,
    tamanoLegible: Medida,
    metodo: string,
    fechaProcesamiento: int)

  /** The row `create` saves for the requester at time `ahora`. */
  predicate Guardado(d: Documento, solicitante: Usuario, datos: DatosCreacion, ahora: int) {
    && d.usuario == solicitante && !d.eliminado && d.fechaProcesamiento == ahora
    && d.nombreArchivo == datos.nombreArchivo && d.tamanoBytes == datos.tamanoBytes
    && d.textoExtraido == datos.textoExtraido && d.metodo == datos.metodo
  }

  /** The 201 body for the saved row `d` of upload `a`. */
  function RespuestaSubida(d: Documento, a: Archivo): Subida {
    var e := ExtraccionEsperada(a.paginas);
    Subida(d.id, e.texto, a.nombre, a.tamano, MedidaLegible(d.tamanoBytes), e.metodo, d.fechaProcesamiento)
  }

  /** The part of `post` after the three request checks: extract the text
      and check it. */
  method ExtraerYGuardar(almacen: Almacen, solicitante: Usuario, a: Archivo, ahora: int)
    returns (r: Result<Subida, ErrorSubida>)
    requires almacen.Valid()
    requires EsNombrePdf(a.nombre) && a.tamano <= TamanoMaximo
    modifies almacen
    ensures almacen.Valid()
    ensures r.Err? <==> ValidarSubida(Some(a)).Err?
    ensures r.Err? ==> r.error == ValidarSubida(Some(a)).error && almacen.documentos == old(almacen.documentos)
    ensures r.Ok? ==> exists d :: d in almacen.documentos && Guardado(d, solicitante, ValidarSubida(Some(a)).value, ahora)
                                   && almacen.documentos == old(almacen.documentos) + [d]
                                   && r.value == RespuestaSubida(d, a)
  {
    var resultado := ExtraerTexto(a.paginas);
    var texto := resultado.texto;
    if texto == [] || |Strip(texto)| < 10 {
      assert ValidarSubida(Some(a)) == Err(TextoInsuficiente);
      return Err(TextoInsuficiente);
    }
    var datos := DatosCreacion(a.nombre, a.tamano, texto, MetodoBd(resultado.metodo));
    assert datos == DatosSubida(a);
    SubidaSegunCreacion(a);
    r := GuardarConSerializador(almacen, solicitante, a, resultado, datos, ahora);
  }

  /** Past the request checks and the text check, `post` answers what the
      creation serializer answers. */
  lemma SubidaSegunCreacion(a: Archivo)
    requires EsNombrePdf(a.nombre) && a.tamano <= TamanoMaximo
    requires |Strip(DatosSubida(a).textoExtraido)| >= 10
    ensures ValidarCreacion(DatosSubida(a)).Err? ==>
      ValidarSubida(Some(a)) == Err(DatosInvalidos(ValidarCreacion(DatosSubida(a)).error))
    ensures ValidarCreacion(DatosSubida(a)).Ok? ==>
      ValidarSubida(Some(a)) == Ok(ValidarCreacion(DatosSubida(a)).value)
  {
    var v := ValidarSubida(Some(a));
    if ValidarCreacion(DatosSubida(a)).Ok? {
      assert v == Ok(ValidarCreacion(DatosSubida(a)).value);
    } else {
      assert v == Err(DatosInvalidos(ValidarCreacion(DatosSubida(a)).error));
    }
  }

  /** `serializer.is_valid()` and `serializer.save()` on the data `datos`
      built from the upload and its extraction: 400 with the field errors,
      or the saved row and the 201 body. */
  method GuardarConSerializador(almacen: Almacen, solicitante: Usuario, a: Archivo, resultado: Extraccion,
                                datos: DatosCreacion, ahora: int)
    returns (r: Result<Subida, ErrorSubida>)
    requires almacen.Valid()
    modifies almacen
    ensures almacen.Valid()
    ensures r.Err? <==> ValidarCreacion(datos).Err?
    ensures r.Err? ==> r.error == DatosInvalidos(ValidarCreacion(datos).error)
                       && almacen.documentos == old(almacen.documentos)
    ensures r.Ok? ==> exists d :: d in almacen.documentos && Guardado(d, solicitante, ValidarCreacion(datos).value, ahora)
                                   && almacen.documentos == old(almacen.documentos) + [d]
                                   && r.value == Subida(d.id, resultado.texto, a.nombre, a.tamano,
                                                        MedidaLegible(d.tamanoBytes), resultado.metodo,
                                                        d.fechaProcesamiento)
  {
    var validacion := ValidarCreacion(datos);
    if validacion.Err? {
      return Err(DatosInvalidos(validacion.error));
    }
    var d := CrearDocumento(almacen, solicitante, validacion.value, ahora);
    var legible := TamanoLegible(d.tamanoBytes);
    r := Ok(Subida(d.id, resultado.texto, a.nombre, a.tamano, legible, resultado.metodo, d.fechaProcesamiento));
    assert d in almacen.documentos;
  }

  /** `post` at time `ahora`: an error changes nothing; a success appends
      one active record owned by the requester, holding the validated data. */
  method ProcesarPdf(almacen: Almacen, solicitante: Usuario, archivo: Option<Archivo>, ahora: int)
    returns (r: Result<Subida, ErrorSubida>)
    requires almacen.Valid()
    modifies almacen
    ensures almacen.Valid()
    ensures r.Err? <==> ValidarSubida(archivo).Err?
    ensures r.Err? ==> r.error == ValidarSubida(archivo).error && almacen.documentos == old(almacen.documentos)
    ensures r.Ok? ==> exists d :: d in almacen.documentos && Guardado(d, solicitante, ValidarSubida(archivo).value, ahora)
                                   && almacen.documentos == old(almacen.documentos) + [d]
                                   && r.value == RespuestaSubida(d, archivo.value)
  {
    if archivo.None? {
      return Err(SinArchivo);
    }
    var a := archivo.value;
    if !EsNombrePdf(a.nombre) {
      return Err(NoEsPdf);
    }
    if a.tamano > TamanoMaximo {
      return Err(DemasiadoGrande(a.tamano));
    }
    r := ExtraerYGuardar(almacen, solicitante, a, ahora);
  }
}
