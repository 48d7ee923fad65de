/** The document record `DocumentoProcesado`, its manager's scoped queries,
    its soft delete and its two derived views (`tamaño_legible`,
    `resumen_texto`), plus the store of records those queries run over. */
module Models {
  import opened Wrappers
  import opened Strings

  /** The parts of Django's `User` that the document code reads. Records
      refer to their owner by the user's primary key `id`. */
  datatype Usuario = Usuario(id: nat, username: string, firstName: string, lastName: string)

  /** The two choices of the `metodo_extraccion` field. */
  datatype Metodo = PyPdf | Ocr

  /** The stored value of a method choice; the statistics order by it. */
  function NombreMetodo(m: Metodo): string {
    match m
    case PyPdf => "pypdf"
    case Ocr => "ocr"
  }

  /** One `DocumentoProcesado` row. Times are seconds on one clock.
      `tiempo_procesamiento` (a decimal) is not modelled. */
  datatype Documento = Documento(
    id: nat,
    usuario: Usuario,
    nombreArchivo: string,
    tamanoBytes: nat,
    textoExtraido: string,
    metodo: Metodo,
    fechaProcesamiento: int,
    actualizadoEn: int,
    eliminado: bool,
    fechaEliminacion: Option<int>)

  /** The fields a new record is created from (the creation serializer's
      validated data, without the owner). */
  datatype DatosCreacion = DatosCreacion(
    nombreArchivo: string,
    tamanoBytes: nat,
    textoExtraido: string,
    metodo: Metodo)

  // ---------------------------------------------------------------------------
  // The manager's filters. Each keeps table order, not the queryset's
  // default ordering (`Meta.ordering`), which only the search applies.

  /** `filter(eliminado=False)`. */
  function NoEliminados(s: seq<Documento>): (r: seq<Documento>)
    ensures |r| <= |s|
    ensures forall d :: d in r <==> d in s && !d.eliminado
  {
    if s == [] then []
    else if !s[0].eliminado then [s[0]] + NoEliminados(s[1..])
    else NoEliminados(s[1..])
  }

  /** `filter(usuario=u)`: the rows whose owner has `u`'s primary key. */
  function DeUsuario(s: seq<Documento>, u: Usuario): (r: seq<Documento>)
    ensures |r| <= |s|
    ensures forall d :: d in r <==> d in s && d.usuario.id == u.id
  {
    if s == [] then []
    else if s[0].usuario.id == u.id then [s[0]] + DeUsuario(s[1..], u)
    else DeUsuario(s[1..], u)
  }

  /** `filter(texto_extraido__icontains=t)`. */
  function QueContienen(s: seq<Documento>, t: string): (r: seq<Documento>)
    ensures |r| <= |s|
    ensures forall d :: d in r <==> d in s && ContainsCi(d.textoExtraido, t)
  {
    if s == [] then []
    else if ContainsCi(s[0].textoExtraido, t) then [s[0]] + QueContienen(s[1..], t)
    else QueContienen(s[1..], t)
  }

  /** `DocumentoManager.activos`: exactly the records not soft-deleted. */
  function Activos(s: seq<Documento>): (r: seq<Documento>)
    ensures forall d :: d in r <==> d in s && !d.eliminado
  {
    NoEliminados(s)
  }

  /** `DocumentoManager.por_usuario`: the active records owned by `u`. */
  function PorUsuario(s: seq<Documento>, u: Usuario): (r: seq<Documento>)
    ensures forall d :: d in r <==> d in s && !d.eliminado && d.usuario.id == u.id
    ensures |r| <= |Activos(s)|
  {
    DeUsuario(Activos(s), u)
  }

  /** `DocumentoManager.busqueda_global`: the active records whose text
      contains `t`, ignoring case. */
  function BusquedaGlobal(s: seq<Documento>, t: string): (r: seq<Documento>)
    ensures forall d :: d in r <==> d in s && !d.eliminado && ContainsCi(d.textoExtraido, t)
    ensures |r| <= |Activos(s)|
  {
    QueContienen(Activos(s), t)
  }

  /** `DocumentoManager.busqueda_usuario`: `u`'s active records whose text
      contains `t`, ignoring case. */
  function BusquedaUsuario(s: seq<Documento>, u: Usuario, t: string): (r: seq<Documento>)
    ensures forall d :: d in r <==> d in s && !d.eliminado && d.usuario.id == u.id
                                    && ContainsCi(d.textoExtraido, t)
    ensures |r| <= |PorUsuario(s, u)|
  {
    QueContienen(PorUsuario(s, u), t)
  }

  /** The two filters commute, and order is kept on both sides. */
  lemma {:induction false} FiltrosConmutan(s: seq<Documento>, u: Usuario, t: string)
    ensures QueContienen(DeUsuario(s, u), t) == DeUsuario(QueContienen(s, t), u)
  {
    if s != [] {
      FiltrosConmutan(s[1..], u, t);
    }
  }

  /** The personal search is the global search restricted to one owner, so
      it never holds more results. */
  lemma BusquedaUsuarioEsGlobalRestringida(s: seq<Documento>, u: Usuario, t: string)
    ensures BusquedaUsuario(s, u, t) == DeUsuario(BusquedaGlobal(s, t), u)
    ensures |BusquedaUsuario(s, u, t)| <= |BusquedaGlobal(s, t)|
  {
    FiltrosConmutan(Activos(s), u, t);
  }

  lemma {:induction false} NoEliminadosConcat(a: seq<Documento>, b: seq<Documento>)
    ensures NoEliminados(a + b) == NoEliminados(a) + NoEliminados(b)
  {
    if a == [] {
      assert a + b == b;
    } else {
      assert (a + b)[0] == a[0] && (a + b)[1..] == a[1..] + b;
      NoEliminadosConcat(a[1..], b);
    }
  }

  lemma {:induction false} DeUsuarioConcat(a: seq<Documento>, b: seq<Documento>, u: Usuario)
    ensures DeUsuario(a + b, u) == DeUsuario(a, u) + DeUsuario(b, u)
  {
    if a == [] {
      assert a + b == b;
    } else {
      assert (a + b)[0] == a[0] && (a + b)[1..] == a[1..] + b;
      DeUsuarioConcat(a[1..], b, u);
    }
  }

  /** A record appended to the table joins the end of the table-order
      sequence of `por_usuario(u)` exactly when it is active and owned by
      `u`; otherwise that sequence is unchanged. */
  lemma PorUsuarioAnadir(s: seq<Documento>, d: Documento, u: Usuario)
    ensures PorUsuario(s + [d], u) == PorUsuario(s, u) + (if !d.eliminado && d.usuario.id == u.id then [d] else [])
  {
    NoEliminadosConcat(s, [d]);
    DeUsuarioConcat(NoEliminados(s), NoEliminados([d]), u);
  }

  // ---------------------------------------------------------------------------
  // Soft delete of one record.

  /** Every field except the three that `delete()` and `save()` write. */
  predicate MismoContenido(a: Documento, b: Documento) {
    a.id == b.id && a.usuario == b.usuario && a.nombreArchivo == b.nombreArchivo
    && a.tamanoBytes == b.tamanoBytes && a.textoExtraido == b.textoExtraido
    && a.metodo == b.metodo && a.fechaProcesamiento == b.fechaProcesamiento
  }

  /** `DocumentoProcesado.delete()` at time `ahora`: sets the flag, stamps
      the deletion date, and `save()` refreshes the `auto_now` field. */
  function EliminadoSuave(d: Documento, ahora: int): (r: Documento)
    ensures MismoContenido(d, r)
    ensures r.eliminado && r.fechaEliminacion == Some(ahora) && r.actualizadoEn == ahora
  {
    d.(eliminado := true, fechaEliminacion := Some(ahora), actualizadoEn := ahora)
  }

  /** Deleting an already deleted record keeps it deleted; only the dates
      are stamped again. */
  lemma EliminarDosVeces(d: Documento, t1: int, t2: int)
    ensures EliminadoSuave(EliminadoSuave(d, t1), t2) == EliminadoSuave(d, t2)
  {
  }

  // ---------------------------------------------------------------------------
  // Lookup of a record by primary key (`queryset.get(id=...)`).

  function BuscarPorId(s: seq<Documento>, id: nat): (r: Option<Documento>)
    ensures r.Some? ==> r.value in s && r.value.id == id
    ensures r.None? <==> forall d :: d in s ==> d.id != id
  {
    if s == [] then None
    else if s[0].id == id then Some(s[0])
    else BuscarPorId(s[1..], id)
  }

  function IndicePorId(s: seq<Documento>, id: nat): (r: Option<nat>)
    ensures r.Some? ==> r.value < |s| && s[r.value].id == id
    ensures r.None? <==> forall i :: 0 <= i < |s| ==> s[i].id != id
  {
    if s == [] then None
    else if s[0].id == id then Some(0)
    else match IndicePorId(s[1..], id)
      case None => None
      case Some(i) => Some(i + 1)
  }

  // ---------------------------------------------------------------------------
  // `tamaño_legible`: the unit ladder B, KB, MB, GB, falling through to TB.

  datatype Unidad = B | KB | MB | GB | TB

  function UnidadDe(k: nat): Unidad
    requires k <= 4
  {
    [B, KB, MB, GB, TB][k]
  }

  /** `1024^k` for the five rungs. */
  function Escala(k: nat): (p: nat)
    requires k <= 4
    ensures p >= 1
  {
    [1, 1024, 1048576, 1073741824, 1099511627776][k]
  }

  /** The bound a size must stay below to be shown in unit `k`: `1024^(k+1)`. */
  function Umbral(k: nat): nat
    requires k < 4
  {
    Escala(k + 1)
  }

  /** A size divided down to its unit (the number is rendered with one
      decimal, which the model leaves out). */
  datatype Medida = Medida(valor: real, unidad: Unidad)

  /** The rung of the ladder a size reaches: the first `k` below 4 with
      `bytes < 1024^(k+1)`, else 4. */
  function Peldano(bytes: nat): (k: nat)
    ensures k <= 4
    ensures k < 4 ==> bytes < Umbral(k)
    ensures forall j :: 0 <= j < k ==> Umbral(j) <= bytes
  {
    if bytes < Umbral(0) then 0
    else if bytes < Umbral(1) then 1
    else if bytes < Umbral(2) then 2
    else if bytes < Umbral(3) then 3
    else 4
  }

  /** One division of the loop: from rung `k` to rung `k + 1`. */
  lemma Paso(bytes: nat, k: nat)
    requires k < 4
    ensures bytes as real / Escala(k) as real / 1024.0 == bytes as real / Escala(k + 1) as real
    ensures bytes as real / Escala(k) as real < 1024.0 <==> bytes < Umbral(k)
  {
    if k == 0 {
    } else if k == 1 {
    } else if k == 2 {
    } else {
    }
  }

  /** The value and unit `tamaño_legible` shows for `bytes`. */
  function MedidaLegible(bytes: nat): (m: Medida)
    ensures m.unidad != TB ==> 0.0 <= m.valor < 1024.0
    ensures m.unidad != B ==> m.valor >= 1.0
    ensures m.unidad == B <==> bytes < 1024
    ensures m.unidad == TB <==> bytes >= Escala(4)
    ensures m.unidad == UnidadDe(Peldano(bytes))
    ensures m.valor == bytes as real / Escala(Peldano(bytes)) as real
  {
    var k := Peldano(bytes);
    LadderBounds(bytes, k);
    Medida(bytes as real / Escala(k) as real, UnidadDe(k))
  }

  lemma LadderBounds(bytes: nat, k: nat)
    requires k <= 4
    requires k < 4 ==> bytes < Umbral(k)
    requires forall j :: 0 <= j < k ==> Umbral(j) <= bytes
    ensures k < 4 ==> bytes as real / Escala(k) as real < 1024.0
    ensures k > 0 ==> bytes as real / Escala(k) as real >= 1.0
    ensures k == 0 <==> bytes < 1024
    ensures k == 4 <==> bytes >= Escala(4)
  {
    if k < 4 {
      Paso(bytes, k);
    }
    if k > 0 {
      assert Umbral(k - 1) <= bytes;
      assert Umbral(k - 1) == Escala(k);
    }
    if k == 4 {
      assert Umbral(3) <= bytes;
    }
  }

  /** `tamaño_legible` as the loop over the units computes it. */
  method TamanoLegible(bytes: nat) returns (m: Medida)
    ensures m == MedidaLegible(bytes)
  {
    var tamano: real := bytes as real;
    for k := 0 to 4
      invariant tamano == bytes as real / Escala(k) as real
      invariant forall j :: 0 <= j < k ==> Umbral(j) <= bytes
    {
      Paso(bytes, k);
      if tamano < 1024.0 {
        return Medida(tamano, UnidadDe(k));
      }
      tamano := tamano / 1024.0;
    }
    return Medida(tamano, TB);
  }

  lemma TamanoLegibleDosKilobytes()
    ensures MedidaLegible(2048) == Medida(2.0, KB)
  {
  }

  // ---------------------------------------------------------------------------
  // `resumen_texto`.

  /** The whole text when it has at most 200 characters, otherwise its first
      197 characters followed by "...". */
  function ResumenTexto(texto: string): (r: string)
    ensures |r| <= 200
    ensures |texto| <= 200 ==> r == texto
    ensures |texto| > 200 ==> |r| == 200 && r[..197] == texto[..197] && r[197..] == "..."
  {
    if |texto| <= 200 then texto else texto[..197] + "..."
  }

  // ---------------------------------------------------------------------------
  // The table of records.

  /** Primary keys strictly increase along the table and stay below the
      next key to assign, so they are unique and never reused. */
  ghost predicate IdsCrecientes(s: seq<Documento>, siguiente: nat) {
    (forall i :: 0 <= i < |s| ==> s[i].id < siguiente)
    && (forall i, j :: 0 <= i < j < |s| ==> s[i].id < s[j].id)
  }

  lemma IdsUnicos(s: seq<Documento>, siguiente: nat, i: nat, j: nat)
    requires IdsCrecientes(s, siguiente)
    requires i < |s| && j < |s| && s[i].id == s[j].id
    ensures i == j
  {
  }

  /** The `DocumentoProcesado` table, in insertion order. */
  class Almacen {
    var documentos: seq<Documento>
    var siguienteId: nat

    ghost predicate Valid()
      reads this
    {
      siguienteId >= 1 && IdsCrecientes(documentos, siguienteId)
    }

    constructor ()
      ensures Valid() && documentos == [] && siguienteId == 1
    {
      documentos := [];
      siguienteId := 1;
    }

    /** `objects.create(...)`: a new active row with a fresh key, stamped
        with the processing time `ahora`. */
    method Crear(usuario: Usuario, datos: DatosCreacion, ahora: int) returns (d: Documento)
      requires Valid()
      modifies this
      ensures Valid()
      ensures d == Documento(old(siguienteId), usuario, datos.nombreArchivo, datos.tamanoBytes,
                             datos.textoExtraido, datos.metodo, ahora, ahora, false, None)
      ensures documentos == old(documentos) + [d]
      ensures forall e :: e in old(documentos) ==> e.id != d.id
      ensures siguienteId == old(siguienteId) + 1
    {
      d := Documento(siguienteId, usuario, datos.nombreArchivo, datos.tamanoBytes,
                     datos.textoExtraido, datos.metodo, ahora, ahora, false, None);
      documentos := documentos + [d];
      siguienteId := siguienteId + 1;
    }

    /** `delete()` on the loaded record at position `i`. */
    method EliminarSuave(i: nat, ahora: int)
      requires Valid() && i < |documentos|
      modifies this
      ensures Valid() && siguienteId == old(siguienteId)
      ensures documentos == old(documentos)[i := EliminadoSuave(old(documentos)[i], ahora)]
    {
      documentos := documentos[i := EliminadoSuave(documentos[i], ahora)];
    }

    /** `queryset.update(...)`: every row is overwritten in place by the
        row at the same position of `nuevos`, which keeps its key. */
    method ActualizarEnBloque(nuevos: seq<Documento>)
      requires Valid() && |nuevos| == |documentos|
      requires forall i :: 0 <= i < |nuevos| ==> nuevos[i].id == documentos[i].id
      modifies this
      ensures Valid() && siguienteId == old(siguienteId)
      ensures documentos == nuevos
    {
      documentos := nuevos;
    }

    /** `hard_delete()`: the row is removed; its key is not reused. */
    method EliminarDefinitivo(i: nat)
      requires Valid() && i < |documentos|
      modifies this
      ensures Valid() && siguienteId == old(siguienteId)
      ensures documentos == old(documentos)[..i] + old(documentos)[i + 1..]
    {
      documentos := documentos[..i] + documentos[i + 1..];
    }
  }
}
