/** The document serializers: the owner summary, the search snippet
    (`get_fragmento_relevante`), the field validators of the creation path
    and `DocumentoCreacionSerializer.create`. */
module Serializers {
  import opened Wrappers
  import opened Strings
  import opened Models

  // ---------------------------------------------------------------------------
  // `get_usuario_info`

  /** `f"{first_name} {last_name}".strip()`. */
  function NombreCompleto(u: Usuario): (r: string)
    ensures |r| <= |u.firstName| + 1 + |u.lastName|
    ensures r != [] ==> !IsSpace(r[0]) && !IsSpace(r[|r| - 1])
  {
    Strip(u.firstName + " " + u.lastName)
  }

  /** The full name is empty when both names are, and is the two names
      joined by one space when neither carries outer whitespace. */
  lemma NombreCompletoCasos(u: Usuario)
    ensures u.firstName == [] && u.lastName == [] ==> NombreCompleto(u) == []
    ensures u.firstName != [] && u.lastName != []
            && !IsSpace(u.firstName[0]) && !IsSpace(u.lastName[|u.lastName| - 1])
            ==> NombreCompleto(u) == u.firstName + " " + u.lastName
  {
    var s := u.firstName + " " + u.lastName;
    if u.firstName != [] && u.lastName != []
       && !IsSpace(u.firstName[0]) && !IsSpace(u.lastName[|u.lastName| - 1]) {
      assert s[0] == u.firstName[0] && s[|s| - 1] == u.lastName[|u.lastName| - 1];
      StripNoSpace(s);
    }
    if u.firstName == [] && u.lastName == [] {
      assert AllSpace(s);
    }
  }

  /** The owner summary of the detail serializer. */
  datatype UsuarioInfo = UsuarioInfo(id: nat, username: string, nombreCompleto: string)

  /** The owner summary of the search serializer (no primary key). */
  datatype UsuarioInfoBusqueda = UsuarioInfoBusqueda(username: string, nombreCompleto: string)

  /** `DocumentoProcesadoSerializer.get_usuario_info`. */
  function InfoUsuario(u: Usuario): (r: UsuarioInfo)
    ensures r.id == u.id && r.username == u.username
    ensures r.nombreCompleto == NombreCompleto(u)
  {
    UsuarioInfo(u.id, u.username, NombreCompleto(u))
  }

  /** `DocumentoBusquedaSerializer.get_usuario_info`. */
  function InfoUsuarioBusqueda(u: Usuario): (r: UsuarioInfoBusqueda)
    ensures r.username == u.username && r.nombreCompleto == NombreCompleto(u)
  {
    UsuarioInfoBusqueda(u.username, NombreCompleto(u))
  }

  // ---------------------------------------------------------------------------
  // `get_fragmento_relevante`

  /** `pos` is the first index where the lowered term occurs in the lowered
      text. */
  ghost predicate PrimeraCoincidencia(texto: string, termino: string, pos: nat) {
    MatchAt(Lower(texto), Lower(termino), pos)
    && forall j :: 0 <= j < pos ==> !MatchAt(Lower(texto), Lower(termino), j)
  }

  /** `max(0, posicion - 100)`. */
  function InicioCorte(pos: nat): nat {
    if pos >= 100 then pos - 100 else 0
  }

  /** `min(len(texto), posicion + 100)`: measured from the start of the
      match, not from its end. */
  function FinCorte(texto: string, pos: nat): nat {
    if pos + 100 <= |texto| then pos + 100 else |texto|
  }

  /** The cut around a match at `pos`, with "..." added at each side where
      the cut stops short of the text's edge. */
  function Recorte(texto: string, pos: nat): (r: string)
    requires pos <= |texto|
  {
    var inicio, fin := InicioCorte(pos), FinCorte(texto, pos);
    (if inicio > 0 then "..." else "") + texto[inicio..fin] + (if fin < |texto| then "..." else "")
  }

  /** `DocumentoBusquedaSerializer.get_fragmento_relevante`, with the search
      term taken from the serializer context (`""` when absent). */
  function FragmentoRelevante(texto: string, termino: string): (r: string)
    ensures termino == [] ==> r == ResumenTexto(texto)
    ensures !ContainsCi(texto, termino) ==> r == ResumenTexto(texto)
    ensures forall pos: nat :: termino != [] && PrimeraCoincidencia(texto, termino, pos)
              ==> pos < |texto| && r == Recorte(texto, pos)
  {
    if termino == [] then ResumenTexto(texto)
    else
      match Find(Lower(texto), Lower(termino))
      case None => ResumenTexto(texto)
      case Some(pos) =>
        assert forall q: nat :: PrimeraCoincidencia(texto, termino, q) ==> q == pos;
        Recorte(texto, pos)
  }

  /** The cut holds the match's first character, spans at most 200
      characters, and carries "..." exactly on the sides where it stops
      short of the text's edge. */
  lemma {:induction false} RecorteAcotado(texto: string, pos: nat)
    requires pos < |texto|
    ensures var inicio, fin := InicioCorte(pos), FinCorte(texto, pos);
      && inicio <= pos < fin <= |texto|
      && fin - inicio <= 200
      && (inicio > 0 ==> Recorte(texto, pos)[..3] == "...")
      && (inicio == 0 ==> Recorte(texto, pos)[..fin] == texto[..fin])
      && (fin < |texto| ==> |Recorte(texto, pos)| >= 3
                            && Recorte(texto, pos)[|Recorte(texto, pos)| - 3..] == "...")
      && (fin == |texto| ==> EndsWith(Recorte(texto, pos), texto[inicio..]))
      && |Recorte(texto, pos)| <= 206
  {
    var inicio, fin := InicioCorte(pos), FinCorte(texto, pos);
    var cuerpo := texto[inicio..fin];
    var izq: string := if inicio > 0 then "..." else "";
    var der: string := if fin < |texto| then "..." else "";
    assert Recorte(texto, pos) == izq + cuerpo + der;
    if inicio == 0 {
      assert (izq + cuerpo + der)[..fin] == cuerpo;
    }
    if fin == |texto| {
      assert izq + cuerpo + der == izq + texto[inicio..];
    }
  }

  /** A term longer than 100 characters never fits whole in the fragment:
      the cut ends 100 characters after the match starts. */
  lemma TerminoLargoTruncado(texto: string, termino: string, pos: nat)
    requires |termino| > 100 && PrimeraCoincidencia(texto, termino, pos)
    ensures FinCorte(texto, pos) < pos + |termino|
  {
  }

  // ---------------------------------------------------------------------------
  // Field validators of `DocumentoProcesadoSerializer`.

  /** `MAX_SIZE = 50 * 1024 * 1024`. */
  const TamanoMaximo: nat := 50 * 1024 * 1024

  const MensajeTextoCorto := "El texto extraído debe tener al menos 10 caracteres significativos."
  const MensajeTamanoExcedido := "El archivo excede el tamaño máximo permitido (50MB)."

  /** `validate_texto_extraido`: the stripped text, when it keeps at least
      10 characters. */
  function ValidarTextoExtraido(valor: string): (r: Result<string, string>)
    ensures r.Ok? <==> |Strip(valor)| >= 10
    ensures r.Ok? ==> r.value == Strip(valor) && |r.value| >= 10
                      && !IsSpace(r.value[0]) && !IsSpace(r.value[|r.value| - 1])
    ensures r.Err? ==> r.error == MensajeTextoCorto
  {
    if valor == [] || |Strip(valor)| < 10 then Err(MensajeTextoCorto) else Ok(Strip(valor))
  }

  /** `validate_tamaño_bytes`: sizes up to and including 50 MiB pass
      unchanged. */
  function ValidarTamanoBytes(valor: nat): (r: Result<nat, string>)
    ensures r.Ok? <==> valor <= 52428800
    ensures r.Ok? ==> r.value == valor
    ensures r.Err? ==> r.error == MensajeTamanoExcedido
  {
    if valor > TamanoMaximo then Err(MensajeTamanoExcedido) else Ok(valor)
  }

  // ---------------------------------------------------------------------------
  // `DocumentoCreacionSerializer`: validation and `create`. This serializer
  // does not carry the two validators above; its fields get the checks the
  // framework derives from the model: character fields are stripped of
  // surrounding whitespace, must not then be blank, and `nombre_archivo`
  // keeps `max_length=255`.

  /** The model's `max_length=255` on `nombre_archivo`. */
  const LongitudMaximaNombre: nat := 255

  /** The fields that can fail validation on the creation path. */
  datatype Campo = NombreArchivo | TextoExtraido

  /** `is_valid()` on the creation data. Every failing field is reported;
      on success the two character fields are the stripped ones. */
  function ValidarCreacion(datos: DatosCreacion): (r: Result<DatosCreacion, seq<Campo>>)
    ensures r.Ok? <==> Strip(datos.nombreArchivo) != [] && |Strip(datos.nombreArchivo)| <= 255
                       && Strip(datos.textoExtraido) != []
    ensures r.Ok? ==> r.value == datos.(nombreArchivo := Strip(datos.nombreArchivo),
                                        textoExtraido := Strip(datos.textoExtraido))
    ensures r.Err? ==> r.error != [] && (forall c :: c in r.error <==>
                          (c == NombreArchivo && (Strip(datos.nombreArchivo) == [] || |Strip(datos.nombreArchivo)| > 255))
                          || (c == TextoExtraido && Strip(datos.textoExtraido) == []))
  {
    var nombre := Strip(datos.nombreArchivo);
    var texto := Strip(datos.textoExtraido);
    var nombreOk := nombre != [] && |nombre| <= LongitudMaximaNombre;
    if nombreOk && texto != [] then
      Ok(datos.(nombreArchivo := nombre, textoExtraido := texto))
    else
      Err((if nombreOk then [] else [NombreArchivo]) + (if texto != [] then [] else [TextoExtraido]))
  }

  /** `DocumentoCreacionSerializer.create`: the requesting user becomes the
      owner of the new row. */
  method CrearDocumento(almacen: Almacen, solicitante: Usuario, datos: DatosCreacion, ahora: int)
    returns (d: Documento)
    requires almacen.Valid()
    modifies almacen
    ensures almacen.Valid()
    ensures d.usuario == solicitante && !d.eliminado && d.fechaProcesamiento == ahora
    ensures d.nombreArchivo == datos.nombreArchivo && d.tamanoBytes == datos.tamanoBytes
    ensures d.textoExtraido == datos.textoExtraido && d.metodo == datos.metodo
    ensures almacen.documentos == old(almacen.documentos) + [d]
    ensures forall e :: e in old(almacen.documentos) ==> e.id != d.id
  {
    d := almacen.Crear(solicitante, datos, ahora);
  }
}
