/** The client-side checks of a PDF before upload (`validatePDFFile`) and
    the size formatter `formatFileSize`. */
module FileValidation {
  import opened Wrappers
  import opened Strings
  import opened Models

  /** The parts of a browser `File` the checks read: its name, its MIME
      type and its size in bytes. */
  datatype ArchivoCliente = ArchivoCliente(nombre: string, tipo: string, tamano: nat)

  /** `FILE_VALIDATION_CONFIG`. */
  const MaxPdfSize: nat := 50 * 1024 * 1024
  const TipoPdf := "application/pdf"
  const ExtensionPdf := ".pdf"

  /** `VALIDATION_MESSAGES`. */
  const MensajeSinArchivo := "No se ha seleccionado ningún archivo"
  const MensajeTipoInvalido := "Por favor selecciona un archivo PDF válido"
  const MensajeMuyGrande := "El archivo es demasiado grande. Máximo 50MB permitido"

  /** The `result` record: `error` and `errorTitle` are `null` until a
      check fails. */
  datatype ResultadoValidacion = ResultadoValidacion(isValid: bool, error: Option<string>, errorTitle: Option<string>)

  function Invalido(error: string, titulo: string): ResultadoValidacion {
    ResultadoValidacion(false, Some(error), Some(titulo))
  }

  /** The four conditions a file must meet. */
  predicate PasaTodo(file: Option<ArchivoCliente>) {
    && file.Some?
    && file.value.tipo == TipoPdf
    && EndsWith(Lower(file.value.nombre), ExtensionPdf)
    && file.value.tamano <= MaxPdfSize
  }

  /** `validatePDFFile`: `result` starts valid; the first failing check
      marks it invalid, fills in its message and title, and returns it. */
  method ValidatePdfFile(file: Option<ArchivoCliente>) returns (result: ResultadoValidacion)
    ensures file.None? ==> result == Invalido(MensajeSinArchivo, "Archivo requerido")
    ensures file.Some? && file.value.tipo != TipoPdf
            ==> result == Invalido(MensajeTipoInvalido, "Tipo de archivo inválido")
    ensures file.Some? && file.value.tipo == TipoPdf && !EndsWith(Lower(file.value.nombre), ExtensionPdf)
            ==> result == Invalido(MensajeTipoInvalido, "Extensión no válida")
    ensures file.Some? && file.value.tipo == TipoPdf && EndsWith(Lower(file.value.nombre), ExtensionPdf)
            && file.value.tamano > MaxPdfSize
            ==> result == Invalido(MensajeMuyGrande, "Archivo muy grande")
    ensures result.isValid <==> PasaTodo(file)
    ensures result.isValid ==> result.error.None? && result.errorTitle.None?
    ensures !result.isValid ==> result.error.Some? && result.errorTitle.Some?
  {
    result := ResultadoValidacion(true, None, None);
    if file.None? {
      result := result.(isValid := false);
      result := result.(error := Some(MensajeSinArchivo));
      result := result.(errorTitle := Some("Archivo requerido"));
      return;
    }
    var f := file.value;
    if f.tipo != TipoPdf {
      result := result.(isValid := false);
      result := result.(error := Some(MensajeTipoInvalido));
      result := result.(errorTitle := Some("Tipo de archivo inválido"));
      return;
    }
    var fileName := Lower(f.nombre);
    var hasValidExtension := EndsWith(fileName, ExtensionPdf);
    if !hasValidExtension {
      result := result.(isValid := false);
      result := result.(error := Some(MensajeTipoInvalido));
      result := result.(errorTitle := Some("Extensión no válida"));
      return;
    }
    if f.tamano > MaxPdfSize {
      result := result.(isValid := false);
      result := result.(error := Some(MensajeMuyGrande));
      result := result.(errorTitle := Some("Archivo muy grande"));
      return;
    }
  }

  /** The size bound is inclusive: exactly 50 MiB passes, one byte more
      does not. */
  lemma CincuentaMiBAceptado(nombre: string)
    requires EndsWith(Lower(nombre), ExtensionPdf)
    ensures PasaTodo(Some(ArchivoCliente(nombre, TipoPdf, 52428800)))
    ensures !PasaTodo(Some(ArchivoCliente(nombre, TipoPdf, 52428801)))
  {
  }

  /** The extension check ignores case: "INFORME.PDF" passes. */
  lemma ExtensionSinMayusculas()
    ensures EndsWith(Lower("INFORME.PDF"), ExtensionPdf)
  {
    assert Lower("INFORME.PDF")[7..] == ".pdf";
  }

  /** What `formatFileSize` answers: "0 Bytes" for zero; otherwise the size
      divided by `1024^i`, where `i` is the integer logarithm of the size
      in base 1024, and the unit `sizes[i]` (rendered with two decimals,
      which the model leaves out). From 1024^4 bytes on, `i` runs past the
      four units and the unit is `undefined`. */
  datatype TextoTamano = CeroBytes | Escalado(medida: Medida) | SinUnidad

  /** The exponent `Math.floor(Math.log(bytes) / Math.log(1024))`, as an
      exact integer logarithm, for the sizes that have a unit. */
  function FormatFileSize(bytes: nat): (r: TextoTamano)
    ensures r.CeroBytes? <==> bytes == 0
    ensures r.SinUnidad? <==> bytes >= Escala(4)
    ensures r.Escalado? ==> r.medida.unidad != TB && 0.0 <= r.medida.valor < 1024.0
    ensures r.Escalado? && r.medida.unidad != B ==> r.medida.valor >= 1.0
  {
    if bytes == 0 then CeroBytes
    else
      var i := Peldano(bytes);
      LadderBounds(bytes, i);
      if i == 4 then SinUnidad
      else Escalado(Medida(bytes as real / Escala(i) as real, UnidadDe(i)))
  }

  /** Below 1024^4 bytes the upload form shows the value and unit the
      backend's `tamaño_legible` shows. */
  lemma FormatoComoServidor(bytes: nat)
    requires 0 < bytes < Escala(4)
    ensures FormatFileSize(bytes) == Escalado(MedidaLegible(bytes))
  {
  }

  /** 1536 bytes are 1.5 KB. */
  lemma FormatoKilobyteYMedio()
    ensures FormatFileSize(1536) == Escalado(Medida(1.5, KB))
  {
  }
}
