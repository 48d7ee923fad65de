# Document processing core of the OCR service, in Dafny

The service stores `DocumentoProcesado` records: the text extracted from an
uploaded PDF, together with its owner, file name, size, extraction method
and audit dates. Deletion is soft: a deleted record stays in the table,
flagged, with a deletion date. Around that table the backend offers:

- an upload endpoint that checks the file, extracts its text (the PDF's
  text layer first, OCR when that text is too short) and stores it;
- a case-insensitive full-text search, personal or global, ordered
  newest first and paginated;
- owner-only and global detail lookups, an owner-only delete, and
  per-user statistics;
- two admin bulk actions, mark as deleted and restore;
- a registration serializer with password confirmation.

The web client checks PDFs before upload, formats sizes, wraps search
hits in `<mark>`, scores password strength and decides when the
registration form can be sent.

The model follows the source file by file, one module per file:

- `Models` (models.py):
  - the record and the manager's four filters, as functions over a
    sequence of records;
  - the soft delete;
  - the two derived views: the unit ladder as a loop, and the summary;
  - the table as a class `Almacen`, whose methods create, soft-delete,
    bulk-update and hard-delete rows and keep the primary keys unique.
- `Serializers` (Document_Processing/serializers.py):
  - the owner summaries and the search snippet;
  - the two field validators;
  - the creation path.
- `Views` (views.py):
  - the pagination rules and the search endpoint;
  - the two detail lookups;
  - the delete endpoint, as a method on the table;
  - the statistics;
  - the upload pipeline, as methods that change the table.
- `Admin` (admin.py): the two actions, as methods on the table. The first
  is a loop with a counter.
- `PdfExtractor` (pdf_extractor.py):
  - the selection rule;
  - the two page loops, with the libraries' outputs given as inputs.
- `FileValidation` (fileValidation.js): `validatePDFFile` and `formatFileSize`.
- `DocumentoService` and `Resaltado` (documentoService.js):
  - `formatearTamaño`, as a loop;
  - `resaltarTermino`, as a left-to-right scan.
- `RegisterPage` (RegisterPage.jsx):
  - the password meter, as the source's sequence of increments;
  - the form-validity predicates;
  - the backend error mapping, as a loop over the keys.
- `ApiSerializers` (Api/serializers.py):
  - the registration serializer's field rules and `validate`;
  - `create`, which pops a key from the validated data in place.

`Wrappers` holds `Option` and `Result`. `Strings` holds Python's `strip()`
whitespace rule, ASCII lower-casing, and `find`.

The OCR loop of the extractor overwrites its text on every page
(`text = page_text + "\n\n"`), so only the last page's text survives. The
model keeps this behaviour: `PdfExtractor.ExtraerConOcr` states it, and
`PdfExtractor.OcrPierdePrimeraPagina` shows a two-page case.

Where the code and its description differ, the model follows the code:

- `DocumentoCreacionSerializer` does not inherit the two validators of
  `DocumentoProcesadoSerializer`. Uploads are checked by the view's own
  text rule and by the field rules derived from the model. The model then
  proves that a stored row also passes the two validators.
- `documentos_por_pagina` always reports the class's page size of 10,
  even when the request asked for another size.

## Model

| member | source | states |
|---|---|---|
| Models.NoEliminados | Backend/Document_Processing/models.py:16-18 | `filter(eliminado=False)` keeps exactly the records not deleted, never more than the input |
| Models.DeUsuario | Backend/Document_Processing/models.py:20-22 | `filter(usuario=u)` keeps exactly the records whose owner has `u`'s key |
| Models.QueContienen | Backend/Document_Processing/models.py:24-31 | `texto_extraido__icontains` keeps exactly the records whose text contains the term, ignoring case |
| Models.Activos | Backend/Document_Processing/models.py:16-18 | `activos()` is exactly the records with `eliminado` false; a deleted one never appears |
| Models.PorUsuario | Backend/Document_Processing/models.py:20-22 | `por_usuario(u)` is exactly `u`'s active records, and is never larger than `activos()` |
| Models.BusquedaGlobal | Backend/Document_Processing/models.py:24-31 | `busqueda_global(t)` is exactly the active records whose text contains `t`, ignoring case |
| Models.BusquedaUsuario | Backend/Document_Processing/models.py:33-37 | `busqueda_usuario(u, t)` is exactly `u`'s active records containing `t`, and is never larger than `por_usuario(u)` |
| Models.FiltrosConmutan | Backend/Document_Processing/models.py:24-37 | the owner filter and the text filter commute, table order included |
| Models.BusquedaUsuarioEsGlobalRestringida | Backend/Document_Processing/models.py:24-37 | the personal search is the global search restricted to the owner, hence never larger |
| Models.PorUsuarioAnadir | Backend/Document_Processing/models.py:20-22 | an appended record joins the end of the table-order sequence of `por_usuario(u)` iff it is active and `u`'s; otherwise that sequence is unchanged |
| Models.EliminadoSuave | Backend/Document_Processing/models.py:148-155 | `delete()` keeps every content field, sets `eliminado`, stamps `fecha_eliminacion` with now, and the `auto_now` stamp of `save()` |
| Models.EliminarDosVeces | Backend/Document_Processing/models.py:153-155 | deleting a deleted record keeps it deleted; only the dates are stamped again |
| Models.BuscarPorId | Backend/Document_Processing/views.py:275-279 | the lookup by key finds a record of the sequence with that key, and finds none iff no record has it |
| Models.IndicePorId | Backend/Document_Processing/views.py:409-413 | the position found holds a record with that key; no position iff no record has it |
| Models.MedidaLegible | Backend/Document_Processing/models.py:164-174 | `tamaño_legible`: the unit is the one of the ladder step and the value is the size divided by that step's scale; below TB the value is under 1024; from KB up it is at least 1; B iff under 1024 bytes; TB iff at least 1024^4 |
| Models.Peldano | Backend/Document_Processing/models.py:169-173 | the step the loop stops at: at most TB, every earlier threshold is at most the size, and below TB the size is under the next threshold |
| Models.TamanoLegible | Backend/Document_Processing/models.py:169-174 | the loop over B, KB, MB, GB, falling through to TB, yields `MedidaLegible` |
| Models.TamanoLegibleDosKilobytes | Backend/Document_Processing/tests.py:39-49 | 2048 bytes are 2.0 KB |
| Models.ResumenTexto | Backend/Document_Processing/models.py:176-184 | never longer than 200; the whole text up to 200 characters; otherwise its first 197 characters then "..." |
| Models.Almacen.constructor | Backend/Document_Processing/models.py:39-143 | the table starts empty, with key 1 next |
| Models.Almacen.Crear | Backend/Document_Processing/models.py:94-116 | a new row is appended: active, no deletion date, both dates now, a key used by no other row |
| Models.Almacen.EliminarSuave | Backend/Document_Processing/models.py:148-155 | the row at `i` becomes its soft-deleted self; nothing else changes and keys stay unique |
| Models.Almacen.ActualizarEnBloque | Backend/Document_Processing/admin.py:90-93 | `update()` overwrites rows in place, keeping their keys |
| Models.Almacen.EliminarDefinitivo | Backend/Document_Processing/models.py:157-162 | `hard_delete()` removes exactly that row; keys are never reused |
| Serializers.NombreCompleto | Backend/Document_Processing/serializers.py:52 | `f"{first} {last}".strip()` has no outer whitespace and is never longer than the two names and the space |
| Serializers.NombreCompletoCasos | Backend/Document_Processing/serializers.py:52 | empty when both names are empty; `first + " " + last` when neither carries outer spaces |
| Serializers.InfoUsuario | Backend/Document_Processing/serializers.py:45-53 | the owner summary carries the owner's key, username and full name |
| Serializers.InfoUsuarioBusqueda | Backend/Document_Processing/serializers.py:102-107 | the search summary carries the username and full name |
| Serializers.FragmentoRelevante | Backend/Document_Processing/serializers.py:109-139 | no term, or a term not found ignoring case, gives `resumen_texto`; otherwise the cut around the first match |
| Serializers.RecorteAcotado | Backend/Document_Processing/serializers.py:127-137 | the cut `[max(0,pos-100), min(len,pos+100))` holds `pos`, spans at most 200 characters, and has "..." exactly on each side that stops short of the text's edge |
| Serializers.TerminoLargoTruncado | Backend/Document_Processing/serializers.py:129 | a term longer than 100 characters is cut off in the fragment |
| Serializers.ValidarTextoExtraido | Backend/Document_Processing/serializers.py:55-63 | accepts iff the stripped text has at least 10 characters, and returns it stripped; otherwise the message |
| Serializers.ValidarTamanoBytes | Backend/Document_Processing/serializers.py:65-74 | accepts iff the size is at most 50 MiB, exactly 50 MiB included, and returns it unchanged |
| Serializers.ValidarCreacion | Backend/Document_Processing/serializers.py:166-184 | accepts iff the stripped name is non-empty and at most 255 characters and the stripped text is non-empty; returns both stripped; lists exactly the failing fields |
| Serializers.CrearDocumento | Backend/Document_Processing/serializers.py:186-194 | the new row is owned by the requesting user and holds the validated data; the table only gains that row |
| Views.Insertar | Backend/Document_Processing/views.py:335 | inserting into a newest-first sequence keeps it newest first and adds exactly that record |
| Views.OrdenarRecientes | Backend/Document_Processing/views.py:335 | `ordering = ['-fecha_procesamiento']`: a permutation of the input, newest first |
| Views.TamanoEfectivo | Backend/Document_Processing/views.py:36-38 | the page size is 10 unless a positive `page_size` is given, then that value capped at 50 |
| Views.NumeroPaginas | Backend/Document_Processing/views.py:27-51 | at least one page; with results, exactly enough pages for them |
| Views.PaginaResuelta | Backend/Document_Processing/views.py:27-51 | a resolved page lies between 1 and the page count; any other number is refused |
| Views.Pagina | Backend/Document_Processing/views.py:27-51 | a page is the slice of the results for that page, at most `page_size` long |
| Views.PrimerasPaginasPrefijo | Backend/Document_Processing/views.py:27-51 | pages 1 to k joined are the first k·size results, in order |
| Views.TodasLasPaginas | Backend/Document_Processing/views.py:27-51 | reading every page gives back every result once, in order |
| Views.Candidatos | Backend/Document_Processing/views.py:346-362 | the search scope is exactly the active records containing the trimmed term, and only the requester's unless `global` lowers to "true" |
| Views.RenderizarPagina | Backend/Document_Processing/views.py:364-372 | each record of the page is rendered with the snippet for the untrimmed `q` |
| Views.Ordenados | Backend/Document_Processing/views.py:335-362 | the ordered scope has the scope's records, newest first |
| Views.Buscar | Backend/Document_Processing/views.py:374-393 | a blank `q` gives the 400 with its message; the only errors are that one and an unknown page (404); a success holds at most 50 results and reports the number of records in scope |
| Views.BuscarRechazaTerminoVacio | Backend/Document_Processing/views.py:376-381 | the 400 answer comes exactly when `q` is empty or whitespace only |
| Views.BuscarEco | Backend/Document_Processing/views.py:40-51 | the echo holds the trimmed term and the scope; `resultados_encontrados` equals `total_documentos`, the scope's size; `documentos_por_pagina` is 10; the page links agree with the page number |
| Views.BuscarEsRebanada | Backend/Document_Processing/views.py:374-393 | the results are one rendered slice of the ordered scope |
| Views.BuscarResultados | Backend/Document_Processing/views.py:337-393 | the results are newest first, and each renders an active record in scope that contains the term |
| Views.BuscarCompleto | Backend/Document_Processing/views.py:337-393 | every active record in scope that contains the term appears on one of the pages |
| Views.BusquedaPersonalExcluyeAjenos | Backend/Document_Processing/views.py:357-360 | a personal search never returns another user's record |
| Views.TerminoRecortado | Backend/Document_Processing/views.py:346 | `q = " abc "` is filtered as "abc" |
| Views.FragmentoConQSinRecortar | Backend/Document_Processing/views.py:371 | the snippet gets the raw `q`: the text "abc" is found for `q = " abc "`, yet its snippet falls back to the summary |
| Views.DetalleDe | Backend/Document_Processing/views.py:262-289 | the detail carries the record's key, name, text, owner and flag |
| Views.ObtenerDetalle | Backend/Document_Processing/views.py:275-279 | found iff the requester has an active record with that key; another user's record or a deleted one is a 404 |
| Views.ObtenerDetalleGlobal | Backend/Document_Processing/views.py:304-308 | found iff some active record has that key, whoever owns it; otherwise a 404 |
| Views.DetalleGlobalAmplia | Backend/Document_Processing/views.py:275-308 | what the owner-only detail finds, the global detail finds too, and it answers the same |
| Views.EliminarDocumento | Backend/Document_Processing/views.py:409-443 | a 404 that changes nothing unless the requester has an active record with that key; otherwise only that record is soft-deleted, and the answer names it |
| Views.TrasEliminar | Backend/Document_Processing/views.py:409-443 | after the delete, neither detail nor any search reaches the record; the other active records stay active |
| Views.SumaTamanos | Backend/Document_Processing/views.py:466-489 | `Sum(...) or 0` is 0 for no records and at least each record's size |
| Views.ContarMetodo | Backend/Document_Processing/views.py:473-475 | a method group's count is 0 iff no record has that method |
| Views.ContarDesde | Backend/Document_Processing/views.py:481-482 | the recent count is 0 iff no record is recent enough, and the total iff all are |
| Views.MetodosSuman | Backend/Document_Processing/views.py:473-475 | the two method counts add up to the number of records |
| Views.Distribucion | Backend/Document_Processing/views.py:473-475 | one row per method that occurs, with its count, ordered by the stored method name; the rows add up to the total |
| Views.DistribucionDosMetodos | Backend/Document_Processing/views.py:473-475 | with both methods present, the "ocr" row comes before the "pypdf" row |
| Views.FormatoTamano | Backend/Document_Processing/views.py:498-507 | `_format_size` answers "0 B" iff the size is zero; otherwise the `tamaño_legible` ladder |
| Views.FormatearTamano | Backend/Document_Processing/views.py:498-507 | the loop yields `FormatoTamano` |
| Views.CalcularEstadisticas | Backend/Document_Processing/views.py:457-496 | the counts are over the requester's active records: the method rows add up to the total, the recent count is at most the total, nothing gives zeros and "0 B" |
| Views.EstadisticasIgnoranAjenos | Backend/Document_Processing/views.py:463 | another user's record, or a deleted one, changes nothing in the statistics |
| Views.EstadisticasTrasSubida | Backend/Document_Processing/views.py:463-482 | a new active record of the requester adds 1 to the total, its size to the bytes, 1 to its method, and 1 to the recent count when it is at most 7 days old |
| Views.EstadisticasEscenario | Backend/Document_Processing/tests.py:357-372 | two records of 1024 and 2048 bytes, one per method, and another user's record: 2 documents, 3072 bytes, one row per method |
| Views.CodigoDe | Backend/Document_Processing/views.py:86-188 | the upload errors answer 413 only for the size, 422 only for the text, and 400 otherwise |
| Views.MetodoBd | Backend/Document_Processing/views.py:126-130 | "Tesseract OCR" maps to ocr; any other tag maps to pypdf |
| Views.ValidarSubida | Backend/Document_Processing/views.py:86-188 | first failure wins: no file, then a name not ending in ".pdf" in any case, then a size over 50 MiB, then a stripped text under 10 characters, then the serializer's field errors |
| Views.SubidaSoloFallaPorNombreLargo | Backend/Document_Processing/views.py:136-188 | past the view's own checks, the serializer can only reject a name longer than 255 characters |
| Views.SubidaCumpleValidadores | Backend/Document_Processing/views.py:136-159 | a stored upload also passes both field validators of `DocumentoProcesadoSerializer` |
| Views.ExtraerYGuardar | Backend/Document_Processing/views.py:118-188 | after the request checks: an error changes nothing; a success appends the requester's new record, holding the validated data |
| Views.GuardarConSerializador | Backend/Document_Processing/views.py:151-188 | `is_valid()`: 400 with the field errors and no change; otherwise one new row, and the 201 body echoes the received name, size and method tag |
| Views.ProcesarPdf | Backend/Document_Processing/views.py:70-188 | `post`: the answer is `ValidarSubida`'s; an error changes nothing; a success appends exactly one active record owned by the requester |
| Admin.Marcados | Backend/Document_Processing/admin.py:76-80 | the table after the action, record by record |
| Admin.MarcarComoEliminado | Backend/Document_Processing/admin.py:74-85 | the loop leaves the table as `Marcados`; the count is the number of selected records that were active |
| Admin.MarcadosEliminados | Backend/Document_Processing/admin.py:76-80 | every selected record ends up deleted |
| Admin.MarcadosSinTocar | Backend/Document_Processing/admin.py:76-80 | a selected record that was already deleted, and any record outside the selection, is untouched |
| Admin.MarcadosRecienEliminados | Backend/Document_Processing/admin.py:78-79 | a record the action deletes keeps its data and gets the stamps of `delete()` |
| Admin.MarcarDosVeces | Backend/Document_Processing/admin.py:74-85 | a second run changes nothing and counts 0 |
| Admin.NadaPorEliminar | Backend/Document_Processing/admin.py:76-80 | the count is 0 iff no selected record is active |
| Admin.Restaurados | Backend/Document_Processing/admin.py:90-93 | the table after the restore, record by record |
| Admin.RestaurarDocumentos | Backend/Document_Processing/admin.py:88-98 | one bulk update leaves the table as `Restaurados`; the count is the number of selected deleted records |
| Admin.RestauradosActivos | Backend/Document_Processing/admin.py:90-93 | exactly the selected deleted records become active with no deletion date; `actualizado_en` and every other field are kept |
| Admin.RestaurarDosVeces | Backend/Document_Processing/admin.py:90-93 | a second restore matches no row |
| Admin.RestaurarTrasMarcar | Backend/Document_Processing/admin.py:74-93 | restoring right after marking gives back the record, except for the `actualizado_en` stamp |
| Admin.CuentasSeparanSeleccion | Backend/Document_Processing/admin.py:76-93 | each selected record is counted by exactly one of the two actions |
| Admin.RestaurarTrasMarcarCuenta | Backend/Document_Processing/admin.py:74-93 | after marking, a restore matches every selected record |
| PdfExtractor.Concatenar | Backend/Document_Processing/Services/pdf_extractor.py:45-47 | no pages join to the empty text |
| PdfExtractor.PaginaEnSuLugar | Backend/Document_Processing/Services/pdf_extractor.py:45-47 | each page's text sits in the joined text in page order, right after the pages before it |
| PdfExtractor.UltimaPagina | Backend/Document_Processing/Services/pdf_extractor.py:60-64 | the OCR loop of no pages leaves the empty text |
| PdfExtractor.ExtraerConPyMuPdf | Backend/Document_Processing/Services/pdf_extractor.py:41-52 | the pages joined in order; "" when the library raises |
| PdfExtractor.ExtraerConOcr | Backend/Document_Processing/Services/pdf_extractor.py:54-67 | the last page's text followed by "\n\n"; "" for no pages or when a library raises |
| PdfExtractor.ExtraccionEsperada | Backend/Document_Processing/Services/pdf_extractor.py:27-39 | OCR iff the direct text has fewer than 100 stripped characters; its text is then returned even when empty; otherwise the direct text with "PyMuPDF" |
| PdfExtractor.ExtraerTexto | Backend/Document_Processing/Services/pdf_extractor.py:22-39 | `extract_text` yields `ExtraccionEsperada` |
| PdfExtractor.OcrSoloUltimaPagina | Backend/Document_Processing/Services/pdf_extractor.py:61-63 | pages before the last have no effect on the OCR text |
| PdfExtractor.OcrPierdePrimeraPagina | Backend/Document_Processing/Services/pdf_extractor.py:61-63 | for pages "uno" and "dos" the OCR text is "dos\n\n", without "uno" |
| FileValidation.ValidatePdfFile | FrontEnd/src/config/fileValidation.js:37-82 | first failure wins, each with its message and title: no file, then a MIME type other than application/pdf, then a lowered name not ending ".pdf", then a size over 50 MiB; valid iff all pass, then `error` and `errorTitle` stay null; invalid means both are set |
| FileValidation.CincuentaMiBAceptado | FrontEnd/src/config/fileValidation.js:74 | exactly 50 MiB passes; one byte more does not |
| FileValidation.ExtensionSinMayusculas | FrontEnd/src/config/fileValidation.js:61-64 | "INFORME.PDF" passes the extension check |
| FileValidation.FormatFileSize | FrontEnd/src/config/fileValidation.js:89-97 | "0 Bytes" iff zero; no unit from 1024^4 bytes on; otherwise a value under 1024, and at least 1 in KB and above |
| FileValidation.FormatoComoServidor | FrontEnd/src/config/fileValidation.js:92-96 | between 1 byte and 1024^4 the value and unit match the backend's `tamaño_legible` |
| FileValidation.FormatoKilobyteYMedio | FrontEnd/src/config/fileValidation.js:92-96 | 1536 bytes are 1.5 KB |
| DocumentoService.PeldanoCliente | FrontEnd/src/services/api/documentoService.js:169-176 | the client's unit index never passes GB |
| DocumentoService.FormatearTamano | FrontEnd/src/services/api/documentoService.js:166-179 | "0 B" for a missing or zero size; otherwise the loop's value and unit are `TamanoClienteDe` |
| DocumentoService.TamanoClienteAcotado | FrontEnd/src/services/api/documentoService.js:173-176 | the unit is never TB; below GB the value is under 1024; from KB up it is at least 1 |
| DocumentoService.ClienteComoServidor | FrontEnd/src/services/api/documentoService.js:169-176 | below 1024^4 bytes the client shows what the backend's `tamaño_legible` shows |
| DocumentoService.ClienteSeQuedaEnGB | FrontEnd/src/services/api/documentoService.js:169-176 | from 1024^4 bytes on, the backend says TB; the client stays at GB with a value of at least 1024 |
| Resaltado.IgualCiMinusculas | FrontEnd/src/services/api/documentoService.js:210 | the `i` flag: comparing ignoring case is comparing the lowered strings |
| Resaltado.CoincideEnMinusculas | FrontEnd/src/services/api/documentoService.js:210 | the term occurs at `p` ignoring case iff the lowered term occurs there in the lowered text |
| Resaltado.Siguiente | FrontEnd/src/services/api/documentoService.js:210-211 | the `g` scan always moves forward, past a match or past one character |
| Resaltado.Segmentos | FrontEnd/src/services/api/documentoService.js:210-211 | every piece of the `g` scan is valid where the text of the pieces before it ends: a wrapped piece is an occurrence of the term, a kept character is one where no occurrence starts |
| Resaltado.ResaltarTermino | FrontEnd/src/services/api/documentoService.js:207-212 | an empty text or term gives the text back unchanged |
| Resaltado.PrimeroValido | FrontEnd/src/services/api/documentoService.js:210-211 | a wrapped piece is an occurrence in its original casing; a kept character starts no occurrence |
| Resaltado.TextoSegmentos | FrontEnd/src/services/api/documentoService.js:210-211 | the pieces of the scan spell out the scanned text |
| Resaltado.QuitarMarcas | FrontEnd/src/services/api/documentoService.js:210-211 | removing the inserted tags gives back the original text |
| Resaltado.SegmentoEnPosicion | FrontEnd/src/services/api/documentoService.js:210-211 | each piece is valid at the position where the text of the pieces before it ends: matches are non-overlapping, left to right, none skipped |
| Resaltado.SinCoincidenciasSinMarcas | FrontEnd/src/services/api/documentoService.js:210-211 | a text in which the term never occurs comes back without tags |
| Resaltado.EjemploCoincidencias | FrontEnd/src/services/api/documentoService.js:210 | "HOLA" occurs in "Hola hola" at 0 and 5, not at 4 |
| Resaltado.EjemploSegmentos | FrontEnd/src/services/api/documentoService.js:210-211 | the scan of "Hola hola" for "HOLA" is an occurrence, a space, an occurrence |
| Resaltado.ResaltarEjemplo | FrontEnd/src/services/api/documentoService.js:207-212 | "Hola hola" with "HOLA" becomes `<mark>Hola</mark> <mark>hola</mark>` |
| RegisterPage.CuentaSi | FrontEnd/src/pages/auth/RegisterPage.jsx:105-110 | the number of criteria met is at most five; all five iff each holds; zero iff none holds |
| RegisterPage.CalcularFortalezaPassword | FrontEnd/src/pages/auth/RegisterPage.jsx:102-124 | the sequence of increments yields `FortalezaDe`: level 0, empty text and #e0e0e0 for an empty password, otherwise the score and its label |
| RegisterPage.NivelSegunCriterios | FrontEnd/src/pages/auth/RegisterPage.jsx:105-110 | the score counts the five criteria: at most 5, 5 iff all hold, 0 iff none holds |
| RegisterPage.FortalezaDe | FrontEnd/src/pages/auth/RegisterPage.jsx:102-124 | the empty-password meter exactly for the empty password; otherwise one of the five labels and its colour, and a level of at most 5 |
| RegisterPage.EtiquetaSegunNivel | FrontEnd/src/pages/auth/RegisterPage.jsx:112-123 | a score from 1 to 5 reads `niveles[score-1]`; a non-empty password meeting no criterion reads "Muy débil" |
| RegisterPage.MuyFuerteSiiTodos | FrontEnd/src/pages/auth/RegisterPage.jsx:105-123 | the label is "Muy fuerte" iff all five criteria hold |
| RegisterPage.NivelMonotono | FrontEnd/src/pages/auth/RegisterPage.jsx:105-110 | typing more characters never lowers the score |
| RegisterPage.EjemploMuyFuerte | FrontEnd/src/pages/auth/RegisterPage.jsx:102-124 | "Abcdef1!" scores 5, "Muy fuerte" |
| RegisterPage.EjemploSinCriterios | FrontEnd/src/pages/auth/RegisterPage.jsx:102-124 | three spaces score 0 and read "Muy débil" in #f44336 |
| RegisterPage.FormularioValidoSii | FrontEnd/src/pages/auth/RegisterPage.jsx:97-99 | the form is valid iff each of the six fields is present and non-empty and no error entry is truthy |
| RegisterPage.FormularioInicialInvalido | FrontEnd/src/pages/auth/RegisterPage.jsx:27-99 | the initial empty form is not valid |
| RegisterPage.MapearErroresBackend | FrontEnd/src/pages/auth/RegisterPage.jsx:81-90 | the same keys as the backend's errors; an array maps to its first element, anything else to itself |
| RegisterPage.PrimerError | FrontEnd/src/pages/auth/RegisterPage.jsx:84-90 | `valor[0]` for an array, the value itself otherwise; an empty array yields a falsy entry |
| RegisterPage.ManejarErrorRegistro | FrontEnd/src/pages/auth/RegisterPage.jsx:79-93 | no response body keeps the errors; otherwise the mapped backend errors override the previous ones, the rest are kept, and a truthy mapped error makes `hayErrores` true |
| RegisterPage.ErroresBackendYFormulario | FrontEnd/src/pages/auth/RegisterPage.jsx:79-99 | once the backend's errors are merged, a truthy first message makes `formularioValido` false; with no truthy first message and no earlier truthy error, the form is valid iff every field is filled in |
| ApiSerializers.CampoTexto | Backend/Api/serializers.py:5-6 | a required character field: accepted iff present and non-blank once stripped, and long enough when a minimum is set; returns the stripped value |
| ApiSerializers.Validate | Backend/Api/serializers.py:12-15 | accepts iff the two passwords are equal, returning the data unchanged; otherwise "Las contraseñas no coinciden" |
| ApiSerializers.ValidarRegistro | Backend/Api/serializers.py:4-15 | `is_valid()`: a rejection is the mismatch message or non-empty errors keyed by the password fields; an acceptance holds equal passwords of at least 8 characters and only declared fields that were sent, each trimmed |
| ApiSerializers.ErroresPorCampo | Backend/Api/serializers.py:5-6 | a missing password is required; a short one is too short (8); a blank confirmation is blank; no field error iff both pass |
| ApiSerializers.RegistroAceptadoSii | Backend/Api/serializers.py:5-15 | accepted iff the stripped password has at least 8 characters, the confirmation is not blank, and both are equal once stripped; the result keeps exactly the declared fields that were sent, each trimmed |
| ApiSerializers.NoCoincidenRechazado | Backend/Api/serializers.py:12-14 | two valid passwords that differ are refused with the message of `validate` |
| ApiSerializers.DatosValidados.constructor | Backend/Api/serializers.py:17 | the validated data as received |
| ApiSerializers.DatosValidados.Pop | Backend/Api/serializers.py:18 | `pop` returns the value and removes exactly that key |
| ApiSerializers.Create | Backend/Api/serializers.py:17-20 | `create` leaves the data without `password_confirm` and passes the rest to `create_user` |
| ApiSerializers.CreacionTrasValidar | Backend/Api/serializers.py:10-20 | after validation, `create_user` gets the declared fields that were sent except the confirmation, each trimmed, and a stripped password of at least 8 characters |
| ApiSerializers.EjemploEspaciosRecortados | Backend/Api/serializers.py:5-15 | "  secreto1 " confirms "secreto1" |
| ApiSerializers.EjemploPasswordCorta | Backend/Api/serializers.py:5 | a seven-character password is refused as too short |

## Left out

- Floating-point rendering: the `:.1f`, `toFixed(1)`, `toFixed(2)` and `parseFloat` texts are not modelled. The ladders give the exact value (a `real`) and the unit.
- FileValidation.FormatFileSize: the unit index is the exact integer logarithm base 1024. A `Math.log` quotient rounded just below an integer at an exact power of 1024 is not modelled. The value is not given once the index runs past GB (the unit is `undefined`). The client's "Bytes" label is the backend's B.
- Case folding is ASCII lower-casing, shared by the database's `icontains`, Python's `lower()` and the `i` flag of the client's regular expression. Collations and Unicode folding are not modelled.
- Resaltado.ResaltarTermino: the term is treated as a literal. A term holding regular-expression metacharacters builds another pattern in the source.
- String lengths are counts of code points. JavaScript counts UTF-16 units, which differs outside the Basic Multilingual Plane.
- Time is an integer parameter `ahora`, in seconds on one clock. `timezone.now()` is taken once per call, and once for the whole admin loop.
- I/O is not modelled: temporary files, logging, requests and the network. The PDF and OCR libraries are replaced by the text they produce per page, or None when they raise.
- The 500 answer of the upload for an unexpected exception is not modelled, because only the library calls raise and they are inputs.
- Processing time is not modelled: `tiempo_procesamiento` (a Decimal), its rounding, and the statistics' average.
- JWT authentication, permissions, concurrency and `transaction.atomic` are not modelled; the model is sequential and the requester is a parameter.
- DRF pagination is modelled by its outcome. The hyperlinks of `siguiente` and `anterior` are reduced to whether they are present. `page_size` values that are not integers count as absent.
- Models.PorUsuarioAnadir: the manager's querysets are modelled in table order. The model's default newest-first `Meta.ordering` (models.py:141) is applied only where the search orders its results; statistics, detail and the admin actions do not depend on order.
- Views.Buscar: the `ordering` query parameter that `OrderingFilter` accepts on `fecha_procesamiento` and `nombre_archivo` (views.py:333-334, applied by `super().list`) is not modelled; results always come newest first, the view's default. The client's `buscarDocumentos` never sends it.
- `DocumentoListView` and `DocumentoListaSerializer`, the unfiltered listing, are not part of this model.
- RegisterPage.ManejarErrorRegistro: non-object error bodies (a string, an array) are not modelled; the backend's error body is a map.
- The model-derived rules of the registration serializer for `username`, `email` and the names (required, maximum length, e-mail format, uniqueness) are not modelled; only the trimming those fields share with every character field is.
- `create_user`'s password hashing and the saving of the user are not modelled; the model stops at the arguments passed.
- `PositiveIntegerField`'s upper bound on `tamaño_bytes` is not modelled, because it is a database limit, not a rule of the code.
