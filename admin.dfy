/** The two bulk actions of `DocumentoProcesadoAdmin`: mark the selected
    records as deleted one by one, and restore the selected deleted ones
    with a single `update()`. A selection is the set of primary keys the
    administrator ticked. */
module Admin {
  import opened Wrappers
  import opened Models

  // ---------------------------------------------------------------------------
  // `marcar_como_eliminado`

  /** A selected record that is still active: the only kind the loop
      deletes and counts. */
  predicate PorEliminar(d: Documento, seleccion: set<nat>) {
    d.id in seleccion && !d.eliminado
  }

  /** What the loop leaves of one record. */
  function Marcado(d: Documento, seleccion: set<nat>, ahora: int): Documento {
    if PorEliminar(d, seleccion) then EliminadoSuave(d, ahora) else d
  }

  /** The table after the action, position by position. */
  function Marcados(s: seq<Documento>, seleccion: set<nat>, ahora: int): (r: seq<Documento>)
    ensures |r| == |s|
    ensures forall i :: 0 <= i < |s| ==> r[i] == Marcado(s[i], seleccion, ahora)
  {
    seq(|s|, i requires 0 <= i < |s| => Marcado(s[i], seleccion, ahora))
  }

  /** How many records of `s` the action deletes. */
  function ContarPorEliminar(s: seq<Documento>, seleccion: set<nat>): nat {
    if s == [] then 0
    else ContarPorEliminar(s[..|s| - 1], seleccion) + (if PorEliminar(s[|s| - 1], seleccion) then 1 else 0)
  }

  /** `marcar_como_eliminado` at time `ahora`: the loop over the queryset
      soft-deletes each selected record that is not deleted yet and counts
      it. */
  method MarcarComoEliminado(almacen: Almacen, seleccion: set<nat>, ahora: int) returns (count: nat)
    requires almacen.Valid()
    modifies almacen
    ensures almacen.Valid() && almacen.siguienteId == old(almacen.siguienteId)
    ensures almacen.documentos == Marcados(old(almacen.documentos), seleccion, ahora)
    ensures count == ContarPorEliminar(old(almacen.documentos), seleccion)
  {
    ghost var antes := almacen.documentos;
    var n := |almacen.documentos|;
    count := 0;
    for i := 0 to n
      invariant almacen.Valid() && almacen.siguienteId == old(almacen.siguienteId)
      invariant |almacen.documentos| == |antes|
      invariant forall k :: 0 <= k < i ==> almacen.documentos[k] == Marcado(antes[k], seleccion, ahora)
      invariant forall k :: i <= k < |antes| ==> almacen.documentos[k] == antes[k]
      invariant count == ContarPorEliminar(antes[..i], seleccion)
    {
      assert antes[..i + 1][..i] == antes[..i];
      var documento := almacen.documentos[i];
      if !documento.eliminado && documento.id in seleccion {
        almacen.EliminarSuave(i, ahora);
        count := count + 1;
      }
    }
    assert antes[..|antes|] == antes;
  }

  /** After the action every selected record is deleted. */
  lemma MarcadosEliminados(s: seq<Documento>, seleccion: set<nat>, ahora: int, i: nat)
    requires i < |s| && s[i].id in seleccion
    ensures Marcados(s, seleccion, ahora)[i].eliminado
  {
  }

  /** A selected record that was already deleted keeps its deletion date and
      every other field; so does every record outside the selection. */
  lemma MarcadosSinTocar(s: seq<Documento>, seleccion: set<nat>, ahora: int, i: nat)
    requires i < |s| && (s[i].eliminado || s[i].id !in seleccion)
    ensures Marcados(s, seleccion, ahora)[i] == s[i]
  {
  }

  /** A record the action deletes keeps its data and gets the deletion
      stamps of `delete()`. */
  lemma MarcadosRecienEliminados(s: seq<Documento>, seleccion: set<nat>, ahora: int, i: nat)
    requires i < |s| && PorEliminar(s[i], seleccion)
    ensures var d := Marcados(s, seleccion, ahora)[i];
      MismoContenido(s[i], d) && d.eliminado && d.fechaEliminacion == Some(ahora) && d.actualizadoEn == ahora
  {
  }

  /** Running the action a second time deletes nothing and changes nothing. */
  lemma MarcarDosVeces(s: seq<Documento>, seleccion: set<nat>, t1: int, t2: int)
    ensures Marcados(Marcados(s, seleccion, t1), seleccion, t2) == Marcados(s, seleccion, t1)
    ensures ContarPorEliminar(Marcados(s, seleccion, t1), seleccion) == 0
  {
    NadaPorEliminar(Marcados(s, seleccion, t1), seleccion);
  }

  /** The count is zero exactly when no selected record is active. */
  lemma {:induction false} NadaPorEliminar(s: seq<Documento>, seleccion: set<nat>)
    ensures ContarPorEliminar(s, seleccion) == 0 <==> forall d :: d in s ==> !PorEliminar(d, seleccion)
  {
    if s != [] {
      var init := s[..|s| - 1];
      NadaPorEliminar(init, seleccion);
      assert s == init + [s[|s| - 1]];
      assert forall d :: d in s <==> d in init || d == s[|s| - 1];
    }
  }

  // ---------------------------------------------------------------------------
  // `restaurar_documentos`

  /** A selected record that is deleted: the rows of
      `queryset.filter(eliminado=True)`. */
  predicate PorRestaurar(d: Documento, seleccion: set<nat>) {
    d.id in seleccion && d.eliminado
  }

  /** What `update(eliminado=False, fecha_eliminacion=None)` leaves of one
      record. `update()` does not call `save()`, so `actualizado_en` is
      not refreshed. */
  function Restaurado(d: Documento, seleccion: set<nat>): Documento {
    if PorRestaurar(d, seleccion) then d.(eliminado := false, fechaEliminacion := None) else d
  }

  function Restaurados(s: seq<Documento>, seleccion: set<nat>): (r: seq<Documento>)
    ensures |r| == |s|
    ensures forall i :: 0 <= i < |s| ==> r[i] == Restaurado(s[i], seleccion)
  {
    seq(|s|, i requires 0 <= i < |s| => Restaurado(s[i], seleccion))
  }

  /** The number of rows `update()` reports. */
  function ContarPorRestaurar(s: seq<Documento>, seleccion: set<nat>): nat {
    if s == [] then 0
    else ContarPorRestaurar(s[..|s| - 1], seleccion) + (if PorRestaurar(s[|s| - 1], seleccion) then 1 else 0)
  }

  /** `restaurar_documentos`: one bulk update of the selected deleted rows;
      the count is the number of rows it matched. */
  method RestaurarDocumentos(almacen: Almacen, seleccion: set<nat>) returns (count: nat)
    requires almacen.Valid()
    modifies almacen
    ensures almacen.Valid() && almacen.siguienteId == old(almacen.siguienteId)
    ensures almacen.documentos == Restaurados(old(almacen.documentos), seleccion)
    ensures count == ContarPorRestaurar(old(almacen.documentos), seleccion)
  {
    count := ContarPorRestaurar(almacen.documentos, seleccion);
    almacen.ActualizarEnBloque(Restaurados(almacen.documentos, seleccion));
  }

  /** Exactly the selected deleted records come back: active, without a
      deletion date, everything else as it was. */
  lemma RestauradosActivos(s: seq<Documento>, seleccion: set<nat>, i: nat)
    requires i < |s|
    ensures var d := Restaurados(s, seleccion)[i];
      && (PorRestaurar(s[i], seleccion) ==>
            !d.eliminado && d.fechaEliminacion == None
            && MismoContenido(s[i], d) && d.actualizadoEn == s[i].actualizadoEn)
      && (!PorRestaurar(s[i], seleccion) ==> d == s[i])
  {
  }

  /** No selected record is deleted after a restore, so a second restore
      matches no row. */
  lemma {:induction false} RestaurarDosVeces(s: seq<Documento>, seleccion: set<nat>)
    ensures ContarPorRestaurar(Restaurados(s, seleccion), seleccion) == 0
  {
    if s != [] {
      var init := s[..|s| - 1];
      RestaurarDosVeces(init, seleccion);
      assert Restaurados(s, seleccion)[..|s| - 1] == Restaurados(init, seleccion);
    }
  }

  /** Restoring right after marking gives back each selected active record
      that had no deletion date, except for the `actualizado_en` stamp that
      `delete()` wrote. */
  lemma RestaurarTrasMarcar(s: seq<Documento>, seleccion: set<nat>, ahora: int, i: nat)
    requires i < |s| && PorEliminar(s[i], seleccion) && s[i].fechaEliminacion == None
    ensures Restaurados(Marcados(s, seleccion, ahora), seleccion)[i] == s[i].(actualizadoEn := ahora)
  {
  }

  /** Every selected record is counted by exactly one of the two actions. */
  lemma {:induction false} CuentasSeparanSeleccion(s: seq<Documento>, seleccion: set<nat>)
    ensures ContarPorEliminar(s, seleccion) + ContarPorRestaurar(s, seleccion) == ContarSeleccionados(s, seleccion)
  {
    if s != [] {
      CuentasSeparanSeleccion(s[..|s| - 1], seleccion);
    }
  }

  /** After marking, a restore matches every selected record. */
  lemma {:induction false} RestaurarTrasMarcarCuenta(s: seq<Documento>, seleccion: set<nat>, ahora: int)
    ensures ContarPorRestaurar(Marcados(s, seleccion, ahora), seleccion) == ContarSeleccionados(s, seleccion)
  {
    if s != [] {
      var init := s[..|s| - 1];
      RestaurarTrasMarcarCuenta(init, seleccion, ahora);
      assert Marcados(s, seleccion, ahora)[..|s| - 1] == Marcados(init, seleccion, ahora);
    }
  }

  /** How many records of `s` are selected. */
  function ContarSeleccionados(s: seq<Documento>, seleccion: set<nat>): nat {
    if s == [] then 0
    else ContarSeleccionados(s[..|s| - 1], seleccion) + (if s[|s| - 1].id in seleccion then 1 else 0)
  }
}
