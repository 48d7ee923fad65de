/** The logic of the client's registration page: the password-strength
    meter `calcularFortalezaPassword`, the `formularioValido` flag and the
    mapping of the backend's field errors in `manejarSubmit`. */
module RegisterPage {
  import opened Wrappers

  // ---------------------------------------------------------------------------
  // `calcularFortalezaPassword`

  /** A label of the meter and its colour. */
  datatype Etiqueta = Etiqueta(texto: string, color: string)

  /** What the meter shows: how many criteria are met, a label and a colour. */
  datatype Fortaleza = Fortaleza(nivel: nat, texto: string, color: string)

  /** The five labels, weakest first (`niveles`). */
  const Niveles: seq<Etiqueta> := [
    Etiqueta("Muy débil", "#f44336"),
    Etiqueta("Débil", "#ff9800"),
    Etiqueta("Regular", "#ffc107"),
    Etiqueta("Buena", "#4caf50"),
    Etiqueta("Muy fuerte", "#2e7d32")
  ]

  /** The meter for an empty password. */
  const SinPassword := Fortaleza(0, "", "#e0e0e0")

  predicate EsMinuscula(c: char) { 'a' <= c <= 'z' }
  predicate EsMayuscula(c: char) { 'A' <= c <= 'Z' }
  predicate EsDigito(c: char) { '0' <= c <= '9' }
  predicate EsEspecial(c: char) { c in "!@#$%^&*" }

  /** The look-ahead patterns are tried at every start position, so each one
      holds as soon as one character of its class occurs anywhere. */
  predicate TieneMinuscula(p: string) { exists i :: 0 <= i < |p| && EsMinuscula(p[i]) }
  predicate TieneMayuscula(p: string) { exists i :: 0 <= i < |p| && EsMayuscula(p[i]) }
  predicate TieneDigito(p: string) { exists i :: 0 <= i < |p| && EsDigito(p[i]) }
  predicate TieneEspecial(p: string) { exists i :: 0 <= i < |p| && EsEspecial(p[i]) }

  /** The five criteria, in the order they are scored. */
  function Criterios(p: string): seq<bool> {
    [|p| >= 8, TieneMinuscula(p), TieneMayuscula(p), TieneDigito(p), TieneEspecial(p)]
  }

  /** How many entries of `bs` hold. */
  function CuentaSi(bs: seq<bool>): (n: nat)
    ensures n <= |bs|
    ensures n == |bs| <==> forall i :: 0 <= i < |bs| ==> bs[i]
    ensures n == 0 <==> forall i :: 0 <= i < |bs| ==> !bs[i]
  {
    if bs == [] then 0
    else
      var resto := CuentaSi(bs[1..]);
      assert forall i :: 1 <= i < |bs| ==> bs[i] == bs[1..][i - 1];
      (if bs[0] then 1 else 0) + resto
  }

  /** The number of criteria the password meets. */
  function Cumplidos(p: string): nat {
    CuentaSi(Criterios(p))
  }

  /** `niveles[i]`, which is `undefined` outside the array. */
  function NivelEn(i: int): Option<Etiqueta> {
    if 0 <= i < |Niveles| then Some(Niveles[i]) else None
  }

  /** `niveles[Math.min(puntos - 1, 4)] || niveles[0]`. */
  function EtiquetaDe(puntos: nat): Etiqueta {
    var i := if puntos - 1 < 4 then puntos - 1 else 4;
    match NivelEn(i)
    case Some(e) => e
    case None => Niveles[0]
  }

  /** What the meter shows for a password. */
  function FortalezaDe(p: string): (f: Fortaleza)
    ensures f == SinPassword <==> p == []
    ensures f.nivel <= |Niveles|
    ensures p != [] ==> Etiqueta(f.texto, f.color) in Niveles
  {
    if p == [] then SinPassword
    else Fortaleza(Cumplidos(p), EtiquetaDe(Cumplidos(p)).texto, EtiquetaDe(Cumplidos(p)).color)
  }

  lemma CuentaCinco(a: bool, b: bool, c: bool, d: bool, e: bool)
    ensures CuentaSi([a, b, c, d, e])
         == (if a then 1 else 0) + (if b then 1 else 0) + (if c then 1 else 0)
          + (if d then 1 else 0) + (if e then 1 else 0)
  {
    assert [e][1..] == [];
    assert CuentaSi([e]) == (if e then 1 else 0);
    assert [d, e][1..] == [e];
    assert CuentaSi([d, e]) == (if d then 1 else 0) + CuentaSi([e]);
    assert [c, d, e][1..] == [d, e];
    assert CuentaSi([c, d, e]) == (if c then 1 else 0) + CuentaSi([d, e]);
    assert [b, c, d, e][1..] == [c, d, e];
    assert CuentaSi([b, c, d, e]) == (if b then 1 else 0) + CuentaSi([c, d, e]);
    assert [a, b, c, d, e][1..] == [b, c, d, e];
  }

  /** `calcularFortalezaPassword`: an empty password shows nothing;
      otherwise one point per criterion met, and the label of that score. */
  method CalcularFortalezaPassword(password: string) returns (f: Fortaleza)
    ensures f == FortalezaDe(password)
  {
    if password == [] {
      return SinPassword;
    }
    var puntos := 0;
    if |password| >= 8 {
      puntos := puntos + 1;
    }
    if TieneMinuscula(password) {
      puntos := puntos + 1;
    }
    if TieneMayuscula(password) {
      puntos := puntos + 1;
    }
    if TieneDigito(password) {
      puntos := puntos + 1;
    }
    if TieneEspecial(password) {
      puntos := puntos + 1;
    }
    CuentaCinco(|password| >= 8, TieneMinuscula(password), TieneMayuscula(password),
                TieneDigito(password), TieneEspecial(password));
    assert puntos == Cumplidos(password);
    var e := EtiquetaDe(puntos);
    f := Fortaleza(puntos, e.texto, e.color);
  }

  /** The score is at most five; it is five exactly when every criterion is
      met, and zero exactly when none is. */
  lemma NivelSegunCriterios(p: string)
    ensures Cumplidos(p) <= 5
    ensures Cumplidos(p) == 5 <==> |p| >= 8 && TieneMinuscula(p) && TieneMayuscula(p) && TieneDigito(p) && TieneEspecial(p)
    ensures Cumplidos(p) == 0 <==> |p| < 8 && !TieneMinuscula(p) && !TieneMayuscula(p) && !TieneDigito(p) && !TieneEspecial(p)
  {
    var c := Criterios(p);
    assert c[0] == (|p| >= 8) && c[1] == TieneMinuscula(p) && c[2] == TieneMayuscula(p);
    assert c[3] == TieneDigito(p) && c[4] == TieneEspecial(p);
  }

  /** A score from one to five reads its own label; a non-empty password that
      meets no criterion falls back to the first one. */
  lemma EtiquetaSegunNivel(p: string)
    requires p != []
    ensures 1 <= Cumplidos(p) ==> FortalezaDe(p).texto == Niveles[Cumplidos(p) - 1].texto
    ensures Cumplidos(p) == 0 ==> FortalezaDe(p).texto == "Muy débil" && FortalezaDe(p).color == "#f44336"
  {
    NivelSegunCriterios(p);
  }

  /** The label is "Muy fuerte" exactly when all five criteria are met. */
  lemma MuyFuerteSiiTodos(p: string)
    requires p != []
    ensures FortalezaDe(p).texto == "Muy fuerte"
        <==> |p| >= 8 && TieneMinuscula(p) && TieneMayuscula(p) && TieneDigito(p) && TieneEspecial(p)
  {
    NivelSegunCriterios(p);
    var n := Cumplidos(p);
    if n < 5 {
      assert EtiquetaDe(n) == Niveles[if n == 0 then 0 else n - 1];
      assert Niveles[0].texto != "Muy fuerte" && Niveles[1].texto != "Muy fuerte";
      assert Niveles[2].texto != "Muy fuerte" && Niveles[3].texto != "Muy fuerte";
    }
  }

  /** Typing more characters never lowers the score: every criterion that
      holds for a password still holds once it is extended. */
  lemma NivelMonotono(p: string, q: string)
    ensures Cumplidos(p) <= Cumplidos(p + q)
  {
    var a := Criterios(p);
    var b := Criterios(p + q);
    forall k | 0 <= k < 5 && a[k]
      ensures b[k]
    {
      if k > 0 {
        var i :| 0 <= i < |p| && (if k == 1 then EsMinuscula(p[i]) else if k == 2 then EsMayuscula(p[i])
                                   else if k == 3 then EsDigito(p[i]) else EsEspecial(p[i]));
        assert (p + q)[i] == p[i];
      }
    }
    CuentaMonotona(a, b);
  }

  /** One sequence of flags holding wherever another does counts at least
      as many. */
  lemma {:induction false} CuentaMonotona(a: seq<bool>, b: seq<bool>)
    requires |a| == |b|
    requires forall k :: 0 <= k < |a| && a[k] ==> b[k]
    ensures CuentaSi(a) <= CuentaSi(b)
  {
    if a != [] {
      assert forall k :: 0 <= k < |a[1..]| && a[1..][k] ==> b[1..][k] by {
        forall k | 0 <= k < |a[1..]| && a[1..][k] ensures b[1..][k] {
          assert a[1..][k] == a[k + 1] && b[1..][k] == b[k + 1];
        }
      }
      CuentaMonotona(a[1..], b[1..]);
    }
  }

  /** "Abcdef1!" meets every criterion. */
  lemma EjemploMuyFuerte()
    ensures FortalezaDe("Abcdef1!") == Fortaleza(5, "Muy fuerte", "#2e7d32")
  {
    var p := "Abcdef1!";
    assert EsMayuscula(p[0]) && EsMinuscula(p[1]) && EsDigito(p[6]) && EsEspecial(p[7]);
    NivelSegunCriterios(p);
  }

  /** A non-empty password of spaces meets no criterion and still reads
      "Muy débil". */
  lemma EjemploSinCriterios()
    ensures FortalezaDe("   ") == Fortaleza(0, "Muy débil", "#f44336")
  {
    var p := "   ";
    assert forall i :: 0 <= i < |p| ==> p[i] == ' ';
    NivelSegunCriterios(p);
  }

  // ---------------------------------------------------------------------------
  // `formularioValido`

  /** A JavaScript value as the form's error entries can hold it. */
  datatype Valor = Indefinido | Nulo | Booleano(b: bool) | Numero(n: int) | Texto(s: string) | Lista(items: seq<Valor>)

  /** JavaScript truthiness: `undefined`, `null`, `false`, `0` and `''` are
      falsy; every array, even an empty one, is truthy. */
  predicate Verdadero(v: Valor) {
    match v
    case Indefinido => false
    case Nulo => false
    case Booleano(b) => b
    case Numero(n) => n != 0
    case Texto(s) => s != []
    case Lista(_) => true
  }

  /** The keys of `valoresIniciales`. */
  const Campos: seq<string> := ["username", "email", "first_name", "last_name", "password", "password_confirm"]

  /** `todosLosCamposCompletos`: every field of the form holds a non-empty
      value. */
  predicate TodosLosCamposCompletos(valores: map<string, string>) {
    forall i :: 0 <= i < |Campos| ==> Campos[i] in valores && valores[Campos[i]] != []
  }

  /** `hayErrores`: some error entry is truthy. */
  predicate HayErrores(errores: map<string, Valor>) {
    exists campo :: campo in errores && Verdadero(errores[campo])
  }

  /** `formularioValido`. */
  predicate FormularioValido(valores: map<string, string>, errores: map<string, Valor>) {
    TodosLosCamposCompletos(valores) && !HayErrores(errores)
  }

  /** The form is valid exactly when no field is empty or missing and no
      error entry is truthy. */
  lemma FormularioValidoSii(valores: map<string, string>, errores: map<string, Valor>)
    ensures FormularioValido(valores, errores)
        <==> ((forall campo :: campo in Campos ==> campo in valores && valores[campo] != [])
              && (forall campo :: campo in errores ==> !Verdadero(errores[campo])))
  {
    if forall campo :: campo in Campos ==> campo in valores && valores[campo] != [] {
      forall i | 0 <= i < |Campos| ensures Campos[i] in valores && valores[Campos[i]] != [] {
        assert Campos[i] in Campos;
      }
    }
  }

  /** What the backend's errors do to `formularioValido` once merged as
      `ManejarErrorRegistro` merges them: a truthy first message blocks the
      form; when no first message is truthy and no earlier error was, the
      form is valid exactly when every field is filled in. */
  lemma ErroresBackendYFormulario(valores: map<string, string>, prev: map<string, Valor>,
                                  backend: map<string, Valor>, errores: map<string, Valor>)
    requires errores.Keys == prev.Keys + backend.Keys
    requires forall campo :: campo in backend ==> errores[campo] == PrimerError(backend[campo])
    requires forall campo :: campo in prev && campo !in backend ==> errores[campo] == prev[campo]
    ensures (exists campo :: campo in backend && Verdadero(PrimerError(backend[campo])))
            ==> !FormularioValido(valores, errores)
    ensures (forall campo :: campo in backend ==> !Verdadero(PrimerError(backend[campo]))) && !HayErrores(prev)
            ==> (FormularioValido(valores, errores) <==> TodosLosCamposCompletos(valores))
  {
    if exists campo :: campo in backend && Verdadero(PrimerError(backend[campo])) {
      var campo :| campo in backend && Verdadero(PrimerError(backend[campo]));
      assert campo in errores && Verdadero(errores[campo]);
    }
  }

  /** The form as it starts, all fields empty, is not valid. */
  lemma FormularioInicialInvalido(errores: map<string, Valor>)
    ensures !FormularioValido(map campo | campo in Campos :: "", errores)
  {
    var valores := map campo | campo in Campos :: "";
    assert Campos[0] in Campos;
    assert valores[Campos[0]] == "";
  }

  // ---------------------------------------------------------------------------
  // Backend error mapping in `manejarSubmit`

  /** An array stands for its first element (`undefined` when it is empty);
      any other value stands for itself. */
  function PrimerError(v: Valor): (r: Valor)
    ensures !v.Lista? ==> r == v
    ensures v.Lista? && v.items != [] ==> r == v.items[0]
    ensures v.Lista? && v.items == [] ==> !Verdadero(r)
  {
    match v
    case Lista(items) => if items == [] then Indefinido else items[0]
    case _ => v
  }

  /** The `forEach` over the keys of the backend's error object, in
      whatever order they come: each field gets its first message. */
  method MapearErroresBackend(backend: map<string, Valor>) returns (nuevos: map<string, Valor>)
    ensures nuevos.Keys == backend.Keys
    ensures forall campo :: campo in backend ==> nuevos[campo] == PrimerError(backend[campo])
  {
    nuevos := map[];
    var pendientes := backend.Keys;
    while pendientes != {}
      invariant pendientes <= backend.Keys
      invariant nuevos.Keys == backend.Keys - pendientes
      invariant forall campo :: campo in nuevos ==> nuevos[campo] == PrimerError(backend[campo])
      decreases |pendientes|
    {
      var campo :| campo in pendientes;
      nuevos := nuevos[campo := PrimerError(backend[campo])];
      pendientes := pendientes - {campo};
    }
  }

  /** The failed-registration branch: without a response body the errors
      stay as they were; otherwise the mapped backend errors are merged over
      them (`{ ...prev, ...nuevosErrores }`). */
  method ManejarErrorRegistro(prev: map<string, Valor>, data: Option<map<string, Valor>>) returns (errores: map<string, Valor>)
    ensures data.None? ==> errores == prev
    ensures data.Some? ==> errores.Keys == prev.Keys + data.value.Keys
    ensures data.Some? ==> forall campo :: campo in data.value ==> errores[campo] == PrimerError(data.value[campo])
    ensures data.Some? ==> forall campo :: campo in prev && campo !in data.value ==> errores[campo] == prev[campo]
    ensures data.Some? && (exists campo :: campo in data.value && Verdadero(PrimerError(data.value[campo])))
            ==> HayErrores(errores)
  {
    errores := prev;
    if data.Some? {
      var nuevos := MapearErroresBackend(data.value);
      errores := prev + nuevos;
    }
  }
}
