/** The account-registration serializer `SerializadorRegistroUsuario`: its
    two password fields, the confirmation check in `validate`, and `create`,
    which drops the confirmation before the user is created. */
module ApiSerializers {
  import opened Wrappers
  import opened Strings

  /** The declared fields (`Meta.fields`). */
  const CamposRegistro: set<string> := {"username", "email", "password", "password_confirm", "first_name", "last_name"}

  const Password := "password"
  const PasswordConfirm := "password_confirm"
  const MinimoPassword: nat := 8
  const MensajeNoCoinciden := "Las contraseñas no coinciden"

  /** Why a character field rejects its input: it is missing, blank once
      trimmed, or shorter than its minimum. */
  datatype ErrorCampo = Requerido | EnBlanco | MuyCorto(minimo: nat)

  /** A field-by-field rejection, or the one raised by `validate`. */
  datatype ErrorRegistro = PorCampo(errores: map<string, ErrorCampo>) | NoValida(mensaje: string)

  /** A required `CharField` with the default `trim_whitespace` and no blank
      allowed: the value is stripped, must not then be empty, and must be at
      least `minimo` characters long when a minimum is set. */
  function CampoTexto(data: map<string, string>, campo: string, minimo: Option<nat>): (r: Result<string, ErrorCampo>)
    ensures r.Ok? <==> campo in data && Strip(data[campo]) != []
                       && (minimo.Some? ==> |Strip(data[campo])| >= minimo.value)
    ensures r.Ok? ==> r.value == Strip(data[campo])
    ensures campo !in data ==> r == Err(Requerido)
  {
    if campo !in data then Err(Requerido)
    else if Strip(data[campo]) == [] then Err(EnBlanco)
    else if minimo.Some? && |Strip(data[campo])| < minimo.value then Err(MuyCorto(minimo.value))
    else Ok(Strip(data[campo]))
  }

  /** The errors of the two password fields, keyed by field. */
  function ErroresPassword(data: map<string, string>): map<string, ErrorCampo> {
    var p := CampoTexto(data, Password, Some(MinimoPassword));
    var c := CampoTexto(data, PasswordConfirm, None);
    (if p.Err? then map[Password := p.error] else map[])
      + (if c.Err? then map[PasswordConfirm := c.error] else map[])
  }

  /** `validate`: the two passwords must be equal; the data is then
      returned as it came. */
  function Validate(data: map<string, string>): (r: Result<map<string, string>, ErrorRegistro>)
    requires Password in data && PasswordConfirm in data
    ensures r.Ok? <==> data[Password] == data[PasswordConfirm]
    ensures r.Ok? ==> r.value == data
    ensures r.Err? ==> r.error == NoValida(MensajeNoCoinciden)
  {
    if data[Password] != data[PasswordConfirm] then Err(NoValida(MensajeNoCoinciden))
    else Ok(data)
  }

  /** The whole validation: the two password fields are checked, every
      declared field that was sent is kept with surrounding whitespace
      trimmed (the default of the character and e-mail fields), and only
      when both passwords pass does `validate` run. */
  function ValidarRegistro(data: map<string, string>): (r: Result<map<string, string>, ErrorRegistro>)
    ensures r.Err? ==> r.error == NoValida(MensajeNoCoinciden)
                       || (r.error.PorCampo? && r.error.errores != map[]
                           && r.error.errores.Keys <= {Password, PasswordConfirm})
    ensures r.Ok? ==> Password in r.value && PasswordConfirm in r.value
                      && r.value[Password] == r.value[PasswordConfirm]
                      && |r.value[Password]| >= MinimoPassword
    ensures r.Ok? ==> forall campo :: campo in r.value ==>
                        campo in CamposRegistro && campo in data && r.value[campo] == Strip(data[campo])
  {
    var p := CampoTexto(data, Password, Some(MinimoPassword));
    var c := CampoTexto(data, PasswordConfirm, None);
    if p.Err? || c.Err? then
      assert p.Err? ==> Password in ErroresPassword(data);
      assert c.Err? ==> PasswordConfirm in ErroresPassword(data);
      Err(PorCampo(ErroresPassword(data)))
    else
      var declarados := map campo | campo in data && campo in CamposRegistro :: Strip(data[campo]);
      Validate(declarados)
  }

  /** Each password field is rejected on its own terms, and the confirmation
      check runs only once both pass. */
  lemma ErroresPorCampo(data: map<string, string>)
    ensures Password !in data ==> ErroresPassword(data)[Password] == Requerido
    ensures Password in data && Strip(data[Password]) != [] && |Strip(data[Password])| < MinimoPassword
            ==> ErroresPassword(data)[Password] == MuyCorto(MinimoPassword)
    ensures PasswordConfirm in data && Strip(data[PasswordConfirm]) == []
            ==> ErroresPassword(data)[PasswordConfirm] == EnBlanco
    ensures ErroresPassword(data) == map[]
        <==> Password in data && |Strip(data[Password])| >= MinimoPassword
             && PasswordConfirm in data && Strip(data[PasswordConfirm]) != []
  {
    var p := CampoTexto(data, Password, Some(MinimoPassword));
    var c := CampoTexto(data, PasswordConfirm, None);
    if p.Err? {
      assert Password in ErroresPassword(data);
    }
    if c.Err? {
      assert PasswordConfirm in ErroresPassword(data);
    }
  }

  /** Registration is accepted exactly when the password, once trimmed, has
      at least eight characters, the confirmation is not blank, and the two
      trimmed values are equal; the result is the declared fields with the
      trimmed passwords and every other declared field trimmed. */
  lemma RegistroAceptadoSii(data: map<string, string>)
    ensures ValidarRegistro(data).Ok?
        <==> Password in data && |Strip(data[Password])| >= MinimoPassword
             && PasswordConfirm in data && Strip(data[PasswordConfirm]) != []
             && Strip(data[Password]) == Strip(data[PasswordConfirm])
    ensures ValidarRegistro(data).Ok? ==>
              var v := ValidarRegistro(data).value;
              && v.Keys == (data.Keys * CamposRegistro)
              && v[Password] == v[PasswordConfirm] == Strip(data[Password])
              && |v[Password]| >= MinimoPassword
              && forall campo :: campo in v ==> v[campo] == Strip(data[campo])
  {
    ErroresPorCampo(data);
  }

  /** Two valid passwords that differ once trimmed are refused with the
      message of `validate`. */
  lemma NoCoincidenRechazado(data: map<string, string>)
    requires Password in data && |Strip(data[Password])| >= MinimoPassword
    requires PasswordConfirm in data && Strip(data[PasswordConfirm]) != []
    requires Strip(data[Password]) != Strip(data[PasswordConfirm])
    ensures ValidarRegistro(data) == Err(NoValida(MensajeNoCoinciden))
  {
    ErroresPorCampo(data);
  }

  /** The validated data handed to `create`. */
  class DatosValidados {
    var campos: map<string, string>

    constructor (campos: map<string, string>)
      ensures this.campos == campos
    {
      this.campos := campos;
    }

    /** `validated_data.pop('password_confirm')`: the entry is removed and
        its value returned. */
    method Pop(clave: string) returns (valor: string)
      requires clave in campos
      modifies this
      ensures valor == old(campos)[clave]
      ensures campos == old(campos) - {clave}
    {
      valor := campos[clave];
      campos := campos - {clave};
    }
  }

  /** What `create_user` receives: the validated data without the
      confirmation. */
  function ArgumentosCreacion(validado: map<string, string>): map<string, string> {
    validado - {PasswordConfirm}
  }

  /** `create`: pops the confirmation and passes the remaining fields to
      `create_user`, whose arguments are returned. */
  method Create(datos: DatosValidados) returns (argumentos: map<string, string>)
    requires PasswordConfirm in datos.campos
    modifies datos
    ensures datos.campos == ArgumentosCreacion(old(datos.campos))
    ensures argumentos == datos.campos
  {
    var _ := datos.Pop(PasswordConfirm);
    argumentos := datos.campos;
  }

  /** After a successful validation, `create_user` gets every other declared
      field that was sent, trimmed, and the trimmed password of at least
      eight characters, but never the confirmation. */
  lemma CreacionTrasValidar(data: map<string, string>)
    requires ValidarRegistro(data).Ok?
    ensures PasswordConfirm in ValidarRegistro(data).value
    ensures var a := ArgumentosCreacion(ValidarRegistro(data).value);
      && PasswordConfirm !in a
      && a.Keys == (data.Keys * CamposRegistro) - {PasswordConfirm}
      && Password in a && a[Password] == Strip(data[Password]) && |a[Password]| >= MinimoPassword
      && forall campo :: campo in a ==> a[campo] == Strip(data[campo])
  {
    RegistroAceptadoSii(data);
  }

  /** Surrounding spaces are trimmed before the comparison, so "  secreto1 "
      confirms "secreto1". */
  lemma EjemploEspaciosRecortados()
    ensures ValidarRegistro(map[Password := "  secreto1 ", PasswordConfirm := "secreto1"]).Ok?
  {
    var data := map[Password := "  secreto1 ", PasswordConfirm := "secreto1"];
    var a := "  secreto1 ";
    assert SkipSpace(a, 2) == 2;
    StripExacto(a, 2, 8);
    assert a[2..10] == "secreto1";
    StripNoSpace("secreto1");
    RegistroAceptadoSii(data);
  }

  /** A seven-character password is too short. */
  lemma EjemploPasswordCorta()
    ensures ValidarRegistro(map[Password := "abcdefg", PasswordConfirm := "abcdefg"])
         == Err(PorCampo(map[Password := MuyCorto(8)]))
  {
    var data := map[Password := "abcdefg", PasswordConfirm := "abcdefg"];
    StripNoSpace("abcdefg");
    assert CampoTexto(data, Password, Some(MinimoPassword)) == Err(MuyCorto(8));
    assert CampoTexto(data, PasswordConfirm, None).Ok?;
    assert ErroresPassword(data) == map[Password := MuyCorto(8)] + map[];
    assert map[Password := MuyCorto(8)] + map[] == map[Password := MuyCorto(8)];
  }
}
