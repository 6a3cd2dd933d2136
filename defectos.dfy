/** Two operations of src/sistemaNotas.js as they are written, beside the
    intended versions in SistemaNotas that the rest of the model uses.

    - Registration (line 17) tests an identifier `password` that is declared
      nowhere; evaluating it throws a ReferenceError, and because `||` stops
      early that happens exactly when the name and the email are both present
      and the email is new, so no registration can ever succeed.
    - Login (line 32) compares the property `password` of each record, but
      registration stores the credential under `contraseña` (line 12); the
      property read gives `undefined`, which equals no string, so no login can
      ever succeed. */
module Defectos {
  import opened SistemaNotas
  import Propiedades

  /** What evaluating a call gives: a returned value, or a thrown ReferenceError. */
  datatype Evaluacion<T> = Devuelve(valor: T) | LanzaReferenceError

  /** `registrarUsuario` as written: the presence check reads `nombre`, then
      `email`, then the undeclared `password`; the parameter `contra` is only
      stored, never checked. */
  function RegistrarTalComoEsta(us: seq<Usuario>, nombre: string, email: string, contra: string)
    : (e: Evaluacion<Paso<Usuario>>)
    ensures e.LanzaReferenceError? <==> !Registrado(us, email) && nombre != [] && email != []
    ensures e.Devuelve? ==> e.valor.usuarios == us && e.valor.resultado.Err?
  {
    if IndiceEmail(us, email).Some? then
      Devuelve(Paso(Err(EmailDuplicado), us))
    else if nombre == [] || email == [] then
      Devuelve(Paso(Err(FaltanDatos), us))
    else
      LanzaReferenceError
  }

  /** As written, every registration the intended code accepts throws instead;
      whenever the written code returns, it returns what the intended code does. */
  lemma RegistrarTalComoEstaNuncaRegistra(us: seq<Usuario>, nombre: string, email: string, contra: string)
    ensures Registrar(us, nombre, email, contra).resultado.Ok? ==>
              RegistrarTalComoEsta(us, nombre, email, contra) == LanzaReferenceError
    ensures RegistrarTalComoEsta(us, nombre, email, contra).Devuelve? ==>
              RegistrarTalComoEsta(us, nombre, email, contra).valor == Registrar(us, nombre, email, contra)
  {
  }

  /** The first registration of tests/sistemaNotas.test.js:21: accepted by the
      intended code, a ReferenceError as written. */
  lemma RegistrarTalComoEstaEjemplo()
    ensures Registrar([], "Paula", "paula@mail.com", "1234").resultado.Ok?
    ensures RegistrarTalComoEsta([], "Paula", "paula@mail.com", "1234") == LanzaReferenceError
  {
  }

  /** `login` as written: the search compares the record's `password`
      property, which registration never sets. */
  function LoginTalComoEsta(us: seq<Usuario>, email: string, password: string): (r: Resultado<Usuario>)
    ensures email == [] || password == [] ==> r == Err(FaltanDatosLogin)
    ensures r.Ok? ==> r.value in us && r.value.email == email
  {
    if email == [] || password == [] then
      Err(FaltanDatosLogin)
    else
      match IndiceLogin(us, email, "password", password)
      case None => Err(Credenciales)
      case Some(i) => Ok(us[i])
  }

  /** As written, login fails on every store and every input: with the
      missing-data error when a field is empty, with the credentials error
      otherwise. */
  lemma LoginTalComoEstaSiempreFalla(us: seq<Usuario>, email: string, password: string)
    ensures LoginTalComoEsta(us, email, password) ==
              if email == [] || password == [] then Err(FaltanDatosLogin) else Err(Credenciales)
  {
    assert forall u: Usuario :: Campo(u, "password") == Indefinido;
  }

  /** After a successful registration the intended login with the same
      credential returns the new record, while the login as written reports
      wrong credentials. */
  lemma LoginTalComoEstaNuncaEntra(us: seq<Usuario>, nombre: string, email: string, contra: string)
    requires !Registrado(us, email) && nombre != [] && email != [] && contra != []
    ensures var vs := Registrar(us, nombre, email, contra).usuarios;
            Login(vs, email, contra) == Ok(Usuario(nombre, email, contra, [])) &&
            LoginTalComoEsta(vs, email, contra) == Err(Credenciales)
  {
    Propiedades.RegistrarLuegoLogin(us, nombre, email, contra);
    LoginTalComoEstaSiempreFalla(Registrar(us, nombre, email, contra).usuarios, email, contra);
  }
}
