/** The user registry of src/sistemaNotas.js as values.

    The module-level list `usuarios` is a `seq<Usuario>` here (the "store").
    Every `usuarios.find(...)` of the source is a search function returning the
    index of the first match, and every operation is a function of the store:
    the two that change it (registration and adding a grade) return a `Paso`
    holding their outcome and the store afterwards; the four queries return
    their answer only. The class in registro.dfy runs the two changing
    operations in place and is proved to agree with these functions. */
module SistemaNotas {

  datatype Option<T> = None | Some(value: T)

  /** One `{materia, nota}` grade entry. */
  datatype Nota = Nota(materia: string, nota: real)

  /** A stored record: name, email, the credential (stored under the property
      `contraseña`) and the grade list in insertion order. */
  datatype Usuario = Usuario(nombre: string, email: string, contrasena: string, notas: seq<Nota>)

  /** One constructor per failure message the operations return. */
  datatype Error =
    | EmailDuplicado    // registration: the email is already registered
    | FaltanDatos       // registration: a required field is empty
    | FaltanDatosLogin  // login: email or password is empty
    | Credenciales      // login: no record matches email and password
    | NotaInvalida      // adding a grade: empty email or subject, or a non-number score
    | FueraDeRango      // adding a grade: score below 0 or above 10
    | NoEncontrado      // adding a grade: no record has that email

  /** The `{success, ...}` objects: `Ok` carries the payload of a success. */
  datatype Resultado<T> = Ok(value: T) | Err(error: Error)

  /** The argument `nota` of `agregarNota`: a JavaScript number, or a value of
      any other type (which the `typeof` check rejects). */
  datatype Entrada = Numero(valor: real) | NoNumero

  /** Outcome of a state-changing operation together with the store after it. */
  datatype Paso<T> = Paso(resultado: Resultado<T>, usuarios: seq<Usuario>)

  /** A property read `u[campo]` on a stored record: `undefined` for a name the
      record does not have. */
  datatype Valor = Indefinido | Texto(s: string) | Lista(notas: seq<Nota>)

  /** The property name under which registration stores the credential. */
  const CONTRASENA: string := "contraseña"

  /** `u[campo]` for a record built by registration: the four own properties
      of the literal, and `undefined` for the other names the source reads
      (`password`); inherited names are not modelled. */
  function Campo(u: Usuario, campo: string): (v: Valor)
    ensures v == Indefinido <==> campo != "nombre" && campo != "email" && campo != CONTRASENA && campo != "notas"
    ensures campo == CONTRASENA ==> v == Texto(u.contrasena)
  {
    if campo == "nombre" then Texto(u.nombre)
    else if campo == "email" then Texto(u.email)
    else if campo == CONTRASENA then Texto(u.contrasena)
    else if campo == "notas" then Lista(u.notas)
    else Indefinido
  }

  // ---------------------------------------------------------------------------
  // Searches

  /** Some stored record has this email. */
  predicate Registrado(us: seq<Usuario>, email: string)
  {
    exists i :: 0 <= i < |us| && us[i].email == email
  }

  /** `usuarios.find(u => u.email === email)`, as the index of the first match. */
  function IndiceEmail(us: seq<Usuario>, email: string): (r: Option<nat>)
    ensures r.None? <==> !Registrado(us, email)
    ensures r.Some? ==> r.value < |us| && us[r.value].email == email
    ensures r.Some? ==> forall j :: 0 <= j < r.value ==> us[j].email != email
  {
    if |us| == 0 then None
    else if us[0].email == email then Some(0)
    else match IndiceEmail(us[1..], email)
      case None =>
        assert forall i :: 1 <= i < |us| ==> us[i] == us[1..][i - 1];
        None
      case Some(i) => Some(i + 1)
  }

  /** The login test `u.email === email && u[campo] === valor`. */
  predicate CoincideLogin(u: Usuario, email: string, campo: string, valor: string)
  {
    u.email == email && Campo(u, campo) == Texto(valor)
  }

  /** `usuarios.find(u => u.email === email && u[campo] === valor)`, as the
      index of the first match. The property name is a parameter because the
      source reads a different one from the one registration writes. */
  function IndiceLogin(us: seq<Usuario>, email: string, campo: string, valor: string): (r: Option<nat>)
    ensures r.None? <==> forall i :: 0 <= i < |us| ==> !CoincideLogin(us[i], email, campo, valor)
    ensures r.Some? ==> r.value < |us| && CoincideLogin(us[r.value], email, campo, valor)
    ensures r.Some? ==> forall j :: 0 <= j < r.value ==> !CoincideLogin(us[j], email, campo, valor)
  {
    if |us| == 0 then None
    else if CoincideLogin(us[0], email, campo, valor) then Some(0)
    else match IndiceLogin(us[1..], email, campo, valor)
      case None =>
        assert forall i :: 1 <= i < |us| ==> us[i] == us[1..][i - 1];
        None
      case Some(i) => Some(i + 1)
  }

  // ---------------------------------------------------------------------------
  // Store invariant

  /** No two records share an email. */
  predicate EmailsUnicos(us: seq<Usuario>)
  {
    forall i, j :: 0 <= i < j < |us| ==> us[i].email != us[j].email
  }

  /** Every record has a non-empty name, email and credential. */
  predicate CamposPresentes(us: seq<Usuario>)
  {
    forall i :: 0 <= i < |us| ==> us[i].nombre != [] && us[i].email != [] && us[i].contrasena != []
  }

  predicate EnRango(n: real)
  {
    0.0 <= n <= 10.0
  }

  /** Every stored score lies in [0, 10]. */
  predicate NotasEnRango(us: seq<Usuario>)
  {
    forall i, k :: 0 <= i < |us| && 0 <= k < |us[i].notas| ==> EnRango(us[i].notas[k].nota)
  }

  /** What the operations keep true of every store they build from the empty one. */
  predicate Valido(us: seq<Usuario>)
  {
    EmailsUnicos(us) && CamposPresentes(us) && NotasEnRango(us)
  }

  // ---------------------------------------------------------------------------
  // registrarUsuario (src/sistemaNotas.js:3-23)

  /** Registration: the duplicate check comes first, then the presence check on
      all three fields, then the new record with no grades is appended and
      returned. The presence check tests the parameter `contra`; the source
      names an undeclared `password` there (see defectos.dfy). */
  function Registrar(us: seq<Usuario>, nombre: string, email: string, contra: string): (s: Paso<Usuario>)
    ensures s.resultado == Err(EmailDuplicado) <==> Registrado(us, email)
    ensures s.resultado == Err(FaltanDatos) <==>
              !Registrado(us, email) && (nombre == [] || email == [] || contra == [])
    ensures s.resultado.Ok? <==>
              !Registrado(us, email) && nombre != [] && email != [] && contra != []
    ensures s.resultado.Err? ==> s.usuarios == us
    ensures s.resultado.Ok? ==>
              s.resultado.value == Usuario(nombre, email, contra, []) &&
              s.usuarios == us + [s.resultado.value]
  {
    if IndiceEmail(us, email).Some? then
      Paso(Err(EmailDuplicado), us)
    else
      var nuevo := Usuario(nombre, email, contra, []);
      if nombre == [] || email == [] || contra == [] then
        Paso(Err(FaltanDatos), us)
      else
        Paso(Ok(nuevo), us + [nuevo])
  }

  // ---------------------------------------------------------------------------
  // login (src/sistemaNotas.js:25-39)

  /** Login: both fields must be present; then the first record whose email and
      stored credential both match is returned. The search reads the property
      registration writes, `contraseña`; the source reads `password` (see
      defectos.dfy). */
  function Login(us: seq<Usuario>, email: string, contra: string): (r: Resultado<Usuario>)
    ensures email == [] || contra == [] ==> r == Err(FaltanDatosLogin)
    ensures r.Ok? <==>
              email != [] && contra != [] &&
              exists i :: 0 <= i < |us| && us[i].email == email && us[i].contrasena == contra
    ensures r.Err? && email != [] && contra != [] ==> r == Err(Credenciales)
    ensures r.Ok? ==>
              exists i :: 0 <= i < |us| && us[i] == r.value &&
                us[i].email == email && us[i].contrasena == contra &&
                forall j :: 0 <= j < i ==> !(us[j].email == email && us[j].contrasena == contra)
  {
    if email == [] || contra == [] then
      Err(FaltanDatosLogin)
    else
      assert forall u: Usuario :: Campo(u, CONTRASENA) == Texto(u.contrasena);
      match IndiceLogin(us, email, CONTRASENA, contra)
      case None => Err(Credenciales)
      case Some(i) => Ok(us[i])
  }

  // ---------------------------------------------------------------------------
  // agregarNota (src/sistemaNotas.js:41-61)

  /** The first check of `agregarNota`: empty email or subject, or a non-number. */
  predicate DatosInvalidos(email: string, materia: string, nota: Entrada)
  {
    email == [] || materia == [] || nota.NoNumero?
  }

  /** Adding a grade: input check, then range check, then the user lookup; on
      success `{materia, nota}` goes at the end of the first record with that
      email and every other record is left as it was. */
  function AgregarNota(us: seq<Usuario>, email: string, materia: string, nota: Entrada): (s: Paso<()>)
    ensures s.resultado == Err(NotaInvalida) <==> DatosInvalidos(email, materia, nota)
    ensures s.resultado == Err(FueraDeRango) <==>
              !DatosInvalidos(email, materia, nota) && !EnRango(nota.valor)
    ensures s.resultado == Err(NoEncontrado) <==>
              !DatosInvalidos(email, materia, nota) && EnRango(nota.valor) && !Registrado(us, email)
    ensures s.resultado.Ok? <==>
              !DatosInvalidos(email, materia, nota) && EnRango(nota.valor) && Registrado(us, email)
    ensures s.resultado.Err? ==> s.usuarios == us
    ensures s.resultado.Ok? ==>
              var i := IndiceEmail(us, email).value;
              |s.usuarios| == |us| &&
              s.usuarios[i] == us[i].(notas := us[i].notas + [Nota(materia, nota.valor)]) &&
              forall j :: 0 <= j < |us| && j != i ==> s.usuarios[j] == us[j]
  {
    if DatosInvalidos(email, materia, nota) then
      Paso(Err(NotaInvalida), us)
    else if nota.valor < 0.0 || nota.valor > 10.0 then
      Paso(Err(FueraDeRango), us)
    else
      match IndiceEmail(us, email)
      case None => Paso(Err(NoEncontrado), us)
      case Some(i) =>
        var u := us[i];
        Paso(Ok(()), us[i := u.(notas := u.notas + [Nota(materia, nota.valor)])])
  }

  // ---------------------------------------------------------------------------
  // obtenerNotas, calcularPromedio, estaAprobado (src/sistemaNotas.js:63-93)

  /** The grade list of the first record with this email; empty when there is none. */
  function ObtenerNotas(us: seq<Usuario>, email: string): (r: seq<Nota>)
    ensures !Registrado(us, email) ==> r == []
    ensures Registrado(us, email) ==>
              exists i :: 0 <= i < |us| && us[i].email == email && r == us[i].notas &&
                forall j :: 0 <= j < i ==> us[j].email != email
  {
    match IndiceEmail(us, email)
    case None => []
    case Some(i) => us[i].notas
  }

  /** `notas.reduce((acc, n) => acc + n.nota, 0)`: a fold from the left. */
  function Suma(gs: seq<Nota>): (s: real)
    ensures gs == [] ==> s == 0.0
  {
    if |gs| == 0 then 0.0 else Suma(gs[..|gs| - 1]) + gs[|gs| - 1].nota
  }

  /** The average: absent for an unknown user and for a user with no grades
      (the two are not told apart), otherwise the exact mean. */
  function CalcularPromedio(us: seq<Usuario>, email: string): (p: Option<real>)
    ensures p.None? <==> ObtenerNotas(us, email) == []
    ensures p.Some? ==>
              var gs := ObtenerNotas(us, email);
              p.value * (|gs| as real) == Suma(gs)
  {
    match IndiceEmail(us, email)
    case None => None
    case Some(i) =>
      var u := us[i];
      if |u.notas| == 0 then None else Some(Suma(u.notas) / (|u.notas| as real))
  }

  /** Passing: the average exists and is at least 6, that is, there are grades
      and their sum is at least six times their number. */
  function EstaAprobado(us: seq<Usuario>, email: string): (b: bool)
    ensures b <==>
              var gs := ObtenerNotas(us, email);
              |gs| > 0 && Suma(gs) >= 6.0 * (|gs| as real)
  {
    match CalcularPromedio(us, email)
    case None => false
    case Some(v) =>
      var gs := ObtenerNotas(us, email);
      MediaAlMenos(v, |gs| as real, Suma(gs), 6.0);
      v >= 6.0
  }

  /** For a positive count, a mean reaches a threshold exactly when the sum
      reaches the threshold times the count. */
  lemma MediaAlMenos(media: real, n: real, suma: real, umbral: real)
    requires n > 0.0 && media * n == suma
    ensures media >= umbral <==> suma >= umbral * n
  {
    if media >= umbral {
      assert (media - umbral) * n >= 0.0;
    } else {
      assert (umbral - media) * n > 0.0;
    }
  }
}
