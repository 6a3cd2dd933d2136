/** The scenarios of tests/sistemaNotas.test.js as clients of the registry:
    each one starts from a fresh `Registro`, performs the calls of the test
    (`Notas` gathers four tests on one registered user) and states in its
    postcondition what the test expects. */
module Escenarios {
  import opened SistemaNotas
  import opened Registros
  import Propiedades

  /** Registering a new user succeeds and returns the record; a second
      registration with the same email fails with the duplicate error. */
  method RegistroNuevoYDuplicado() returns (primero: Resultado<Usuario>, segundo: Resultado<Usuario>)
    ensures primero.Ok? && primero.value.email == "paula@mail.com"
    ensures segundo == Err(EmailDuplicado)
  {
    var reg := new Registro();
    primero := reg.RegistrarUsuario("Paula", "paula@mail.com", "1234");
    segundo := reg.RegistrarUsuario("Otro", "paula@mail.com", "5678");
  }

  /** A missing email, name or password is rejected with the missing-fields error. */
  method RegistroFaltanDatos() returns (sinEmail: Resultado<Usuario>, sinNombre: Resultado<Usuario>,
                                        sinContra: Resultado<Usuario>)
    ensures sinEmail == Err(FaltanDatos)
    ensures sinNombre == Err(FaltanDatos)
    ensures sinContra == Err(FaltanDatos)
  {
    var reg := new Registro();
    sinEmail := reg.RegistrarUsuario("Juan", "", "1234");
    sinNombre := reg.RegistrarUsuario("", "juan@mail.com", "1234");
    sinContra := reg.RegistrarUsuario("Ana", "ana@mail.com", "");
  }

  /** Login with the registered credential returns the record; an unknown email
      or a wrong password gives the credentials error; an empty email gives the
      missing-login-data error. */
  method Sesiones() returns (correcta: Resultado<Usuario>, inexistente: Resultado<Usuario>,
                             claveMala: Resultado<Usuario>, sinEmail: Resultado<Usuario>)
    ensures correcta.Ok? && correcta.value.nombre == "Nico"
    ensures inexistente == Err(Credenciales)
    ensures claveMala == Err(Credenciales)
    ensures sinEmail == Err(FaltanDatosLogin)
  {
    var reg := new Registro();
    var _ := reg.RegistrarUsuario("Nico", "nico@mail.com", "pass");
    correcta := Login(reg.usuarios, "nico@mail.com", "pass");
    inexistente := Login(reg.usuarios, "inexistente@mail.com", "algo");
    var _ := reg.RegistrarUsuario("Lau", "lau@mail.com", "clave");
    claveMala := Login(reg.usuarios, "lau@mail.com", "malaclav");
    sinEmail := Login(reg.usuarios, "", "1234");
  }

  /** Adding a grade to a registered user succeeds; an unknown user, a score
      of -1 or 11 and a non-number score are each rejected with their error.
      The tests send the last three to separately registered users; the model
      sends them to the same user, which gives the same outcomes because the
      type and range checks come before the lookup. */
  method Notas() returns (ok: Resultado<()>, sinUsuario: Resultado<()>, bajo: Resultado<()>,
                          alto: Resultado<()>, noNumero: Resultado<()>)
    ensures ok == Ok(())
    ensures sinUsuario == Err(NoEncontrado)
    ensures bajo == Err(FueraDeRango) && alto == Err(FueraDeRango)
    ensures noNumero == Err(NotaInvalida)
  {
    var reg := new Registro();
    var _ := reg.RegistrarUsuario("Mario", "mario@mail.com", "clave");
    ok := reg.AgregarNota("mario@mail.com", "Matemática", Numero(8.0));
    sinUsuario := reg.AgregarNota("sinusuario@mail.com", "Física", Numero(7.0));
    bajo := reg.AgregarNota("mario@mail.com", "Química", Numero(-1.0));
    alto := reg.AgregarNota("mario@mail.com", "Química", Numero(11.0));
    noNumero := reg.AgregarNota("mario@mail.com", "Historia", NoNumero);
  }

  /** In a store holding one record, a valid grade for its email is appended to it. */
  lemma AgregarEnUnico(u: Usuario, materia: string, nota: real)
    requires u.email != [] && materia != [] && EnRango(nota)
    ensures SistemaNotas.AgregarNota([u], u.email, materia, Numero(nota)) ==
              Paso(Ok(()), [u.(notas := u.notas + [Nota(materia, nota)])])
  {
    assert IndiceEmail([u], u.email) == Some(0);
  }

  /** In a store holding one record, the grades listed for its email are its own. */
  lemma ConsultasEnUnico(u: Usuario)
    ensures ObtenerNotas([u], u.email) == u.notas
  {
    assert IndiceEmail([u], u.email) == Some(0);
  }

  /** Only one value times a positive count gives a given sum. */
  lemma MediaUnica(p: real, m: real, n: real, suma: real)
    requires n > 0.0 && p * n == suma && m * n == suma
    ensures p == m
  {
    assert (p - m) * n == 0.0;
  }

  /** In a store holding one record with grades, whose mean is `media`, the
      average by its email is `media` and it passes exactly when `media` is
      at least 6. */
  lemma PromedioEnUnico(u: Usuario, media: real)
    requires u.notas != [] && media * (|u.notas| as real) == Suma(u.notas)
    ensures CalcularPromedio([u], u.email) == Some(media)
    ensures EstaAprobado([u], u.email) <==> media >= 6.0
  {
    ConsultasEnUnico(u);
    MediaUnica(CalcularPromedio([u], u.email).value, media, |u.notas| as real, Suma(u.notas));
    Propiedades.EstaAprobadoPorPromedio([u], u.email);
  }

  /** The sum of two grades. */
  lemma SumaDos(a: Nota, b: Nota)
    ensures Suma([a, b]) == a.nota + b.nota
  {
    assert [a][..0] == [];
    assert Suma([a]) == a.nota;
    assert [a, b][..1] == [a];
  }

  /** The sum of three grades. */
  lemma SumaTres(a: Nota, b: Nota, c: Nota)
    ensures Suma([a, b, c]) == a.nota + b.nota + c.nota
  {
    SumaDos(a, b);
    assert [a, b, c][..2] == [a, b];
  }

  /** A user without grades lists no grades. */
  method ListaVacia() returns (vacia: seq<Nota>)
    ensures vacia == []
  {
    var reg := new Registro();
    var u := Usuario("Sofi", "sofi@mail.com", "qwerty", []);
    var _ := reg.RegistrarUsuario(u.nombre, u.email, u.contrasena);
    assert reg.usuarios == [u];
    ConsultasEnUnico(u);
    vacia := ObtenerNotas(reg.usuarios, u.email);
  }

  /** An email nobody registered lists no grades. */
  method UsuarioInexistente() returns (desconocido: seq<Nota>)
    ensures desconocido == []
  {
    var reg := new Registro();
    desconocido := ObtenerNotas(reg.usuarios, "noexiste@mail.com");
  }

  /** Two grades come back in insertion order. */
  method NotasCargadas() returns (cargadas: seq<Nota>)
    ensures |cargadas| == 2 && cargadas[0].materia == "Física"
  {
    var reg := new Registro();
    var u := Usuario("Ro", "ro@mail.com", "abcd", []);
    var n1, n2 := Nota("Física", 9.0), Nota("Química", 8.0);
    var _ := reg.RegistrarUsuario(u.nombre, u.email, u.contrasena);
    assert reg.usuarios == [u];
    AgregarEnUnico(u, n1.materia, n1.nota);
    var _ := reg.AgregarNota(u.email, n1.materia, Numero(n1.nota));
    assert u.notas + [n1] == [n1];
    var u1 := u.(notas := [n1]);
    assert reg.usuarios == [u1];
    AgregarEnUnico(u1, n2.materia, n2.nota);
    var _ := reg.AgregarNota(u.email, n2.materia, Numero(n2.nota));
    assert u1.notas + [n2] == [n1, n2];
    var u2 := u.(notas := [n1, n2]);
    assert reg.usuarios == [u2];
    ConsultasEnUnico(u2);
    cargadas := ObtenerNotas(reg.usuarios, u.email);
  }

  /** A registered user with no grades has no average. */
  method SinNotas() returns (promedio: Option<real>)
    ensures promedio == None
  {
    var reg := new Registro();
    var u := Usuario("Lu", "lu@mail.com", "asdf", []);
    var _ := reg.RegistrarUsuario(u.nombre, u.email, u.contrasena);
    assert reg.usuarios == [u];
    ConsultasEnUnico(u);
    promedio := CalcularPromedio(reg.usuarios, u.email);
  }

  /** A registered user with no grades does not pass. */
  method NoApruebaSinNotas() returns (aprobado: bool)
    ensures !aprobado
  {
    var reg := new Registro();
    var u := Usuario("Vale", "vale@mail.com", "miau", []);
    var _ := reg.RegistrarUsuario(u.nombre, u.email, u.contrasena);
    assert reg.usuarios == [u];
    ConsultasEnUnico(u);
    aprobado := EstaAprobado(reg.usuarios, u.email);
  }

  /** Grades 7 and 5 average 6, which passes. */
  method PromedioSanti() returns (promedio: Option<real>, aprobado: bool)
    ensures promedio == Some(6.0) && aprobado
  {
    var reg := new Registro();
    var u := Usuario("Santi", "santi@mail.com", "123", []);
    var n1, n2 := Nota("Inglés", 7.0), Nota("Francés", 5.0);
    var _ := reg.RegistrarUsuario(u.nombre, u.email, u.contrasena);
    assert reg.usuarios == [u];
    AgregarEnUnico(u, n1.materia, n1.nota);
    var _ := reg.AgregarNota(u.email, n1.materia, Numero(n1.nota));
    assert u.notas + [n1] == [n1];
    var u1 := u.(notas := [n1]);
    assert reg.usuarios == [u1];
    AgregarEnUnico(u1, n2.materia, n2.nota);
    var _ := reg.AgregarNota(u.email, n2.materia, Numero(n2.nota));
    assert u1.notas + [n2] == [n1, n2];
    var u2 := u.(notas := [n1, n2]);
    assert reg.usuarios == [u2];
    SumaDos(n1, n2);
    PromedioEnUnico(u2, 6.0);
    promedio := CalcularPromedio(reg.usuarios, u.email);
    aprobado := EstaAprobado(reg.usuarios, u.email);
  }

  /** Grades 10, 2 and 6 average exactly 6 and pass. */
  method AprobadoClara() returns (promedio: Option<real>, aprobado: bool)
    ensures promedio == Some(6.0) && aprobado
  {
    var reg := new Registro();
    var u := Usuario("Clara", "clara@mail.com", "zxcv", []);
    var n1, n2, n3 := Nota("Biología", 10.0), Nota("Química", 2.0), Nota("Física", 6.0);
    var _ := reg.RegistrarUsuario(u.nombre, u.email, u.contrasena);
    assert reg.usuarios == [u];
    AgregarEnUnico(u, n1.materia, n1.nota);
    var _ := reg.AgregarNota(u.email, n1.materia, Numero(n1.nota));
    assert u.notas + [n1] == [n1];
    var u1 := u.(notas := [n1]);
    assert reg.usuarios == [u1];
    AgregarEnUnico(u1, n2.materia, n2.nota);
    var _ := reg.AgregarNota(u.email, n2.materia, Numero(n2.nota));
    assert u1.notas + [n2] == [n1, n2];
    var u2 := u.(notas := [n1, n2]);
    assert reg.usuarios == [u2];
    AgregarEnUnico(u2, n3.materia, n3.nota);
    var _ := reg.AgregarNota(u.email, n3.materia, Numero(n3.nota));
    assert u2.notas + [n3] == [n1, n2, n3];
    var u3 := u.(notas := [n1, n2, n3]);
    assert reg.usuarios == [u3];
    SumaTres(n1, n2, n3);
    PromedioEnUnico(u3, 6.0);
    promedio := CalcularPromedio(reg.usuarios, u.email);
    aprobado := EstaAprobado(reg.usuarios, u.email);
  }

  /** Grades 4 and 5 average 4.5 and fail. */
  method DesaprobadoTomi() returns (promedio: Option<real>, aprobado: bool)
    ensures promedio == Some(4.5) && !aprobado
  {
    var reg := new Registro();
    var u := Usuario("Tomi", "tomi@mail.com", "4567", []);
    var n1, n2 := Nota("Literatura", 4.0), Nota("Arte", 5.0);
    var _ := reg.RegistrarUsuario(u.nombre, u.email, u.contrasena);
    assert reg.usuarios == [u];
    AgregarEnUnico(u, n1.materia, n1.nota);
    var _ := reg.AgregarNota(u.email, n1.materia, Numero(n1.nota));
    assert u.notas + [n1] == [n1];
    var u1 := u.(notas := [n1]);
    assert reg.usuarios == [u1];
    AgregarEnUnico(u1, n2.materia, n2.nota);
    var _ := reg.AgregarNota(u.email, n2.materia, Numero(n2.nota));
    assert u1.notas + [n2] == [n1, n2];
    var u2 := u.(notas := [n1, n2]);
    assert reg.usuarios == [u2];
    SumaDos(n1, n2);
    PromedioEnUnico(u2, 4.5);
    promedio := CalcularPromedio(reg.usuarios, u.email);
    aprobado := EstaAprobado(reg.usuarios, u.email);
  }
}
