/** What the operations of SistemaNotas promise beyond a single call: the store
    invariant they keep, that records and grades are only ever added, how the
    searches and queries see the effect of each change, and the bounds of the
    average. */
module Propiedades {
  import opened SistemaNotas

  // ---------------------------------------------------------------------------
  // Searches depend on emails only

  /** Two stores with the same emails in the same order give the same first
      index for every email. */
  lemma {:induction false} IndiceEmailSoloEmails(us: seq<Usuario>, vs: seq<Usuario>, email: string)
    requires |us| == |vs|
    requires forall j :: 0 <= j < |us| ==> us[j].email == vs[j].email
    ensures IndiceEmail(us, email) == IndiceEmail(vs, email)
  {
    if |us| > 0 && us[0].email != email {
      IndiceEmailSoloEmails(us[1..], vs[1..], email);
    }
  }

  /** Appending a record never moves the first match of an email already there,
      makes the new record the first match of an email that was not, and
      finds nothing new otherwise. */
  lemma {:induction false} IndiceEmailTrasAnexar(us: seq<Usuario>, u: Usuario, email: string)
    ensures IndiceEmail(us + [u], email) ==
              if Registrado(us, email) then IndiceEmail(us, email)
              else if u.email == email then Some(|us|)
              else None
  {
    if |us| == 0 {
      assert us + [u] == [u];
    } else if us[0].email != email {
      assert (us + [u])[1..] == us[1..] + [u];
      IndiceEmailTrasAnexar(us[1..], u, email);
      assert Registrado(us, email) <==> Registrado(us[1..], email) by {
        if Registrado(us, email) {
          var i :| 0 <= i < |us| && us[i].email == email;
          assert us[1..][i - 1] == us[i];
        }
        if Registrado(us[1..], email) {
          var i :| 0 <= i < |us[1..]| && us[1..][i].email == email;
          assert us[i + 1] == us[1..][i];
        }
      }
    }
  }

  /** With pairwise distinct emails, the record found by email is the only one
      with that email. */
  lemma IndiceEmailUnico(us: seq<Usuario>, email: string, i: nat)
    requires EmailsUnicos(us)
    requires i < |us| && us[i].email == email
    ensures IndiceEmail(us, email) == Some(i)
  {
  }

  // ---------------------------------------------------------------------------
  // Registration

  /** Registration keeps emails pairwise distinct, every field present and every
      score in range. */
  lemma RegistrarPreservaValido(us: seq<Usuario>, nombre: string, email: string, contra: string)
    requires Valido(us)
    ensures Valido(Registrar(us, nombre, email, contra).usuarios)
  {
    var s := Registrar(us, nombre, email, contra);
    if s.resultado.Ok? {
      var vs := s.usuarios;
      assert forall j :: 0 <= j < |us| ==> vs[j] == us[j];
      assert vs[|us|] == Usuario(nombre, email, contra, []);
      forall i, j | 0 <= i < j < |vs| ensures vs[i].email != vs[j].email {
        if j == |us| {
          assert us[i].email == vs[i].email;
        }
      }
    }
  }

  /** A record registered with a fresh email and non-empty fields can log in
      with the same email and credential, and login returns that very record. */
  lemma RegistrarLuegoLogin(us: seq<Usuario>, nombre: string, email: string, contra: string)
    requires !Registrado(us, email) && nombre != [] && email != [] && contra != []
    ensures Registrar(us, nombre, email, contra).resultado == Ok(Usuario(nombre, email, contra, []))
    ensures Login(Registrar(us, nombre, email, contra).usuarios, email, contra)
              == Ok(Usuario(nombre, email, contra, []))
  {
    var u := Usuario(nombre, email, contra, []);
    var vs := Registrar(us, nombre, email, contra).usuarios;
    assert vs == us + [u];
    assert vs[|us|] == u;
    IndiceEmailTrasAnexar(us, u, email);
  }

  /** Once an email has been registered, every later registration of it fails
      with the duplicate error whatever the other fields are, and leaves the
      store as it is. */
  lemma RegistrarDosVeces(us: seq<Usuario>, nombre: string, email: string, contra: string,
                          nombre2: string, contra2: string)
    requires Registrar(us, nombre, email, contra).resultado.Ok?
    ensures var vs := Registrar(us, nombre, email, contra).usuarios;
            Registrar(vs, nombre2, email, contra2) == Paso(Err(EmailDuplicado), vs)
  {
    var vs := Registrar(us, nombre, email, contra).usuarios;
    assert vs[|us|].email == email;
  }

  // ---------------------------------------------------------------------------
  // Login

  /** In a valid store, login succeeds exactly when the record found by email
      holds the given credential, and then it returns that record. */
  lemma LoginPorEmail(us: seq<Usuario>, email: string, contra: string)
    requires Valido(us) && email != [] && contra != []
    ensures Login(us, email, contra).Ok? <==>
              Registrado(us, email) && us[IndiceEmail(us, email).value].contrasena == contra
    ensures Login(us, email, contra).Ok? ==>
              Login(us, email, contra).value == us[IndiceEmail(us, email).value]
  {
    var r := Login(us, email, contra);
    if r.Ok? {
      var i :| 0 <= i < |us| && us[i] == r.value && us[i].email == email && us[i].contrasena == contra;
      IndiceEmailUnico(us, email, i);
    } else if Registrado(us, email) {
      var k := IndiceEmail(us, email).value;
      assert us[k].email == email;
    }
  }

  // ---------------------------------------------------------------------------
  // Adding a grade

  /** Adding a grade keeps the store valid; in particular only scores in
      [0, 10] are ever stored. */
  lemma AgregarNotaPreservaValido(us: seq<Usuario>, email: string, materia: string, nota: Entrada)
    requires Valido(us)
    ensures Valido(AgregarNota(us, email, materia, nota).usuarios)
  {
    var s := AgregarNota(us, email, materia, nota);
    if s.resultado.Ok? {
      var i := IndiceEmail(us, email).value;
      var vs := s.usuarios;
      assert forall j :: 0 <= j < |us| ==> vs[j].email == us[j].email;
      forall j, k | 0 <= j < |vs| && 0 <= k < |vs[j].notas| ensures EnRango(vs[j].notas[k].nota) {
        if j == i && k == |us[i].notas| {
          assert vs[j].notas[k] == Nota(materia, nota.valor);
        } else {
          assert vs[j].notas[k] == us[j].notas[k];
        }
      }
    }
  }

  /** The grades of `email` after adding one: the old list with the new entry
      at its end (insertion order); every other email's grades are unchanged,
      and so is everything after a failure. */
  lemma ObtenerNotasTrasAgregar(us: seq<Usuario>, email: string, materia: string, nota: Entrada, otro: string)
    ensures var s := AgregarNota(us, email, materia, nota);
            ObtenerNotas(s.usuarios, otro) ==
              if s.resultado.Ok? && otro == email
              then ObtenerNotas(us, otro) + [Nota(materia, nota.valor)]
              else ObtenerNotas(us, otro)
  {
    var s := AgregarNota(us, email, materia, nota);
    if s.resultado.Ok? {
      var i := IndiceEmail(us, email).value;
      IndiceEmailSoloEmails(s.usuarios, us, otro);
      if otro != email {
        match IndiceEmail(us, otro)
        case None =>
        case Some(k) => assert k != i;
      }
    }
  }

  // ---------------------------------------------------------------------------
  // Records and grades only grow

  /** Same name, email and credential. */
  predicate MismaIdentidad(u: Usuario, v: Usuario)
  {
    u.nombre == v.nombre && u.email == v.email && u.contrasena == v.contrasena
  }

  /** `vs` is `us` with records added at the end and grades added at the end
      of existing records, and nothing else changed. */
  predicate Extiende(us: seq<Usuario>, vs: seq<Usuario>)
  {
    |us| <= |vs| &&
    forall j :: 0 <= j < |us| ==> MismaIdentidad(us[j], vs[j]) && us[j].notas <= vs[j].notas
  }

  /** Registration never edits a record: it only adds one at the end. */
  lemma RegistrarExtiende(us: seq<Usuario>, nombre: string, email: string, contra: string)
    ensures Extiende(us, Registrar(us, nombre, email, contra).usuarios)
    ensures |Registrar(us, nombre, email, contra).usuarios| <= |us| + 1
  {
    var vs := Registrar(us, nombre, email, contra).usuarios;
    assert forall j :: 0 <= j < |us| ==> vs[j] == us[j];
  }

  /** Adding a grade never removes or edits a record or a stored grade, and
      keeps the number of records. */
  lemma AgregarNotaExtiende(us: seq<Usuario>, email: string, materia: string, nota: Entrada)
    ensures Extiende(us, AgregarNota(us, email, materia, nota).usuarios)
    ensures |AgregarNota(us, email, materia, nota).usuarios| == |us|
  {
  }

  /** Extension composes, so any run of operations only adds. */
  lemma ExtiendeTransitiva(us: seq<Usuario>, vs: seq<Usuario>, ws: seq<Usuario>)
    requires Extiende(us, vs) && Extiende(vs, ws)
    ensures Extiende(us, ws)
  {
    forall j | 0 <= j < |us| ensures us[j].notas <= ws[j].notas {
      assert us[j].notas == vs[j].notas[..|us[j].notas|];
      assert vs[j].notas == ws[j].notas[..|vs[j].notas|];
    }
  }

  // ---------------------------------------------------------------------------
  // Sum and average

  /** The fold adds the last grade last. */
  lemma SumaAnexar(gs: seq<Nota>, n: Nota)
    ensures Suma(gs + [n]) == Suma(gs) + n.nota
  {
    assert (gs + [n])[..|gs|] == gs;
  }

  /** The sum of in-range scores lies between 0 and 10 times their number. */
  lemma {:induction false} SumaAcotada(gs: seq<Nota>)
    requires forall k :: 0 <= k < |gs| ==> EnRango(gs[k].nota)
    ensures 0.0 <= Suma(gs) <= 10.0 * (|gs| as real)
  {
    if |gs| > 0 {
      SumaAcotada(gs[..|gs| - 1]);
    }
  }

  /** A mean of a positive count of values with sum in [0, 10 * n] is in [0, 10]. */
  lemma MediaAcotada(media: real, n: real, suma: real)
    requires n > 0.0 && media * n == suma
    requires 0.0 <= suma <= 10.0 * n
    ensures EnRango(media)
  {
  }

  /** In a store whose scores are in range, so are the scores listed for any email. */
  lemma ObtenerNotasEnRango(us: seq<Usuario>, email: string)
    requires NotasEnRango(us)
    ensures forall k :: 0 <= k < |ObtenerNotas(us, email)| ==> EnRango(ObtenerNotas(us, email)[k].nota)
  {
    if Registrado(us, email) {
      var i := IndiceEmail(us, email).value;
      assert ObtenerNotas(us, email) == us[i].notas;
    }
  }

  /** The mean of a non-empty list of in-range scores is in range. */
  lemma MediaDeNotasEnRango(gs: seq<Nota>, media: real)
    requires |gs| > 0 && forall k :: 0 <= k < |gs| ==> EnRango(gs[k].nota)
    requires media * (|gs| as real) == Suma(gs)
    ensures EnRango(media)
  {
    SumaAcotada(gs);
    MediaAcotada(media, |gs| as real, Suma(gs));
  }

  /** When every score listed for an email is in range, so is its average. */
  lemma PromedioAcotado(us: seq<Usuario>, email: string)
    requires forall k :: 0 <= k < |ObtenerNotas(us, email)| ==> EnRango(ObtenerNotas(us, email)[k].nota)
    ensures CalcularPromedio(us, email).Some? ==> EnRango(CalcularPromedio(us, email).value)
  {
    var p := CalcularPromedio(us, email);
    if p.Some? {
      MediaDeNotasEnRango(ObtenerNotas(us, email), p.value);
    }
  }

  /** In a store whose scores are in range, in particular in a valid one,
      every defined average lies in [0, 10]. */
  lemma PromedioEnRango(us: seq<Usuario>, email: string)
    requires NotasEnRango(us)
    ensures CalcularPromedio(us, email).Some? ==> EnRango(CalcularPromedio(us, email).value)
  {
    ObtenerNotasEnRango(us, email);
    PromedioAcotado(us, email);
  }

  /** Passing agrees with the average: true exactly when the average is
      defined and at least 6. */
  lemma EstaAprobadoPorPromedio(us: seq<Usuario>, email: string)
    ensures EstaAprobado(us, email) <==>
              CalcularPromedio(us, email).Some? && CalcularPromedio(us, email).value >= 6.0
  {
    var p := CalcularPromedio(us, email);
    if p.Some? {
      var gs := ObtenerNotas(us, email);
      MediaAlMenos(p.value, |gs| as real, Suma(gs), 6.0);
    }
  }
}
