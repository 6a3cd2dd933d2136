# Grade registry (sistemaNotas) in Dafny

A model of `src/sistemaNotas.js`: an in-memory registry of users, each with a
name, an email, a credential and a list of `{materia, nota}` grades, with six
operations — registration (`registrarUsuario`), login (`login`), adding a
grade (`agregarNota`), listing grades (`obtenerNotas`), the average
(`calcularPromedio`) and pass/fail (`estaAprobado`).

Files:

- `sistema_notas.dfy`, module `SistemaNotas`: the records (`Nota`, `Usuario`),
  the error kinds (`Error`, one per message of the source), the `find`
  searches as first-index functions, the store invariant `Valido`, and every
  operation as a function of the store `usuarios` (a `seq<Usuario>`). The two
  state-changing operations return a `Paso`: their outcome and the new store.
- `propiedades.dfy`, module `Propiedades`: lemmas relating the operations —
  the invariant they keep, that records and grades are only appended, how
  queries see each change, register-then-login, and the bounds of the average.
- `registro.dfy`, module `Registros`: class `Registro` holding the mutable
  list `usuarios`; `RegistrarUsuario` and `AgregarNota` follow the source's
  steps, update the list in place, keep `Valid()` and are proved to produce
  exactly the store and outcome of the matching `SistemaNotas` function.
  The read-only operations are the `SistemaNotas` functions applied to
  `usuarios`, so that they visibly change nothing.
- `escenarios.dfy`, module `Escenarios`: the scenarios of
  `tests/sistemaNotas.test.js` as client methods on a fresh `Registro`, with
  the expected results as postconditions.
- `defectos.dfy`, module `Defectos`: registration and login as written, with
  lemmas that show their defects (see Findings).

Modelling choices:

- Scores are `real` (a JavaScript number); the average is exact real division.
- The `typeof nota !== "number"` check becomes the input type
  `Entrada = Numero(valor) | NoNumero`; a falsy string (`!nombre`) is the
  empty sequence.
- Every `usuarios.find(...)` is a search returning the index of the first
  match, so "first record with that email" is explicit.
- `Registro` methods require the class invariant `Valid()` (unique emails,
  non-empty fields, scores in [0, 10]). It holds for every registry reachable
  from the constructor through the six operations, since both state-changing
  methods re-establish it; a caller writing through a returned record (see
  "Left out") can leave it, and such states are not modelled.
- Registration performs no email-format check, and its duplicate check
  precedes the presence check (src/sistemaNotas.js:6-18).

## Model

| member | source | states |
|---|---|---|
| `SistemaNotas.Campo` | src/sistemaNotas.js:9-14 | a property read on a stored record gives the four own properties of the literal (name, email, credential under `contraseña`, grade list), and `undefined` for the other names the source reads (`password`) |
| `SistemaNotas.IndiceEmail` | src/sistemaNotas.js:53 | the email search returns nothing exactly when no record has the email, and otherwise the index of the first record that has it |
| `SistemaNotas.IndiceLogin` | src/sistemaNotas.js:32 | the login search returns nothing exactly when no record matches email and the named property, otherwise the first matching index |
| `SistemaNotas.Registrar` | src/sistemaNotas.js:3-23 | duplicate email exactly when already registered (checked first); missing-fields error exactly when new but a field is empty; success otherwise; failures keep the store; success appends and returns the new record with no grades |
| `SistemaNotas.Login` | src/sistemaNotas.js:25-39 | empty email or password gives the missing-login-data error; otherwise success exactly when some record matches email and credential, returning the first such record, and the credentials error when none does |
| `SistemaNotas.AgregarNota` | src/sistemaNotas.js:41-61 | invalid-input, then out-of-range, then not-found, each exactly under its condition; failures keep the store; success appends the grade to the first record with that email and leaves every other record and the length unchanged |
| `SistemaNotas.ObtenerNotas` | src/sistemaNotas.js:63-74 | the empty list for an unknown email, otherwise the grade list of the first record with that email |
| `SistemaNotas.Suma` | src/sistemaNotas.js:83 | the `reduce` of the scores as a left fold whose initial value is 0, so the empty list sums to 0; `Propiedades.SumaAnexar` gives the step |
| `SistemaNotas.CalcularPromedio` | src/sistemaNotas.js:76-85 | no average exactly when the user is unknown or has no grades; otherwise the value times the grade count is the sum of the grades |
| `SistemaNotas.EstaAprobado` | src/sistemaNotas.js:87-93 | passing exactly when there are grades and their sum is at least 6 times their count |
| `Registros.Registro.constructor` | src/sistemaNotas.js:1 | a new registry is empty and valid |
| `Registros.Registro.RegistrarUsuario` | src/sistemaNotas.js:3-23 | keeps the invariant; outcome and new list are those of `Registrar`; a failure leaves the list unchanged; success appends exactly the returned record |
| `Registros.Registro.AgregarNota` | src/sistemaNotas.js:41-61 | keeps the invariant; outcome and new list are those of `AgregarNota`; a failure leaves the list unchanged; success appends the grade to the first record with the email only |
| `Propiedades.IndiceEmailSoloEmails` | src/sistemaNotas.js:53 | the email search depends only on the emails of the records, so adding grades never changes whom it finds |
| `Propiedades.IndiceEmailTrasAnexar` | src/sistemaNotas.js:21 | appending a record keeps the first match of an email already present, and makes the new record the match of an email not present |
| `Propiedades.IndiceEmailUnico` | src/sistemaNotas.js:6 | with distinct emails, the search finds the only record with the email |
| `Propiedades.RegistrarPreservaValido` | src/sistemaNotas.js:6-21 | registration keeps emails pairwise distinct, all fields non-empty and all scores in range |
| `Propiedades.RegistrarLuegoLogin` | src/sistemaNotas.js:3-39 | registering a new email with non-empty fields succeeds, and login with the same email and credential then returns that record |
| `Propiedades.RegistrarDosVeces` | src/sistemaNotas.js:6-8 | after a successful registration, registering the same email again fails with the duplicate error and keeps the store, whatever the other fields |
| `Propiedades.LoginPorEmail` | src/sistemaNotas.js:32 | in a valid store, login succeeds exactly when the record found by email holds the credential, and returns that record |
| `Propiedades.AgregarNotaPreservaValido` | src/sistemaNotas.js:47-59 | adding a grade keeps the store valid, so only scores in [0, 10] are ever stored |
| `Propiedades.ObtenerNotasTrasAgregar` | src/sistemaNotas.js:59-73 | after adding a grade the user's list is the old one with the new entry at the end; all other users' lists, and all lists after a failure, are unchanged |
| `Propiedades.RegistrarExtiende` | src/sistemaNotas.js:21 | registration never edits a record and adds at most one, at the end |
| `Propiedades.AgregarNotaExtiende` | src/sistemaNotas.js:59 | adding a grade keeps the number of records, every name, email and credential, and every stored grade as a prefix |
| `Propiedades.ExtiendeTransitiva` | src/sistemaNotas.js:21-59 | "only appends" composes, so any sequence of operations only appends |
| `Propiedades.SumaAnexar` | src/sistemaNotas.js:83 | the sum of a list with one more grade is the old sum plus that score |
| `Propiedades.SumaAcotada` | src/sistemaNotas.js:83 | the sum of scores in [0, 10] lies between 0 and 10 times their count |
| `Propiedades.ObtenerNotasEnRango` | src/sistemaNotas.js:63-74 | in a store whose scores are in [0, 10], every score listed for any email is too |
| `Propiedades.MediaDeNotasEnRango` | src/sistemaNotas.js:83-84 | the mean of a non-empty list of scores in [0, 10] lies in [0, 10] |
| `Propiedades.PromedioAcotado` | src/sistemaNotas.js:76-85 | when the scores listed for an email are in range, its defined average is in range |
| `Propiedades.PromedioEnRango` | src/sistemaNotas.js:76-85 | in a store whose scores are in range (so in every valid store) every defined average lies in [0, 10] |
| `Propiedades.EstaAprobadoPorPromedio` | src/sistemaNotas.js:87-93 | passing exactly when the average is defined and at least 6 |
| `Escenarios.RegistroNuevoYDuplicado` | tests/sistemaNotas.test.js:20-32 | a new registration succeeds with the given email; a second registration of the email fails as a duplicate |
| `Escenarios.RegistroFaltanDatos` | tests/sistemaNotas.test.js:35-53 | an empty email, name or password each gives the missing-fields error |
| `Escenarios.Sesiones` | tests/sistemaNotas.test.js:58-85 | the right credential logs in and returns the record named "Nico"; an unknown email or a wrong password gives the credentials error; an empty email the missing-data error |
| `Escenarios.Notas` | tests/sistemaNotas.test.js:90-117 | a grade for a registered user is accepted; unknown user, scores -1 and 11, and a non-number are rejected with their errors |
| `Escenarios.AgregarEnUnico` | src/sistemaNotas.js:41-61 | in a one-record store, a valid grade for that record's email succeeds and is appended to it |
| `Escenarios.ConsultasEnUnico` | src/sistemaNotas.js:63-74 | in a one-record store, the grades listed for its email are that record's |
| `Escenarios.PromedioEnUnico` | src/sistemaNotas.js:76-93 | in a one-record store with grades of mean `media`, the average is `media` and passing means `media` at least 6 |
| `Escenarios.SumaDos` | src/sistemaNotas.js:83 | the fold of two grades is the sum of their scores |
| `Escenarios.SumaTres` | src/sistemaNotas.js:83 | the fold of three grades is the sum of their scores |
| `Escenarios.ListaVacia` | tests/sistemaNotas.test.js:122-127 | a registered user without grades lists none |
| `Escenarios.NotasCargadas` | tests/sistemaNotas.test.js:130-137 | two grades come back, the first one added first |
| `Escenarios.UsuarioInexistente` | tests/sistemaNotas.test.js:140-144 | an unknown email lists no grades |
| `Escenarios.PromedioSanti` | tests/sistemaNotas.test.js:149-155 | grades 7 and 5 average 6 and pass |
| `Escenarios.SinNotas` | tests/sistemaNotas.test.js:158-162 | a user without grades has no average |
| `Escenarios.AprobadoClara` | tests/sistemaNotas.test.js:167-174 | grades 10, 2 and 6 average 6 and pass |
| `Escenarios.DesaprobadoTomi` | tests/sistemaNotas.test.js:177-183 | grades 4 and 5 average 4.5 and fail |
| `Escenarios.NoApruebaSinNotas` | tests/sistemaNotas.test.js:186-189 | a user without grades does not pass |
| `Defectos.RegistrarTalComoEsta` | src/sistemaNotas.js:3-23 | as written, registration throws exactly when the email is new and name and email are present; otherwise it returns an error and keeps the store |
| `Defectos.RegistrarTalComoEstaNuncaRegistra` | src/sistemaNotas.js:17 | every registration the intended code accepts throws as written; whenever the written code returns, it agrees with the intended one |
| `Defectos.RegistrarTalComoEstaEjemplo` | src/sistemaNotas.js:17 | the registration of "Paula" on an empty registry succeeds as intended and throws as written |
| `Defectos.LoginTalComoEsta` | src/sistemaNotas.js:25-39 | login as written, searching on the property `password`: an empty field gives the missing-data error, and a success could only return a stored record with that email; `LoginTalComoEstaSiempreFalla` shows it never succeeds |
| `Defectos.LoginTalComoEstaSiempreFalla` | src/sistemaNotas.js:32 | as written, login fails on every store and input: missing-data error for an empty field, the credentials error otherwise |
| `Defectos.LoginTalComoEstaNuncaEntra` | src/sistemaNotas.js:12-32 | after a successful registration the intended login with that credential returns the record, the written one reports wrong credentials |

## Left out

- Floating point: NaN and Infinity (NaN would pass the range check) and the rounding of `suma / length`; scores are exact reals.
- JavaScript dynamic typing: arguments that are `undefined`, `null` or non-strings; only the empty string stands for a missing field, and the `typeof` check is the `NoNumero` input.
- Campo: names a record inherits from `Object.prototype` (`constructor`, `toString`, `__proto__`, ...) are not modelled; the model reads them as `undefined`, which the source never relies on since it only reads `email`, `password`, `contraseña` and `notas`.
- The human-readable message texts: each is one `Error` constructor.
- Aliasing: `obtenerNotas` returns the live grade array of the record, and `registrarUsuario` and `login` return the live record object `usuario`; the model returns values, so it captures neither later grades showing through an earlier result nor a caller writing through one (which could store an out-of-range score or empty a field, leaving `Valid()`).
- The JavaScript `{success, mensaje, usuario}` object shape: it is `Resultado`.
- The test harness's `jest.resetModules()` reset: each scenario uses a fresh `Registro`.
- The thrown ReferenceError of registration is modelled only in `Defectos` (as an outcome value, not as an exception); the rest of the model uses the intended check on `contra`.
- `module.exports` and the module system.

## Findings

| source | as written | input that shows it | evidently intended | confidence | as-written member | corrected member |
|---|---|---|---|---|---|---|
| src/sistemaNotas.js:17 | the presence check reads the undeclared identifier `password` instead of the parameter `contra`, which throws a ReferenceError whenever name and email are present and the email is new | `registrarUsuario("Paula", "paula@mail.com", "1234")` on an empty registry throws instead of registering | test `contra` for emptiness | high; not executed | `Defectos.RegistrarTalComoEsta` | `SistemaNotas.Registrar` |
| src/sistemaNotas.js:32 | login compares `u.password`, a property records never have (registration stores `contraseña`), so the search never matches | after registering `("Nico", "nico@mail.com", "pass")`, `login("nico@mail.com", "pass")` reports wrong credentials | compare `u.contraseña` with the given password | high; not executed | `Defectos.LoginTalComoEsta` | `SistemaNotas.Login` |
