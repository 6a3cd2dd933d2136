/** The registry as the source keeps it: one mutable list `usuarios`
    (src/sistemaNotas.js:1) that registration pushes onto and that adding a
    grade updates in place. Each method follows the source's steps and is
    proved to leave the store that the matching function of SistemaNotas
    describes, and to keep the store invariant. The read-only operations are
    the functions `Login`, `ObtenerNotas`, `CalcularPromedio` and
    `EstaAprobado` of SistemaNotas applied to `usuarios`. */
module Registros {
  import opened SistemaNotas
  import Propiedades

  class Registro {
    var usuarios: seq<Usuario>

    ghost predicate Valid()
      reads this
    {
      Valido(usuarios)
    }

    /** A fresh, empty registry (what reloading the module gives). */
    constructor ()
      ensures Valid() && usuarios == []
    {
      usuarios := [];
    }

    /** `registrarUsuario(nombre, email, contra)`. */
    method RegistrarUsuario(nombre: string, email: string, contra: string) returns (r: Resultado<Usuario>)
      requires Valid()
      modifies this
      ensures Valid()
      ensures r == Registrar(old(usuarios), nombre, email, contra).resultado
      ensures usuarios == Registrar(old(usuarios), nombre, email, contra).usuarios
      ensures r.Err? ==> usuarios == old(usuarios)
      ensures r.Ok? ==> r.value == Usuario(nombre, email, contra, []) && usuarios == old(usuarios) + [r.value]
    {
      Propiedades.RegistrarPreservaValido(usuarios, nombre, email, contra);
      if IndiceEmail(usuarios, email).Some? {
        return Err(EmailDuplicado);
      }
      var nuevo := Usuario(nombre, email, contra, []);
      if nombre == [] || email == [] || contra == [] {
        return Err(FaltanDatos);
      }
      usuarios := usuarios + [nuevo];
      r := Ok(nuevo);
    }

    /** `agregarNota(email, materia, nota)`. */
    method AgregarNota(email: string, materia: string, nota: Entrada) returns (r: Resultado<()>)
      requires Valid()
      modifies this
      ensures Valid()
      ensures r == SistemaNotas.AgregarNota(old(usuarios), email, materia, nota).resultado
      ensures usuarios == SistemaNotas.AgregarNota(old(usuarios), email, materia, nota).usuarios
      ensures r.Err? ==> usuarios == old(usuarios)
      ensures r.Ok? ==>
                var i := IndiceEmail(old(usuarios), email).value;
                usuarios == old(usuarios)[i := old(usuarios)[i].(notas := old(usuarios)[i].notas + [Nota(materia, nota.valor)])]
    {
      Propiedades.AgregarNotaPreservaValido(usuarios, email, materia, nota);
      if email == [] || materia == [] || nota.NoNumero? {
        return Err(NotaInvalida);
      }
      if nota.valor < 0.0 || nota.valor > 10.0 {
        return Err(FueraDeRango);
      }
      var encontrado := IndiceEmail(usuarios, email);
      if encontrado.None? {
        return Err(NoEncontrado);
      }
      var i := encontrado.value;
      var usuario := usuarios[i];
      usuarios := usuarios[i := usuario.(notas := usuario.notas + [Nota(materia, nota.valor)])];
      r := Ok(());
    }
  }
}
