/** The classes tutorial (Books/Python/PythonCrashCourse/clases/clss.py):
    a class-level instance counter, value equality and `len` on books,
    a vehicle's odometer, a guarded bank account, a static weekday test
    and a student's grade average. */
module ClassesGuide {
  import opened Wrappers
  import opened Seqs

  // ---------------------------------------------------------------------
  // Gato: a counter shared by all instances

  /** The class attribute `Gato.contador`. */
  class GatoClass {
    var contador: int

    constructor ()
      ensures contador == 0
    {
      contador := 0;
    }
  }

  class Gato {
    const nombre: string
    const color: string

    /** `Gato(nombre, color)`: each construction counts itself once. */
    constructor (cls: GatoClass, nombre: string, color: string)
      modifies cls
      ensures cls.contador == old(cls.contador) + 1
      ensures this.nombre == nombre && this.color == color
    {
      this.nombre := nombre;
      this.color := color;
      cls.contador := cls.contador + 1;
    }
  }

  /** Two cats make the counter read 2. */
  method TwoCats() returns (cls: GatoClass)
    ensures cls.contador == 2
  {
    cls := new GatoClass();
    var michi := new Gato(cls, "Michi", "negro");
    var pelusa := new Gato(cls, "Pelusa", "blanco");
  }

  // ---------------------------------------------------------------------
  // Libro: __eq__ and __len__

  datatype Libro = Libro(titulo: string, autor: string, paginas: int)

  /** `__eq__`: books are equal when their titles are. */
  predicate SameBook(a: Libro, b: Libro) {
    a.titulo == b.titulo
  }

  /** Book equality is an equivalence that ignores author and page count. */
  lemma SameBookIsEquivalence(a: Libro, b: Libro, c: Libro)
    ensures SameBook(a, a)
    ensures SameBook(a, b) ==> SameBook(b, a)
    ensures SameBook(a, b) && SameBook(b, c) ==> SameBook(a, c)
    ensures SameBook(a, b) <==> SameBook(a.(autor := c.autor, paginas := c.paginas), b)
  {
  }

  datatype LenError = NegativeLength

  /** `len(libro)`: `__len__` returns `paginas`, and Python's `len` raises
      `ValueError` when that is negative. */
  function Len(b: Libro): (r: Result<nat, LenError>)
    ensures r.Ok? <==> b.paginas >= 0
    ensures r.Ok? ==> r.value == b.paginas
  {
    if b.paginas >= 0 then Ok(b.paginas) else Err(NegativeLength)
  }

  // ---------------------------------------------------------------------
  // Vehiculo

  class Vehiculo {
    const marca: string
    const modelo: string
    const anio: int
    var kilometraje: int

    /** A new vehicle has travelled nothing. */
    constructor (marca: string, modelo: string, anio: int)
      ensures kilometraje == 0
      ensures this.marca == marca && this.modelo == modelo && this.anio == anio
    {
      this.marca := marca;
      this.modelo := modelo;
      this.anio := anio;
      kilometraje := 0;
    }

    /** `avanzar(km)`: adds `km`, unchecked. */
    method Avanzar(km: int)
      modifies this
      ensures kilometraje == old(kilometraje) + km
    {
      kilometraje := kilometraje + km;
    }
  }

  /** The odometer after a series of trips is their sum. */
  method Recorrido(v: Vehiculo, trips: seq<int>)
    modifies v
    ensures v.kilometraje == old(v.kilometraje) + Sum(trips)
  {
    var i := 0;
    while i < |trips|
      invariant 0 <= i <= |trips|
      invariant v.kilometraje == old(v.kilometraje) + Sum(trips[..i])
    {
      SumAppend(trips[..i], trips[i]);
      assert trips[..i + 1] == trips[..i] + [trips[i]];
      v.Avanzar(trips[i]);
      i := i + 1;
    }
    assert trips[..i] == trips;
  }

  // ---------------------------------------------------------------------
  // CuentaBancaria

  datatype Refusal = NotPositive | InsufficientFunds

  class CuentaBancaria {
    const titular: string
    var saldo: int

    constructor (titular: string, saldoInicial: int := 0)
      ensures this.titular == titular && saldo == saldoInicial
    {
      this.titular := titular;
      saldo := saldoInicial;
    }

    /** `depositar`: a positive amount is added; anything else is refused
        and the balance stays. */
    method Depositar(cantidad: int) returns (o: Outcome<Refusal>)
      modifies this
      ensures o.Pass? <==> cantidad > 0
      ensures saldo == if cantidad > 0 then old(saldo) + cantidad else old(saldo)
      ensures o.Fail? ==> o.error == NotPositive
    {
      if cantidad > 0 {
        saldo := saldo + cantidad;
        o := Pass;
      } else {
        o := Fail(NotPositive);
      }
    }

    /** `retirar`: more than the balance is refused first, then a
        non-positive amount; otherwise the amount is subtracted. */
    method Retirar(cantidad: int) returns (o: Outcome<Refusal>)
      modifies this
      ensures o.Pass? <==> 0 < cantidad <= old(saldo)
      ensures cantidad > old(saldo) ==> o == Fail(InsufficientFunds)
      ensures cantidad <= old(saldo) && cantidad <= 0 ==> o == Fail(NotPositive)
      ensures saldo == if o.Pass? then old(saldo) - cantidad else old(saldo)
      ensures old(saldo) >= 0 ==> saldo >= 0
    {
      if cantidad > saldo {
        o := Fail(InsufficientFunds);
      } else if cantidad > 0 {
        saldo := saldo - cantidad;
        o := Pass;
      } else {
        o := Fail(NotPositive);
      }
    }
  }

  /** One account operation. */
  datatype Operacion = Deposito(cantidad: int) | Retiro(cantidad: int)

  /** The balance that a series of operations leaves, refused ones having
      no effect. */
  function SaldoTras(saldo: int, ops: seq<Operacion>): (r: int)
    ensures saldo >= 0 ==> r >= 0
  {
    if ops == [] then saldo
    else
      var s := SaldoTras(saldo, ops[..|ops| - 1]);
      match ops[|ops| - 1]
      case Deposito(c) => if c > 0 then s + c else s
      case Retiro(c) => if c > s then s else if c > 0 then s - c else s
  }

  /** Running the operations on an account leaves the balance `SaldoTras`
      predicts, so an account opened with a non-negative balance is never
      overdrawn. */
  method Operar(cuenta: CuentaBancaria, ops: seq<Operacion>)
    modifies cuenta
    ensures cuenta.saldo == SaldoTras(old(cuenta.saldo), ops)
    ensures old(cuenta.saldo) >= 0 ==> cuenta.saldo >= 0
  {
    var i := 0;
    while i < |ops|
      invariant 0 <= i <= |ops|
      invariant cuenta.saldo == SaldoTras(old(cuenta.saldo), ops[..i])
    {
      assert ops[..i + 1][..i] == ops[..i];
      var o;
      match ops[i] {
        case Deposito(c) => o := cuenta.Depositar(c);
        case Retiro(c) => o := cuenta.Retirar(c);
      }
      i := i + 1;
    }
    assert ops[..i] == ops;
  }

  // ---------------------------------------------------------------------
  // Empleado.es_dia_laboral

  /** `es_dia_laboral`: every day name except the two weekend days, matched
      exactly as written (in lower case and with the accent). */
  predicate EsDiaLaboral(dia: string) {
    dia !in ["sábado", "domingo"]
  }

  lemma DiasLaborales()
    ensures !EsDiaLaboral("sábado") && !EsDiaLaboral("domingo")
    ensures EsDiaLaboral("lunes") && EsDiaLaboral("viernes")
    ensures EsDiaLaboral("sabado") && EsDiaLaboral("Domingo")
  {
  }

  // ---------------------------------------------------------------------
  // Estudiante

  datatype Calificacion = Calificacion(materia: string, nota: int)

  /** The notes of a list of grades. */
  function Notas(cs: seq<Calificacion>): (r: seq<int>)
    ensures |r| == |cs|
    ensures forall i :: 0 <= i < |cs| ==> r[i] == cs[i].nota
  {
    seq(|cs|, i requires 0 <= i < |cs| => cs[i].nota)
  }

  class Estudiante {
    const nombre: string
    const edad: int
    const matricula: string
    var calificaciones: seq<Calificacion>

    constructor (nombre: string, edad: int, matricula: string)
      ensures calificaciones == []
      ensures this.nombre == nombre && this.edad == edad && this.matricula == matricula
    {
      this.nombre := nombre;
      this.edad := edad;
      this.matricula := matricula;
      calificaciones := [];
    }

    /** `agregar_calificacion`: appends exactly one entry, unchecked. */
    method AgregarCalificacion(materia: string, nota: int)
      modifies this
      ensures calificaciones == old(calificaciones) + [Calificacion(materia, nota)]
    {
      calificaciones := calificaciones + [Calificacion(materia, nota)];
    }

    /** `promedio`: 0 without grades, otherwise the mean note. */
    function Promedio(): (r: real)
      reads this
      ensures calificaciones == [] ==> r == 0.0
      ensures calificaciones != [] ==> r * |calificaciones| as real == Sum(Notas(calificaciones)) as real
    {
      Mean(Notas(calificaciones))
    }
  }

  /** The average lies between the lowest and the highest note. */
  lemma PromedioBounds(e: Estudiante, lo: int, hi: int)
    requires e.calificaciones != []
    requires forall i :: 0 <= i < |e.calificaciones| ==> lo <= e.calificaciones[i].nota <= hi
    ensures lo as real <= e.Promedio() <= hi as real
  {
    MeanBounds(Notas(e.calificaciones), lo, hi);
  }
}
