/** The digital library (Books/Python/PythonCrashCourse/clases/prt.py):
    users with loan limits by account type, catalogue materials with
    sequential ids, book ratings, and the library's catalogue and user
    list with its searches and report counts. */
module Library {
  import opened Wrappers
  import opened Seqs
  import opened Chars

  // ---------------------------------------------------------------------
  // Users

  /** `_limite_prestamos`: the loan limit of each known account type. */
  const Limits: map<string, nat> := map["regular" := 3, "premium" := 10, "estudiante" := 5]

  /** `_limite_prestamos.get(tipo, 3)`. */
  function LimitFor(tipo: string): (n: nat)
    ensures tipo == "regular" ==> n == 3
    ensures tipo == "premium" ==> n == 10
    ensures tipo == "estudiante" ==> n == 5
    ensures tipo !in Limits ==> n == 3
    ensures 3 <= n <= 10
  {
    if tipo in Limits then Limits[tipo] else 3
  }

  datatype UserError = InvalidType

  class Usuario {
    const nombre: string
    const apellido: string
    const identificacion: string
    const email: string
    var tipo: string
    /** `_libros_prestados`: the materials the user holds. */
    var prestados: seq<Material>
    var activo: bool

    /** A new user is active, holds nothing, and keeps whatever type it is
        given, known or not. */
    constructor (nombre: string, apellido: string, identificacion: string, email: string, tipo: string := "regular")
      ensures this.identificacion == identificacion && this.tipo == tipo
      ensures this.nombre == nombre && this.apellido == apellido && this.email == email
      ensures activo && prestados == []
    {
      this.nombre := nombre;
      this.apellido := apellido;
      this.identificacion := identificacion;
      this.email := email;
      this.tipo := tipo;
      prestados := [];
      activo := true;
    }

    /** `limite_actual` */
    function LimiteActual(): (n: nat)
      reads this
      ensures n == LimitFor(tipo)
    {
      LimitFor(tipo)
    }

    /** `libros_disponibles`: how many more loans the limit allows; negative
        when the user holds more than the limit of a type changed later. */
    function LibrosDisponibles(): (n: int)
      reads this
      ensures n + |prestados| == LimitFor(tipo)
      ensures n <= 10
    {
      LimiteActual() - |prestados|
    }

    /** `puede_prestar`: active and below the limit. */
    predicate PuedePrestar()
      reads this
    {
      activo && |prestados| < LimiteActual()
    }

    /** The setter of `tipo`: only the three known types are accepted, and a
        refused type leaves the old one. */
    method SetTipo(nuevo: string) returns (o: Outcome<UserError>)
      modifies this
      ensures o.Pass? <==> nuevo in Limits
      ensures tipo == (if nuevo in Limits then nuevo else old(tipo))
      ensures activo == old(activo) && prestados == old(prestados)
    {
      if nuevo in Limits {
        tipo := nuevo;
        o := Pass;
      } else {
        o := Fail(InvalidType);
      }
    }

    /** `suspender`: a suspended user can borrow nothing. */
    method Suspender()
      modifies this
      ensures !activo && !PuedePrestar()
      ensures tipo == old(tipo) && prestados == old(prestados)
    {
      activo := false;
    }

    /** `activar`: the user can borrow again if below the limit. */
    method Activar()
      modifies this
      ensures activo && (PuedePrestar() <==> |prestados| < LimitFor(tipo))
      ensures tipo == old(tipo) && prestados == old(prestados)
    {
      activo := true;
    }
  }

  /** `puede_prestar` is the same as an active account with a positive
      `libros_disponibles`. */
  lemma PuedePrestarIff(u: Usuario)
    ensures u.PuedePrestar() <==> u.activo && u.LibrosDisponibles() > 0
  {
  }

  /** A premium account allows more loans than any other type. */
  lemma PremiumIsLargest(tipo: string)
    ensures LimitFor(tipo) <= LimitFor("premium")
  {
  }

  // ---------------------------------------------------------------------
  // Materials

  /** `MaterialBibliografico._id_counter`, shared by every material. */
  class IdCounter {
    var last: int
    /** The ids handed out so far. */
    ghost var issued: set<int>

    ghost predicate Valid()
      reads this
    {
      last >= 1000 && forall id :: id in issued ==> 1000 < id <= last
    }

    constructor ()
      ensures Valid() && last == 1000 && issued == {}
    {
      last := 1000;
      issued := {};
    }

    /** `_id_counter += 1`, the new value being the new id. */
    method Next() returns (id: int)
      requires Valid()
      modifies this
      ensures Valid()
      ensures id == old(last) + 1 && last == id
      ensures id !in old(issued) && issued == old(issued) + {id}
    {
      last := last + 1;
      id := last;
      issued := issued + {id};
    }
  }

  /** What distinguishes a `Libro` from a `Revista`. */
  datatype Kind =
    | Book(isbn: string, paginas: int, genero: string := "General")
    | Magazine(numero: int, mes: string, issn: string)

  datatype RatingError = OutOfRange

  class Material {
    const id: int
    const titulo: string
    const autor: string
    const anio: int
    const editorial: string
    const kind: Kind
    var disponible: bool
    var vecesPrestado: nat
    /** `_calificaciones`, kept by books only. */
    var calificaciones: seq<int>

    /** Every rating is between 1 and 5, and magazines have none. */
    ghost predicate Valid()
      reads this
    {
      && (forall i :: 0 <= i < |calificaciones| ==> 1 <= calificaciones[i] <= 5)
      && (kind.Magazine? ==> calificaciones == [])
    }

    /** A new material takes the next id, is available, has never been lent
        and has no ratings. */
    constructor (counter: IdCounter, titulo: string, autor: string, anio: int, editorial: string, kind: Kind)
      requires counter.Valid()
      modifies counter
      ensures Valid() && counter.Valid()
      ensures id == old(counter.last) + 1 && counter.last == id
      ensures id !in old(counter.issued) && counter.issued == old(counter.issued) + {id}
      ensures this.titulo == titulo && this.autor == autor && this.anio == anio
      ensures this.editorial == editorial && this.kind == kind
      ensures disponible && vecesPrestado == 0 && calificaciones == []
    {
      var next := counter.Next();
      id := next;
      this.titulo := titulo;
      this.autor := autor;
      this.anio := anio;
      this.editorial := editorial;
      this.kind := kind;
      disponible := true;
      vecesPrestado := 0;
      calificaciones := [];
    }

    /** `marcar_prestado`: unavailable, and lent once more. */
    method MarcarPrestado()
      modifies this
      ensures !disponible && vecesPrestado == old(vecesPrestado) + 1
      ensures calificaciones == old(calificaciones)
    {
      disponible := false;
      vecesPrestado := vecesPrestado + 1;
    }

    /** `marcar_devuelto`: available, the loan count untouched. */
    method MarcarDevuelto()
      modifies this
      ensures disponible && vecesPrestado == old(vecesPrestado)
      ensures calificaciones == old(calificaciones)
    {
      disponible := true;
    }

    /** `__eq__`: two materials are equal when their ids are; `null` stands
        for an object that is not a material, which is never equal. */
    predicate Equals(other: Material?) {
      other != null && id == other.id
    }

    /** `Libro.agregar_calificacion`: ratings from 1 to 5 are kept, any
        other value raises and leaves the list as it was. */
    method AgregarCalificacion(c: int) returns (o: Outcome<RatingError>)
      requires Valid() && kind.Book?
      modifies this
      ensures Valid()
      ensures o.Pass? <==> 1 <= c <= 5
      ensures calificaciones == if 1 <= c <= 5 then old(calificaciones) + [c] else old(calificaciones)
      ensures disponible == old(disponible) && vecesPrestado == old(vecesPrestado)
    {
      if 1 <= c <= 5 {
        calificaciones := calificaciones + [c];
        o := Pass;
      } else {
        o := Fail(OutOfRange);
      }
    }

    /** `Libro.calificacion_promedio`: 0 without ratings, otherwise the
        sum of the ratings over their count, which lies between 1 and 5. */
    function CalificacionPromedio(): (r: real)
      requires Valid()
      reads this
      ensures calificaciones == [] ==> r == 0.0
      ensures calificaciones != [] ==> r * |calificaciones| as real == Sum(calificaciones) as real
      ensures calificaciones != [] ==> 1.0 <= r <= 5.0
    {
      if calificaciones != [] then MeanBounds(calificaciones, 1, 5); Mean(calificaciones)
      else 0.0
    }
  }

  /** Material equality is an equivalence. */
  lemma EqualsIsEquivalence(a: Material, b: Material, c: Material)
    ensures a.Equals(a)
    ensures a.Equals(b) ==> b.Equals(a)
    ensures a.Equals(b) && b.Equals(c) ==> a.Equals(c)
  {
  }

  /** Two materials made one after the other get consecutive ids, so they
      are never equal. */
  method ConsecutiveIds() returns (a: Material, b: Material)
    ensures a.id == 1001 && b.id == 1002 && !a.Equals(b)
  {
    var counter := new IdCounter();
    a := new Material(counter, "Cien Años de Soledad", "Gabriel García Márquez", 1967,
      "Editorial Sudamericana", Book("978-0307474728", 417, "Realismo Mágico"));
    b := new Material(counter, "National Geographic", "Varios Autores", 2026,
      "National Geographic Society", Magazine(1, "Enero", "0027-9358"));
  }

  // ---------------------------------------------------------------------
  // Searches

  /** Python's `needle in hay` on strings. */
  predicate Contains(hay: string, needle: string)
    decreases |hay|
  {
    needle <= hay || (hay != [] && Contains(hay[1..], needle))
  }

  /** `Contains` holds exactly when the needle starts at some position. */
  lemma ContainsIff(hay: string, needle: string)
    ensures Contains(hay, needle) <==> exists i :: 0 <= i <= |hay| && needle <= hay[i..]
  {
    if Contains(hay, needle) {
      ContainsSound(hay, needle);
    }
    if exists i :: 0 <= i <= |hay| && needle <= hay[i..] {
      var i :| 0 <= i <= |hay| && needle <= hay[i..];
      ContainsComplete(hay, needle, i);
    }
  }

  lemma {:induction false} ContainsSound(hay: string, needle: string)
    requires Contains(hay, needle)
    ensures exists i :: 0 <= i <= |hay| && needle <= hay[i..]
  {
    if needle <= hay {
      assert hay[0..] == hay;
    } else {
      ContainsSound(hay[1..], needle);
      var i :| 0 <= i <= |hay[1..]| && needle <= hay[1..][i..];
      assert hay[1..][i..] == hay[i + 1..];
    }
  }

  lemma {:induction false} ContainsComplete(hay: string, needle: string, i: nat)
    requires i <= |hay| && needle <= hay[i..]
    ensures Contains(hay, needle)
    decreases i
  {
    if i > 0 {
      assert hay[1..][i - 1..] == hay[i..];
      ContainsComplete(hay[1..], needle, i - 1);
    } else {
      assert hay[i..] == hay;
    }
  }

  /** The empty query is in every string. */
  lemma ContainsEmpty(hay: string)
    ensures Contains(hay, [])
  {
  }

  /** The title search's test: lowercased query within lowercased title. */
  predicate TitleMatch(query: string, m: Material) {
    Contains(Lower(m.titulo), Lower(query))
  }

  /** The genre search's test: a book whose lowercased genre contains the
      lowercased query. */
  predicate GenreMatch(query: string, m: Material) {
    m.kind.Book? && Contains(Lower(m.kind.genero), Lower(query))
  }

  /** The available materials of `ms`, in order. */
  function AvailableIn(ms: seq<Material>): (r: seq<Material>)
    reads set m | m in ms
    ensures |r| <= |ms|
    ensures forall m :: m in r ==> m in ms && m.disponible
  {
    if ms == [] then []
    else AvailableIn(ms[..|ms| - 1]) + (if ms[|ms| - 1].disponible then [ms[|ms| - 1]] else [])
  }

  /** The lent materials of `ms`, in order. */
  function LentIn(ms: seq<Material>): (r: seq<Material>)
    reads set m | m in ms
    ensures |r| <= |ms|
    ensures forall m :: m in r ==> m in ms && !m.disponible
  {
    if ms == [] then []
    else LentIn(ms[..|ms| - 1]) + (if !ms[|ms| - 1].disponible then [ms[|ms| - 1]] else [])
  }

  /** Every material is either available or lent, so the two lists add
      up to the catalogue. */
  lemma {:induction false} AvailablePlusLent(ms: seq<Material>)
    ensures |AvailableIn(ms)| + |LentIn(ms)| == |ms|
  {
    if ms != [] {
      AvailablePlusLent(ms[..|ms| - 1]);
    }
  }

  /** An available catalogue member is listed. */
  lemma {:induction false} AvailableComplete(ms: seq<Material>, m: Material)
    requires m in ms && m.disponible
    ensures m in AvailableIn(ms)
  {
    if m != ms[|ms| - 1] {
      assert m in ms[..|ms| - 1];
      AvailableComplete(ms[..|ms| - 1], m);
    }
  }

  /** `generar_reporte`'s numbers. */
  datatype Report = Report(total: nat, disponibles: nat, prestados: int, usuarios: nat)

  // ---------------------------------------------------------------------
  // The library

  class Biblioteca {
    const nombre: string
    const direccion: string
    var catalogo: seq<Material>
    var usuarios: seq<Usuario>

    constructor (nombre: string, direccion: string)
      ensures this.nombre == nombre && this.direccion == direccion
      ensures catalogo == [] && usuarios == []
    {
      this.nombre := nombre;
      this.direccion := direccion;
      catalogo := [];
      usuarios := [];
    }

    /** `agregar_material`: always appends, even a material already there. */
    method AgregarMaterial(m: Material)
      modifies this
      ensures catalogo == old(catalogo) + [m] && usuarios == old(usuarios)
      ensures forall q :: BuscarPorTitulo(q) == old(BuscarPorTitulo(q)) + (if TitleMatch(q, m) then [m] else [])
      ensures forall q :: BuscarPorGenero(q) == old(BuscarPorGenero(q)) + (if GenreMatch(q, m) then [m] else [])
      ensures Disponibles() == old(Disponibles()) + (if m.disponible then [m] else [])
    {
      catalogo := catalogo + [m];
      forall q
        ensures BuscarPorTitulo(q) == old(BuscarPorTitulo(q)) + (if TitleMatch(q, m) then [m] else [])
        ensures BuscarPorGenero(q) == old(BuscarPorGenero(q)) + (if GenreMatch(q, m) then [m] else [])
      {
        FilterConcat(old(catalogo), [m], x => TitleMatch(q, x));
        FilterSingleton(m, x => TitleMatch(q, x));
        FilterConcat(old(catalogo), [m], x => GenreMatch(q, x));
        FilterSingleton(m, x => GenreMatch(q, x));
      }
      assert catalogo[..|catalogo| - 1] == old(catalogo);
    }

    /** `registrar_usuario`: appends the user unless that very object is
        already registered (`Usuario` has no `__eq__`, so `in` compares
        identity); two users with the same identification both register. */
    method RegistrarUsuario(u: Usuario) returns (added: bool)
      modifies this
      ensures added <==> u !in old(usuarios)
      ensures usuarios == if added then old(usuarios) + [u] else old(usuarios)
      ensures u in usuarios && |usuarios| <= |old(usuarios)| + 1
      ensures catalogo == old(catalogo)
    {
      added := u !in usuarios;
      if added {
        usuarios := usuarios + [u];
      }
    }

    /** `buscar_material_por_id`: the first material with that id, or
        `None` when there is none. */
    method BuscarMaterialPorId(id: int) returns (r: Material?)
      ensures r == null <==> forall i :: 0 <= i < |catalogo| ==> catalogo[i].id != id
      ensures r != null ==>
        exists i :: 0 <= i < |catalogo| && catalogo[i] == r && r.id == id &&
                    forall j :: 0 <= j < i ==> catalogo[j].id != id
    {
      var k := 0;
      while k < |catalogo|
        invariant 0 <= k <= |catalogo|
        invariant forall j :: 0 <= j < k ==> catalogo[j].id != id
      {
        if catalogo[k].id == id {
          return catalogo[k];
        }
        k := k + 1;
      }
      r := null;
    }

    /** `buscar_usuario_por_id`: the first user with that identification,
        or `None` when there is none. */
    method BuscarUsuarioPorId(ident: string) returns (r: Usuario?)
      ensures r == null <==> forall i :: 0 <= i < |usuarios| ==> usuarios[i].identificacion != ident
      ensures r != null ==>
        exists i :: 0 <= i < |usuarios| && usuarios[i] == r && r.identificacion == ident &&
                    forall j :: 0 <= j < i ==> usuarios[j].identificacion != ident
    {
      var k := 0;
      while k < |usuarios|
        invariant 0 <= k <= |usuarios|
        invariant forall j :: 0 <= j < k ==> usuarios[j].identificacion != ident
      {
        if usuarios[k].identificacion == ident {
          return usuarios[k];
        }
        k := k + 1;
      }
      r := null;
    }

    /** `buscar_materiales_por_titulo`: the catalogue members whose title
        contains the query, case-insensitively, in catalogue order. */
    function BuscarPorTitulo(query: string): (r: seq<Material>)
      reads this
      ensures r == Filter(catalogo, m => TitleMatch(query, m))
      ensures forall m :: m in r ==> m in catalogo && TitleMatch(query, m)
      ensures forall i :: 0 <= i < |catalogo| && TitleMatch(query, catalogo[i]) ==> catalogo[i] in r
    {
      var p := (m: Material) => TitleMatch(query, m);
      forall i | 0 <= i < |catalogo| && p(catalogo[i]) ensures catalogo[i] in Filter(catalogo, p) {
        FilterMembers(catalogo, p, catalogo[i]);
      }
      Filter(catalogo, p)
    }

    /** `buscar_libros_por_genero`: the books whose genre contains the
        query, case-insensitively, in catalogue order. */
    function BuscarPorGenero(query: string): (r: seq<Material>)
      reads this
      ensures r == Filter(catalogo, m => GenreMatch(query, m))
      ensures forall m :: m in r ==> m in catalogo && GenreMatch(query, m)
      ensures forall i :: 0 <= i < |catalogo| && GenreMatch(query, catalogo[i]) ==> catalogo[i] in r
      ensures forall m :: m in r ==> m.kind.Book?
    {
      var p := (m: Material) => GenreMatch(query, m);
      forall i | 0 <= i < |catalogo| && p(catalogo[i]) ensures catalogo[i] in Filter(catalogo, p) {
        FilterMembers(catalogo, p, catalogo[i]);
      }
      Filter(catalogo, p)
    }

    /** `listar_materiales_disponibles` */
    function Disponibles(): (r: seq<Material>)
      reads this, set m | m in catalogo
      ensures r == AvailableIn(catalogo)
      ensures forall m :: m in r ==> m in catalogo && m.disponible
      ensures forall i :: 0 <= i < |catalogo| && catalogo[i].disponible ==> catalogo[i] in r
    {
      forall i | 0 <= i < |catalogo| && catalogo[i].disponible ensures catalogo[i] in AvailableIn(catalogo) {
        AvailableComplete(catalogo, catalogo[i]);
      }
      AvailableIn(catalogo)
    }

    /** The counts of `generar_reporte`: the lent count, computed as total
        minus available, is the number of unavailable materials. */
    function Reporte(): (r: Report)
      reads this, set m | m in catalogo
      ensures r.total == |catalogo| && r.usuarios == |usuarios|
      ensures r.disponibles + r.prestados == r.total
      ensures r.prestados == |LentIn(catalogo)| >= 0
    {
      AvailablePlusLent(catalogo);
      var disponibles := |Disponibles()|;
      Report(|catalogo|, disponibles, |catalogo| - disponibles, |usuarios|)
    }
  }

  /** Searching with an empty query lists the whole catalogue. */
  lemma EmptyTitleQuery(b: Biblioteca)
    ensures forall i :: 0 <= i < |b.catalogo| ==> b.catalogo[i] in b.BuscarPorTitulo("")
  {
    forall i | 0 <= i < |b.catalogo| ensures TitleMatch("", b.catalogo[i]) {
      ContainsEmpty(Lower(b.catalogo[i].titulo));
    }
  }
}
