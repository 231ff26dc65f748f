/** The dictionary exercises (Books/Python/PythonCrashCourse/Dictionary/refo.py):
    the online shop's cart, the word counter, the vote count with its
    winner, and the filter of values above 15. */
module Dictionaries {
  import opened Wrappers
  import opened Seqs
  import opened Counter
  import opened Tokenizer

  // ---------------------------------------------------------------------
  // The online shop

  datatype Producto = Producto(precio: real, stock: int)

  /** The shop's catalogue. */
  const Catalogo: map<string, Producto> := map[
    "laptop" := Producto(899.99, 15),
    "mouse" := Producto(29.99, 50),
    "teclado" := Producto(79.99, 30),
    "monitor" := Producto(299.99, 20)]

  datatype CartError = NotFound | InsufficientStock

  /** `carrito.get(producto, 0)` */
  function Quantity(carrito: map<string, int>, producto: string): int {
    if producto in carrito then carrito[producto] else 0
  }

  /** The global cart, next to the catalogue it is checked against. */
  class Tienda {
    const catalogo: map<string, Producto>
    var carrito: map<string, int>

    constructor (catalogo: map<string, Producto>)
      ensures this.catalogo == catalogo && carrito == map[]
    {
      this.catalogo := catalogo;
      carrito := map[];
    }

    /** `agregar_al_carrito`: an unknown product and an amount above the
        stock are refused and leave the cart alone; otherwise the amount is
        added to what the cart already holds. The stock is checked against
        this one amount and never reduced. */
    method AgregarAlCarrito(producto: string, cantidad: int) returns (o: Outcome<CartError>)
      modifies this
      ensures producto !in catalogo ==> o == Fail(NotFound) && carrito == old(carrito)
      ensures producto in catalogo && catalogo[producto].stock < cantidad ==>
        o == Fail(InsufficientStock) && carrito == old(carrito)
      ensures o.Pass? <==> producto in catalogo && catalogo[producto].stock >= cantidad
      ensures o.Pass? ==> carrito == old(carrito)[producto := Quantity(old(carrito), producto) + cantidad]
    {
      if producto in catalogo {
        if catalogo[producto].stock >= cantidad {
          carrito := carrito[producto := Quantity(carrito, producto) + cantidad];
          o := Pass;
        } else {
          o := Fail(InsufficientStock);
        }
      } else {
        o := Fail(NotFound);
      }
    }
  }

  /** An accepted addition changes only the product added. */
  lemma OtherProductsUntouched(carrito: map<string, int>, producto: string, cantidad: int, otro: string)
    requires otro != producto
    ensures Quantity(carrito[producto := Quantity(carrito, producto) + cantidad], otro) == Quantity(carrito, otro)
  {
  }

  /** Two accepted additions of 10 laptops put 20 in the cart, above the
      stock of 15, because each call checks only its own amount. */
  method CartCanExceedStock() returns (shop: Tienda)
    ensures shop.catalogo == Catalogo
    ensures Quantity(shop.carrito, "laptop") == 20 > Catalogo["laptop"].stock
  {
    shop := new Tienda(Catalogo);
    var o := shop.AgregarAlCarrito("laptop", 10);
    o := shop.AgregarAlCarrito("laptop", 10);
  }

  /** The session of the exercise: three known products and an unknown one. */
  method Compra() returns (shop: Tienda, webcam: Outcome<CartError>)
    ensures shop.carrito == map["laptop" := 1, "mouse" := 2, "teclado" := 1]
    ensures webcam == Fail(NotFound)
  {
    shop := new Tienda(Catalogo);
    var o := shop.AgregarAlCarrito("laptop", 1);
    o := shop.AgregarAlCarrito("mouse", 2);
    o := shop.AgregarAlCarrito("teclado", 1);
    webcam := shop.AgregarAlCarrito("webcam", 1);
  }

  // ---------------------------------------------------------------------
  // Counting loops

  /** `for x in xs: d[x] = d.get(x, 0) + 1`, the loop of both the word
      counter and the vote count: it builds `Counter(xs)`, so every item is
      a key, each counted as often as it occurs, and the counts add up to
      the number of items. */
  method Contar<T(==)>(xs: seq<T>) returns (d: Tally<T>)
    ensures d == TallyOf(xs)
    ensures Valid(d) && Total(d) == |xs|
    ensures forall i :: 0 <= i < |xs| ==> xs[i] in d.keys
    ensures forall k :: Get(d, k) == multiset(xs)[k]
  {
    d := Tally([], map[]);
    var i := 0;
    while i < |xs|
      invariant 0 <= i <= |xs|
      invariant d == TallyOf(xs[..i])
    {
      assert xs[..i + 1][..i] == xs[..i];
      d := Bump(d, xs[i]);
      i := i + 1;
    }
    assert xs[..i] == xs;
    TallyOfCorrect(xs);
    forall i | 0 <= i < |xs| ensures xs[i] in d.keys {
      assert xs[i] in xs;
    }
  }

  /** The word counter: `texto.split()` counted word by word. */
  method ContarPalabras(texto: string) returns (contador: Tally<string>)
    ensures contador == TallyOf(SplitWhitespace(texto))
    ensures Valid(contador) && Total(contador) == |SplitWhitespace(texto)|
  {
    contador := Contar(SplitWhitespace(texto));
  }

  datatype MaxError = EmptySequence

  /** `max(d, key=d.get)`: the first key, in insertion order, whose count is
      the largest; `ValueError` on an empty dict. */
  method Ganador<T>(d: Tally<T>) returns (r: Result<T, MaxError>)
    requires Valid(d)
    ensures r.Err? <==> d.keys == []
    ensures r.Ok? ==> r.value in d.count && forall k :: k in d.count ==> d.count[k] <= d.count[r.value]
    ensures r.Ok? ==> exists i :: 0 <= i < |d.keys| && d.keys[i] == r.value &&
                        forall j :: 0 <= j < i ==> d.count[d.keys[j]] < d.count[r.value]
  {
    if d.keys == [] {
      return Err(EmptySequence);
    }
    assert d.keys[0] in Elements(d.keys);
    var best := 0;
    var i := 1;
    while i < |d.keys|
      invariant 1 <= i <= |d.keys| && 0 <= best < i
      invariant forall j :: 0 <= j < i ==> d.keys[j] in d.count
      invariant forall j :: 0 <= j < i ==> d.count[d.keys[j]] <= d.count[d.keys[best]]
      invariant forall j :: 0 <= j < best ==> d.count[d.keys[j]] < d.count[d.keys[best]]
    {
      assert d.keys[i] in Elements(d.keys);
      if d.count[d.keys[i]] > d.count[d.keys[best]] {
        best := i;
      }
      i := i + 1;
    }
    forall k | k in d.count ensures d.count[k] <= d.count[d.keys[best]] {
      assert k in Elements(d.keys);
      var j :| 0 <= j < |d.keys| && d.keys[j] == k;
    }
    r := Ok(d.keys[best]);
  }

  /** The vote: the counts add up to the number of votes, each is the
      number of votes cast for that option, and the winner is an option
      with the most votes. */
  method Votacion(votos: seq<string>) returns (resultados: Tally<string>, ganador: Result<string, MaxError>)
    ensures resultados == TallyOf(votos) && Valid(resultados) && Total(resultados) == |votos|
    ensures forall v :: Get(resultados, v) == multiset(votos)[v]
    ensures ganador.Err? <==> votos == []
    ensures ganador.Ok? ==> ganador.value in votos
    ensures ganador.Ok? ==> forall v :: v in votos ==> multiset(votos)[v] <= multiset(votos)[ganador.value]
    ensures ganador.Ok? ==> forall v :: v in votos && FirstIndex(votos, v) < FirstIndex(votos, ganador.value) ==>
      multiset(votos)[v] < multiset(votos)[ganador.value]
  {
    resultados := Contar(votos);
    ganador := Ganador(resultados);
    TallyOfCorrect(votos);
    if votos == [] {
      assert resultados.keys == [];
    } else {
      assert votos[0] in resultados.keys;
      assert ganador.value in Elements(resultados.keys);
      TiesGoToFirstVoted(votos, ganador.value);
    }
  }

  /** `max` keeps the first key of largest count, and keys are in
      first-vote order: any option first voted before the winner has fewer
      votes. */
  lemma TiesGoToFirstVoted<T>(votos: seq<T>, w: T)
    requires var d := TallyOf(votos);
      Valid(d) && w in d.count &&
      exists i :: 0 <= i < |d.keys| && d.keys[i] == w &&
        forall j :: 0 <= j < i ==> d.count[d.keys[j]] < d.count[w]
    ensures w in votos
    ensures forall v :: v in votos && FirstIndex(votos, v) < FirstIndex(votos, w) ==>
      multiset(votos)[v] < multiset(votos)[w]
  {
    var d := TallyOf(votos);
    FewerInTally(votos, w);
    TallyOfCorrect(votos);
    forall v | v in votos && FirstIndex(votos, v) < FirstIndex(votos, w)
      ensures multiset(votos)[v] < multiset(votos)[w]
    {
      assert Get(d, v) == d.count[v] && Get(d, w) == d.count[w];
    }
  }

  /** The same in terms of the counts of the tally. */
  lemma FewerInTally<T>(votos: seq<T>, w: T)
    requires var d := TallyOf(votos);
      Valid(d) && w in d.count &&
      exists i :: 0 <= i < |d.keys| && d.keys[i] == w &&
        forall j :: 0 <= j < i ==> d.count[d.keys[j]] < d.count[w]
    ensures w in votos
    ensures var d := TallyOf(votos);
      forall v :: v in votos && FirstIndex(votos, v) < FirstIndex(votos, w) ==>
        v in d.count && d.count[v] < d.count[w]
  {
    var d := TallyOf(votos);
    TallyKeys(votos);
    var i :| 0 <= i < |d.keys| && d.keys[i] == w &&
      forall j :: 0 <= j < i ==> d.count[d.keys[j]] < d.count[w];
    KeysAfter(votos, i);
    EarlierKeysFewer(votos, d.keys, d.count, i, w);
  }

  /** The keys after position `i` were all first seen after the key at `i`. */
  lemma KeysAfter<T>(xs: seq<T>, i: nat)
    requires i < |TallyOf(xs).keys|
    ensures var keys := TallyOf(xs).keys;
      && keys[i] in xs
      && forall a :: i < a < |keys| ==> keys[a] in xs && FirstIndex(xs, keys[i]) < FirstIndex(xs, keys[a])
  {
    TallyKeysOrder(xs);
  }

  /** In keys ordered by first occurrence in `xs`, a key first seen before
      the one at `i` sits before position `i`, so it has a smaller count. */
  lemma EarlierKeysFewer<T>(xs: seq<T>, keys: seq<T>, count: map<T, nat>, i: nat, w: T)
    requires i < |keys| && keys[i] == w && w in count
    requires forall j :: 0 <= j < i ==> keys[j] in count && count[keys[j]] < count[w]
    requires forall v :: v in keys <==> v in xs
    requires w in xs
    requires forall a :: i < a < |keys| ==> keys[a] in xs && FirstIndex(xs, w) < FirstIndex(xs, keys[a])
    ensures forall v :: v in xs && FirstIndex(xs, v) < FirstIndex(xs, w) ==>
      v in count && count[v] < count[w]
  {
    forall v | v in xs && FirstIndex(xs, v) < FirstIndex(xs, w)
      ensures v in count && count[v] < count[w]
    {
      var k :| 0 <= k < |keys| && keys[k] == v;
      assert k < i;
    }
  }

  /** The exercise's ten votes. */
  const Votos: seq<string> := ["python", "javascript", "python", "java", "python",
                               "javascript", "ruby", "python", "java", "javascript"]

  /** Four options get votes: python four, javascript three, java two and
      ruby one. */
  lemma PythonLeads()
    ensures Elements(Votos) == {"python", "javascript", "java", "ruby"}
    ensures multiset(Votos)["python"] == 4
    ensures multiset(Votos)["javascript"] == 3
    ensures multiset(Votos)["java"] == 2
    ensures multiset(Votos)["ruby"] == 1
  {
    var py, js, jv, rb := "python", "javascript", "java", "ruby";
    assert |py| == 6 && |js| == 10 && |jv| == 4 && jv[0] != rb[0];
    assert py != js && py != jv && py != rb && js != jv && js != rb && jv != rb;
    assert Votos == [py, js, py, jv, py, js, rb, py, jv, js];
  }

  /** The exercise's ten votes elect python, with four. */
  method VotacionEjemplo() returns (ganador: Result<string, MaxError>)
    ensures ganador == Ok("python")
  {
    var resultados;
    resultados, ganador := Votacion(Votos);
    OnlyPythonWins(ganador.value);
  }

  /** Only python has at least as many votes as every option. */
  lemma OnlyPythonWins(w: string)
    requires w in Votos
    requires forall v :: v in Votos ==> multiset(Votos)[v] <= multiset(Votos)[w]
    ensures w == "python"
  {
    PythonLeads();
    assert "python" in Votos;
    assert w in Elements(Votos);
  }

  // ---------------------------------------------------------------------
  // Dict comprehension

  /** `{k: v for k, v in numeros.items() if v > 15}` */
  function Mayores15(numeros: map<string, int>): (r: map<string, int>)
    ensures forall k :: k in r <==> k in numeros && numeros[k] > 15
    ensures forall k :: k in r ==> r[k] == numeros[k]
  {
    map k | k in numeros && numeros[k] > 15 :: numeros[k]
  }

  /** Filtering twice is filtering once, and nothing kept is 15 or less. */
  lemma Mayores15Idempotent(numeros: map<string, int>)
    ensures Mayores15(Mayores15(numeros)) == Mayores15(numeros)
    ensures forall k :: k in Mayores15(numeros) ==> Mayores15(numeros)[k] > 15
  {
  }
}
