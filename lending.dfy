/** The lending exercise (Books/Python/PythonCrashCourse/clases/ejr.py):
    a book that can be lent when available and returned when lent. */
module Lending {
  class Libro {
    const titulo: string
    const autor: string
    const isbn: string
    var disponible: bool

    /** A book is available unless it is created otherwise. */
    constructor (titulo: string, autor: string, isbn: string, disponible: bool := true)
      ensures this.titulo == titulo && this.autor == autor && this.isbn == isbn
      ensures this.disponible == disponible
    {
      this.titulo := titulo;
      this.autor := autor;
      this.isbn := isbn;
      this.disponible := disponible;
    }

    /** `prestar`: an available book becomes unavailable; an unavailable
        one is left as it is. `lent` says which message is printed. */
    method Prestar() returns (lent: bool)
      modifies this
      ensures lent == old(disponible)
      ensures !disponible
    {
      lent := disponible;
      if disponible {
        disponible := false;
      }
    }

    /** `devolver`: a lent book becomes available; an available one is left
        as it is. */
    method Devolver() returns (returned: bool)
      modifies this
      ensures returned == !old(disponible)
      ensures disponible
    {
      returned := !disponible;
      if !disponible {
        disponible := true;
      }
    }
  }

  /** Lending then returning always leaves the book available: the round
      trip restores the state of a book that was available, and returns a
      book that was already out. Title, author and ISBN are constants. */
  method PrestarDevolver(libro: Libro) returns (lent: bool, returned: bool)
    modifies libro
    ensures libro.disponible
    ensures lent == old(libro.disponible) && returned
    ensures old(libro.disponible) ==> libro.disponible == old(libro.disponible)
  {
    lent := libro.Prestar();
    returned := libro.Devolver();
  }

  /** A book created unavailable comes back available from the round trip,
      so the round trip does not restore every starting state. */
  method UnavailableRoundTrip() returns (libro: Libro)
    ensures libro.disponible
  {
    libro := new Libro("1984", "George Orwell", "978-0451524935", false);
    var lent, returned := PrestarDevolver(libro);
  }

  /** The exercise's default: a new book can be lent once, and a second
      attempt finds it unavailable. */
  method LendTwice() returns (first: bool, second: bool)
    ensures first && !second
  {
    var libro := new Libro("Cien Años de Soledad", "Gabriel García Márquez", "978-0307474728");
    first := libro.Prestar();
    second := libro.Prestar();
  }
}
