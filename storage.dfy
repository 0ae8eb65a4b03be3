/** An in-memory stand-in for a TypeORM repository over one collection. */
module Storage {

  /** The documents of one collection, in insertion order (the order `find` meets them). */
  class Repository<T> {
    var rows: seq<T>

    constructor (initial: seq<T>)
      ensures rows == initial
    {
      rows := initial;
    }

    /** `save` of a new entity: the document is added after all others. */
    method Insert(x: T)
      modifies this
      ensures rows == old(rows) + [x]
    {
      rows := rows + [x];
    }

    /** `save` of an entity that is already stored at position `i`. */
    method Update(i: nat, x: T)
      requires i < |rows|
      modifies this
      ensures rows == old(rows)[i := x]
    {
      rows := rows[i := x];
    }
  }
}
