/** A document collection that a route writes to, and what a writing route produces. */
module Store {
  import opened Http

  /** A Mongoose model's collection, in natural (insertion) order. */
  class Collection<T> {
    var docs: seq<T>

    constructor (docs: seq<T>)
      ensures this.docs == docs
    {
      this.docs := docs;
    }

    /** The write of `Model.create(doc)` once validation has passed. */
    method Insert(doc: T)
      modifies this
      ensures docs == old(docs) + [doc]
    {
      docs := docs + [doc];
    }
  }

  /** The collection after a handler ran, and its response. */
  datatype Written<T> = Written(docs: seq<T>, response: Response)
}
