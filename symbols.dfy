/** The symbolic objects the operator and the emitters work on. Index,
    Tensor, RDM and Active are declared in headers that are not part of this
    model; here each is a value that carries its identity and the text its
    own helpers render (`Index::str_gen`, `Index::num`, `Index::str(false)`,
    `Tensor::str`, and the two numeric renderings of the RDM prefactor), so
    the emitters treat that text as given. */
module Symbols {

  import opened Wrappers

  /** One orbital index. `id` stands for the object's identity (the source
      compares shared pointers), `range` is its range label ("c", "a", "x",
      "g"), `num` the text of `num()`, `gen` the text of `str_gen()` and
      `name` the text of `str(false)`. */
  datatype Index = Index(id: nat, range: string, num: string, gen: string, name: string)

  /** A tensor as the active emitter uses it: its index list and the text of
      `str()`. */
  datatype Tensor = Tensor(index: seq<Index>, text: string)

  /** A reduced density matrix term: its indices, its delta pairs in the
      order the source iterates them, `fac` = the `fac_` prefactor as
      written with fixed, width 5, two decimals, and `factor` = `factor()` as
      written by a default stream. */
  datatype Rdm = Rdm(index: seq<Index>, delta: seq<(Index, Index)>, fac: string, factor: string)

  /** An active-space unit: its target indices and its RDM terms. */
  datatype Active = Active(index: seq<Index>, rdms: seq<Rdm>)

  /** Rank of an RDM block: half its index count. */
  function Rank(r: Rdm): nat
  {
    |r.index| / 2
  }

  function Names(xs: seq<Index>): seq<string>
  {
    seq(|xs|, k requires 0 <= k < |xs| => xs[k].name)
  }

  function MergedIndex(merged: Option<Tensor>): seq<Index>
  {
    if merged.Some? then merged.value.index else []
  }
}
