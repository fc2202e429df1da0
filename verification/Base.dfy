/** Identifiers shared by every part of the model. */
module Base {

  datatype Option<+T> = None | Some(value: T)

  /** Lamport-style identifier of one clock unit. */
  datatype Id = Id(client: nat, clock: nat)

  /** A shared type: a named root, or nested in the unit that carries it. */
  datatype Parent = Root(name: string) | Nested(container: Id)

  /** The list of a key, empty if it has none. */
  function Of<K, V>(m: map<K, seq<V>>, k: K): seq<V> {
    if k in m then m[k] else []
  }

  /** Where a position lies in a list of `n`: before it or beyond it there is nothing. */
  function Clamp(index: int, n: nat): nat {
    if index < 0 then 0 else if index < n then index else n
  }

  /** Where an insert goes: at a position that does not exist it appends. */
  function OrEnd(index: int, n: nat): nat {
    if 0 <= index <= n then index else n
  }

  function Min(a: int, b: int): int {
    if a < b then a else b
  }
}
