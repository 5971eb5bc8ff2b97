/** The three independent keyspaces of the execution context. */
module Keyspace {

  /** A stored value, represented by its text payload; values compare by that text. */
  type Value = string

  /** key -> scalar value */
  type KvSpace = map<string, Value>

  /** key -> ordered list of values (duplicates allowed) */
  type ListSpace = map<string, seq<Value>>

  /** key -> (field -> value) */
  type HashSpace = map<string, map<string, Value>>

  /** The execution context: three disjoint namespaces, each mutated only by its own family. */
  datatype Context = Context(kvps: KvSpace, lists: ListSpace, hashes: HashSpace)
}
