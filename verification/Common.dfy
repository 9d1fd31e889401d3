/**
 What several modules share: optional values, the system's limit on the objects of one wait, the larger and
 the smaller of two numbers, and two facts about sequences.
 */
module Common {

  const MAXIMUM_WAIT_OBJECTS: nat := 64

  datatype Option<T> = None | Some(value: T)

  function Max(a: int, b: int): int {
    if a < b then b else a
  }

  function Min(a: int, b: int): int {
    if a < b then a else b
  }

  lemma Associate<T>(a: seq<T>, b: seq<T>, c: seq<T>)
    ensures a + (b + c) == (a + b) + c
  {
  }

  lemma AppendToTail<T>(s: seq<T>, t: seq<T>)
    requires s != []
    ensures s + t != [] && (s + t)[0] == s[0] && (s + t)[1..] == s[1..] + t
  {
  }
}
