/** JSON trees as Python holds them: tuples besides lists, and objects as ordered fields. */
module Json {
  datatype Json =
    | Null
    | Bool(b: bool)
    | Number(n: real)
    | Str(s: string)
    | List(items: seq<Json>)
    | Tuple(items: seq<Json>)
    | Object(fields: seq<Field>)

  datatype Field = Field(key: string, value: Json)

  /** `value.get(key)`, with null for a missing key. */
  function Get(fields: seq<Field>, key: string): Json {
    if fields == [] then Null else if fields[0].key == key then fields[0].value else Get(fields[1..], key)
  }

  // ---------------------------------------------------------------- positions

  function Size(v: Json): nat {
    match v
    case List(items) => |items|
    case Tuple(items) => |items|
    case Object(fields) => |fields|
    case _ => 0
  }

  function Child(v: Json, i: nat): (c: Json)
    requires i < Size(v)
    ensures c < v
  {
    match v
    case List(items) => items[i]
    case Tuple(items) => items[i]
    case Object(fields) => fields[i].value
  }

  /** A node of the tree, as the child numbers on the way to it. */
  type Position = seq<nat>

  predicate IsPosition(v: Json, pos: Position)
    decreases pos
  {
    pos != [] ==> pos[0] < Size(v) && IsPosition(Child(v, pos[0]), pos[1..])
  }

  function Node(v: Json, pos: Position): Json
    requires IsPosition(v, pos)
    decreases pos
  {
    if pos == [] then v else Node(Child(v, pos[0]), pos[1..])
  }

  /** Pre-order: an ancestor comes before its descendants, and siblings in order. */
  predicate Before(p: Position, q: Position)
    decreases p
  {
    q != [] && (p == [] || p[0] < q[0] || (p[0] == q[0] && Before(p[1..], q[1..])))
  }

  /** Pre-order is a strict total order, so a first position is unique. */
  lemma {:induction false} PreOrderIsTotal(p: Position, q: Position)
    ensures Before(p, q) ==> !Before(q, p) && p != q
    ensures p == q || Before(p, q) || Before(q, p)
    decreases p
  {
    if p != [] && q != [] && p[0] == q[0] {
      PreOrderIsTotal(p[1..], q[1..]);
      assert p == [p[0]] + p[1..] && q == [q[0]] + q[1..];
    }
  }
}
