/** An identifier that is not in use. */
module FreshIds {

  function Unused(ids: set<nat>): (id: nat)
    ensures id !in ids
  {
    UnusedFrom(ids, 0)
  }

  function UnusedFrom(ids: set<nat>, id: nat): (r: nat)
    ensures r !in ids && r >= id
    decreases |ids|
  {
    if id in ids then UnusedFrom(ids - {id}, id + 1) else id
  }
}
