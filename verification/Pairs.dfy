/** Lua's `pairs`: the keys of a table are visited in an order nobody may rely on. */
module Pairs {

  /** Some key that is still to be visited. */
  method Next<K>(todo: set<K>) returns (key: K)
    requires todo != {}
    ensures key in todo
  {
    key :| key in todo;
  }

  /** A member of a set that has one. */
  lemma Member<K>(s: set<K>) returns (key: K)
    requires s != {}
    ensures key in s
  {
    key :| key in s;
  }
}
