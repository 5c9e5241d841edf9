/** Sums over the sessions of a table, whatever order the table is visited in. */
module Totals {
  import opened AuthTypes

  ghost function Total(amounts: map<SessionId, nat>): nat
    decreases |amounts|
  {
    if amounts == map[] then 0
    else var id :| id in amounts; amounts[id] + Total(amounts - {id})
  }

  /** The sum does not depend on which session is taken first. */
  lemma {:induction false} TotalTakesAny(amounts: map<SessionId, nat>, id: SessionId)
    requires id in amounts
    ensures Total(amounts) == amounts[id] + Total(amounts - {id})
    decreases |amounts|
  {
    var first :| first in amounts && Total(amounts) == amounts[first] + Total(amounts - {first});
    if first != id {
      TotalTakesAny(amounts - {first}, id);
      TotalTakesAny(amounts - {id}, first);
      assert amounts - {first} - {id} == amounts - {id} - {first};
    }
  }
}
