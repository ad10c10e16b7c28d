/** A query that reads the rows with the least keys: ordered, limited, one row at a time. */
module Selection {

  predicate Distinct(ids: seq<nat>) {
    forall m, n :: 0 <= m < n < |ids| ==> ids[m] != ids[n]
  }

  /** No row of `chosen` has a greater key than `id`. */
  predicate NoneAfter(keys: map<nat, real>, chosen: seq<nat>, id: nat) {
    id in keys && forall k :: k in chosen ==> k in keys && keys[k] <= keys[id]
  }

  predicate Ordered(keys: map<nat, real>, chosen: seq<nat>) {
    forall m, n :: 0 <= m < n < |chosen| ==>
      chosen[m] in keys && chosen[n] in keys && keys[chosen[m]] <= keys[chosen[n]]
  }

  /** The rows an ordered query with a limit returns: in order, each once, and none left out while there was room or
      while a later one got in. */
  ghost predicate IsFirst(keys: map<nat, real>, limit: nat, chosen: seq<nat>) {
    && Distinct(chosen) && Ordered(keys, chosen) && |chosen| <= limit
    && (forall id :: id in chosen ==> id in keys)
    && (forall id :: id in keys && id !in chosen ==> |chosen| == limit && NoneAfter(keys, chosen, id))
  }

  method LeastOf(keys: map<nat, real>, candidates: set<nat>) returns (least: nat)
    requires candidates != {} && candidates <= keys.Keys
    ensures least in candidates && forall id :: id in candidates ==> keys[least] <= keys[id]
  {
    least :| least in candidates;
    var rest := candidates - {least};
    while rest != {}
      invariant rest <= candidates && least in candidates
      invariant forall id :: id in candidates - rest ==> keys[least] <= keys[id]
    {
      var id :| id in rest;
      if keys[id] < keys[least] {
        least := id;
      }
      rest := rest - {id};
    }
  }

  method SelectFirst(keys: map<nat, real>, limit: nat) returns (chosen: seq<nat>)
    ensures IsFirst(keys, limit, chosen)
  {
    chosen := [];
    var rest := keys.Keys;
    while rest != {} && |chosen| < limit
      invariant rest <= keys.Keys && |chosen| <= limit && Distinct(chosen) && Ordered(keys, chosen)
      invariant forall id :: id in chosen <==> id in keys.Keys - rest
      invariant forall id :: id in rest ==> NoneAfter(keys, chosen, id)
      decreases rest
    {
      var id := LeastOf(keys, rest);
      assert NoneAfter(keys, chosen, id);
      Appended(keys, chosen, id);
      forall other | other in rest - {id} ensures NoneAfter(keys, chosen + [id], other) {
        assert NoneAfter(keys, chosen, other);
      }
      chosen := chosen + [id];
      rest := rest - {id};
    }
  }

  lemma Appended(keys: map<nat, real>, chosen: seq<nat>, id: nat)
    requires Distinct(chosen) && Ordered(keys, chosen) && id !in chosen && NoneAfter(keys, chosen, id)
    ensures Distinct(chosen + [id]) && Ordered(keys, chosen + [id])
  {
  }
}
