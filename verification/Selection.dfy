/** `ORDER BY ... LIMIT n` over a set of row ids. */
module Selection {

  /** A sort key: NULLs first, then the ordering column, then the id. */
  datatype Rank = Rank(nulls: nat, column: int, id: nat)

  predicate Before(a: Rank, b: Rank) {
    a.nulls < b.nulls || (a.nulls == b.nulls && (a.column < b.column || (a.column == b.column && a.id < b.id)))
  }

  /** Ranks end in the id they belong to, so two ids never tie. */
  ghost predicate Labelled(rank: nat -> Rank) {
    forall id: nat :: rank(id).id == id
  }

  /** `chosen` is what LIMIT keeps of `pool`: nothing left out sorts before anything kept. */
  ghost predicate IsFirst(chosen: set<nat>, pool: set<nat>, limit: nat, rank: nat -> Rank) {
    && chosen <= pool
    && |chosen| == (if |pool| <= limit then |pool| else limit)
    && forall x, y | x in chosen && y in pool && y !in chosen :: Before(rank(x), rank(y))
  }

  method Least(pool: set<nat>, rank: nat -> Rank) returns (least: nat)
    requires pool != {} && Labelled(rank)
    ensures least in pool
    ensures forall y | y in pool && y != least :: Before(rank(least), rank(y))
  {
    least :| least in pool;
    var rest := pool - {least};
    while rest != {}
      invariant least in pool && rest <= pool && least !in rest
      invariant forall y | y in pool && y !in rest && y != least :: Before(rank(least), rank(y))
      decreases rest
    {
      var x :| x in rest;
      rest := rest - {x};
      if Before(rank(x), rank(least)) {
        least := x;
      }
    }
  }

  function Elements(s: seq<nat>): set<nat> {
    set x | x in s
  }

  lemma ElementsOfAppend(s: seq<nat>, x: nat)
    ensures Elements(s + [x]) == Elements(s) + {x}
  {
  }

  ghost predicate Ascending(s: seq<nat>, rank: nat -> Rank) {
    forall i, j | 0 <= i < j < |s| :: Before(rank(s[i]), rank(s[j]))
  }

  /** `chosen` lists, in order, the first |chosen| elements of `pool`. */
  ghost predicate Leads(chosen: seq<nat>, pool: set<nat>, rank: nat -> Rank) {
    && Elements(chosen) <= pool
    && |Elements(chosen)| == |chosen|
    && Ascending(chosen, rank)
    && forall x, y | x in Elements(chosen) && y in pool - Elements(chosen) :: Before(rank(x), rank(y))
  }

  lemma LeadsExtends(chosen: seq<nat>, pool: set<nat>, rank: nat -> Rank, x: nat)
    requires Leads(chosen, pool, rank)
    requires x in pool - Elements(chosen)
    requires forall y | y in pool - Elements(chosen) && y != x :: Before(rank(x), rank(y))
    ensures Leads(chosen + [x], pool, rank)
  {
    ElementsOfAppend(chosen, x);
    assert Ascending(chosen + [x], rank) by {
      forall i | 0 <= i < |chosen|
        ensures Before(rank(chosen[i]), rank(x))
      {
        assert chosen[i] in Elements(chosen);
      }
    }
  }

  lemma LeadsIsFirst(chosen: seq<nat>, pool: set<nat>, rank: nat -> Rank, limit: nat)
    requires Leads(chosen, pool, rank)
    requires |chosen| <= limit && (|chosen| == limit || pool <= Elements(chosen))
    ensures IsFirst(Elements(chosen), pool, limit, rank)
  {
    assert |pool| == |Elements(chosen)| + |pool - Elements(chosen)| by {
      assert pool == Elements(chosen) + (pool - Elements(chosen));
    }
  }

  method TakeFirst(pool: set<nat>, limit: nat, rank: nat -> Rank) returns (chosen: seq<nat>)
    requires Labelled(rank)
    ensures IsFirst(Elements(chosen), pool, limit, rank)
    ensures |chosen| == |Elements(chosen)| && Ascending(chosen, rank)
  {
    chosen := [];
    var rest := pool;
    while rest != {} && |chosen| < limit
      invariant rest == pool - Elements(chosen)
      invariant |chosen| <= limit && Leads(chosen, pool, rank)
      decreases rest
    {
      var x := Least(rest, rank);
      LeadsExtends(chosen, pool, rank, x);
      ElementsOfAppend(chosen, x);
      rest := rest - {x};
      chosen := chosen + [x];
    }
    LeadsIsFirst(chosen, pool, rank, limit);
  }
}
