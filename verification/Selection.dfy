/**
 `ORDER BY … LIMIT n` over a set of candidate rows.
 */
module Selection {
  /** A total preorder: what an `ORDER BY` list induces, ties allowed. */
  ghost predicate Ordering<T(!new)>(le: (T, T) -> bool) {
    && (forall a, b :: le(a, b) || le(b, a))
    && (forall a, b, c :: le(a, b) && le(b, c) ==> le(a, c))
  }

  ghost predicate Ordered<T>(le: (T, T) -> bool, chosen: seq<T>) {
    forall i, j :: 0 <= i < j < |chosen| ==> chosen[i] != chosen[j] && le(chosen[i], chosen[j])
  }

  /** `chosen` is a first page of `candidates`: ordered, without repeats, as long
      as the limit allows, and no candidate left out comes before one in it. */
  ghost predicate FirstPage<T>(chosen: seq<T>, candidates: set<T>, limit: nat, le: (T, T) -> bool) {
    && Ordered(le, chosen)
    && (forall x :: x in chosen ==> x in candidates)
    && |chosen| <= limit
    && (|chosen| < limit ==> forall x :: x in candidates ==> x in chosen)
    && (forall x, y :: x in chosen && y in candidates && y !in chosen ==> le(x, y))
  }

  method First<T(==, !new)>(candidates: set<T>, le: (T, T) -> bool) returns (least: T)
    requires Ordering(le) && candidates != {}
    ensures least in candidates && forall x :: x in candidates ==> le(least, x)
  {
    least :| least in candidates;
    var rest := candidates - {least};
    while rest != {}
      invariant rest <= candidates && least in candidates
      invariant forall x :: x in candidates && x !in rest ==> le(least, x)
      decreases rest
    {
      var x :| x in rest;
      rest := rest - {x};
      if !le(least, x) {
        least := x;
      }
    }
  }

  method TakeFirst<T(==, !new)>(candidates: set<T>, limit: nat, le: (T, T) -> bool) returns (chosen: seq<T>)
    requires Ordering(le)
    ensures FirstPage(chosen, candidates, limit, le)
  {
    chosen := [];
    var rest := candidates;
    while |chosen| < limit && rest != {}
      invariant rest <= candidates && |chosen| <= limit
      invariant forall x :: x in candidates ==> (x in chosen <==> x !in rest)
      invariant forall x :: x in chosen ==> x in candidates
      invariant Ordered(le, chosen)
      invariant forall x, y :: x in chosen && y in rest ==> le(x, y)
      decreases rest
    {
      var next := First(rest, le);
      chosen := chosen + [next];
      rest := rest - {next};
    }
  }
}
