/** The query composer: the base query text, an optional ORDER BY clause, and
    the named parameters bound to the query. */
module QueryComposer {
  import opened Wrappers
  import opened Dto

  /** The executable query handed to the content store: its text and the
      named parameters bound to it. */
  datatype Query<V> = Query(text: string, parameters: map<string, V>)

  /** The clause that is appended when an ordering column is requested. */
  function OrderClause(column: string, ascending: bool): string {
    " ORDER BY " + column + (if ascending then " ASC" else " DESC")
  }

  /** An ordering is requested when `orderBy` is present and non-empty. */
  predicate HasOrdering(orderBy: Option<string>) {
    orderBy.Some? && |orderBy.value| > 0
  }

  /** The query text: the base query verbatim, followed by the ORDER BY clause
      when an ordering is requested. */
  function QueryText<V>(req: SearchRequest<V>): (text: string)
    ensures req.sqlQuery <= text
    ensures !HasOrdering(req.orderBy) ==> text == req.sqlQuery
    ensures HasOrdering(req.orderBy) ==>
              text == req.sqlQuery + " ORDER BY " + req.orderBy.value
                        + (if req.ascending then " ASC" else " DESC")
  {
    if HasOrdering(req.orderBy) then req.sqlQuery + OrderClause(req.orderBy.value, req.ascending)
    else req.sqlQuery
  }

  /** The direction can be read back from the clause: it ends in " ASC"
      exactly when the ordering is ascending. */
  lemma DirectionIsRecoverable(column: string, ascending: bool)
    ensures var c := OrderClause(column, ascending);
            |c| >= 4 && (c[|c| - 4..] == " ASC" <==> ascending)
  {
    var c := OrderClause(column, ascending);
    if !ascending {
      assert c[|c| - 5..] == " DESC";
      assert c[|c| - 4] == 'D';
    }
  }

  /** For a fixed base query, the composed text determines the ordering that
      was requested: two requests with non-empty ordering columns compose the
      same text only when they ask for the same column and direction. */
  lemma {:induction false} OrderingIsRecoverable(q: string, c1: string, a1: bool, c2: string, a2: bool)
    requires q + OrderClause(c1, a1) == q + OrderClause(c2, a2)
    ensures c1 == c2 && a1 == a2
  {
    var t1, t2 := OrderClause(c1, a1), OrderClause(c2, a2);
    assert t1 == t2 by {
      assert t1 == (q + t1)[|q|..];
      assert t2 == (q + t2)[|q|..];
    }
    DirectionIsRecoverable(c1, a1);
    DirectionIsRecoverable(c2, a2);
    assert a1 == a2;
    var d := if a1 then " ASC" else " DESC";
    assert c1 == t1[10..|t1| - |d|];
    assert c2 == t2[10..|t2| - |d|];
  }

  /** Binding the request's parameters one entry at a time, in whatever order
      the map's entries are visited; a null parameter map binds nothing. */
  method BindParameters<V>(parameters: Option<map<string, V>>) returns (bound: map<string, V>)
    ensures bound == parameters.GetOr(map[])
  {
    bound := map[];
    if parameters.Some? {
      var all := parameters.value;
      var remaining := all.Keys;
      while remaining != {}
        invariant remaining <= all.Keys
        invariant bound.Keys == all.Keys - remaining
        invariant forall k :: k in bound ==> bound[k] == all[k]
        decreases remaining
      {
        var k :| k in remaining;
        bound := bound[k := all[k]];
        remaining := remaining - {k};
      }
    }
  }

  /** The first half of the advanced search: compose the text and bind the
      parameters. */
  method ComposeQuery<V>(req: SearchRequest<V>) returns (query: Query<V>)
    ensures req.sqlQuery <= query.text
    ensures query.text == QueryText(req)
    ensures req.parameters.Some? ==> query.parameters == req.parameters.value
    ensures req.parameters.None? ==> query.parameters == map[]
  {
    var text := req.sqlQuery;
    if HasOrdering(req.orderBy) {
      text := text + OrderClause(req.orderBy.value, req.ascending);
    }
    var bound := BindParameters(req.parameters);
    query := Query(text, bound);
  }
}
