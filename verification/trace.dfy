/** A handler's observable behaviour is the ordered list of its effects;
    these projections give the actions it dispatches and the callbacks it
    fires, each in order. */
module Trace {
  import opened SelectTypes

  function Dispatched(t: seq<Effect>): (r: seq<Action>)
    ensures |r| <= |t|
  {
    if |t| == 0 then []
    else
      var rest := Dispatched(t[1..]);
      if t[0].Dispatch? then [t[0].action] + rest else rest
  }

  function Fired(t: seq<Effect>): (r: seq<Callback>)
    ensures |r| <= |t|
  {
    if |t| == 0 then []
    else
      var rest := Fired(t[1..]);
      if t[0].Fire? then [t[0].callback] + rest else rest
  }

  /** Running two handlers' effects one after the other dispatches the
      first one's actions, then the second one's. */
  lemma {:induction false} DispatchedConcat(a: seq<Effect>, b: seq<Effect>)
    ensures Dispatched(a + b) == Dispatched(a) + Dispatched(b)
    decreases |a|
  {
    if |a| == 0 {
      assert a + b == b;
    } else {
      assert (a + b)[1..] == a[1..] + b;
      DispatchedConcat(a[1..], b);
    }
  }

  lemma {:induction false} FiredConcat(a: seq<Effect>, b: seq<Effect>)
    ensures Fired(a + b) == Fired(a) + Fired(b)
    decreases |a|
  {
    if |a| == 0 {
      assert a + b == b;
    } else {
      assert (a + b)[1..] == a[1..] + b;
      FiredConcat(a[1..], b);
    }
  }

  /** The projections keep exactly the dispatched actions and the fired
      callbacks of the trace. */
  lemma {:induction false} ProjectionMembers(t: seq<Effect>)
    ensures forall a :: a in Dispatched(t) <==> Dispatch(a) in t
    ensures forall c :: c in Fired(t) <==> Fire(c) in t
    decreases |t|
  {
    if |t| > 0 {
      ProjectionMembers(t[1..]);
      assert forall e :: e in t <==> e == t[0] || e in t[1..];
    }
  }

  lemma DispatchedOne(e: Effect)
    ensures Dispatched([e]) == (if e.Dispatch? then [e.action] else [])
    ensures Fired([e]) == (if e.Fire? then [e.callback] else [])
  {
    assert [e][1..] == [];
  }

  lemma DispatchedPair(x: Effect, y: Effect)
    ensures Dispatched([x, y]) == Dispatched([x]) + Dispatched([y])
    ensures Fired([x, y]) == Fired([x]) + Fired([y])
  {
    assert [x, y] == [x] + [y];
    DispatchedConcat([x], [y]);
    FiredConcat([x], [y]);
  }
}
