/**
 * Where the callback of every issued call is: pending in `pending_calls_`, moved
 * out by some thread that is about to invoke it, or invoked.
 */
module CallLedger {
  import opened Basics
  import opened Envelope

  type Id = Bytes

  /** `std::hash` narrowed to `int`: nothing is assumed about it unless said. */
  type TimerIds = Id -> int

  /** The threads that move callbacks out: a failing CallRaw, the loop, and the thread in Stop. */
  datatype Owner = Caller | Loop | Stopper

  /** `delivered[id]` is the response the callback of `id` was last invoked with. */
  datatype Ledger = Ledger(
    issued: set<Id>,
    pending: set<Id>,
    held: map<Owner, set<Id>>,
    invoked: multiset<Id>,
    delivered: map<Id, RpcResponse>)
  {
    function Held(o: Owner): set<Id> {
      if o in held then held[o] else {}
    }
  }

  function NewLedger(): Ledger { Ledger({}, {}, map[], multiset{}, map[]) }

  /** `pending_calls_[request_id] = callback`. */
  function Register(l: Ledger, id: Id): (r: Ledger)
    ensures r.held == l.held && r.issued == l.issued + {id}
  {
    l.(issued := l.issued + {id}, pending := l.pending + {id})
  }

  /** The call is refused: its callback runs at once. */
  function Refuse(l: Ledger, id: Id, resp: RpcResponse): (r: Ledger)
    ensures r.held == l.held && r.issued == l.issued + {id}
  {
    l.(issued := l.issued + {id}, invoked := l.invoked + multiset{id}, delivered := l.delivered[id := resp])
  }

  /** Find, move out and erase one callback, if it is there. */
  function TakeOne(l: Ledger, o: Owner, id: Id): (r: Ledger)
    ensures r.issued == l.issued && forall p: Owner | p != o :: r.Held(p) == l.Held(p)
  {
    if id in l.pending then l.(pending := l.pending - {id}, held := l.held[o := l.Held(o) + {id}]) else l
  }

  /** `tmp.swap(pending_calls_)`. */
  function TakeAll(l: Ledger, o: Owner): (r: Ledger)
    ensures r.issued == l.issued && forall p: Owner | p != o :: r.Held(p) == l.Held(p)
  {
    l.(pending := {}, held := l.held[o := l.Held(o) + l.pending])
  }

  /** Invoke a callback moved out before; nothing happens if it was not. */
  function Invoke(l: Ledger, o: Owner, id: Id, resp: RpcResponse): (r: Ledger)
    ensures r.issued == l.issued && forall p: Owner | p != o :: r.Held(p) == l.Held(p)
  {
    if id in l.Held(o) then
      l.(held := l.held[o := l.Held(o) - {id}], invoked := l.invoked + multiset{id}, delivered := l.delivered[id := resp])
    else l
  }

  function One(b: bool): nat { if b then 1 else 0 }

  /** In how many places the callback of `id` is. */
  function Tally(l: Ledger, id: Id): nat {
    One(id in l.pending) + One(id in l.Held(Caller)) + One(id in l.Held(Loop)) + One(id in l.Held(Stopper)) + l.invoked[id]
  }

  /** Every issued call has its callback in exactly one place, and no other call has one anywhere. */
  ghost predicate Balanced(l: Ledger) {
    && (forall id: Id :: Tally(l, id) == One(id in l.issued))
    && (forall id: Id :: id in l.delivered <==> l.invoked[id] > 0)
  }

  lemma RegisterBalanced(l: Ledger, id: Id)
    requires Balanced(l) && id !in l.issued
    ensures Balanced(Register(l, id))
  {
    var r := Register(l, id);
    forall x: Id ensures Tally(r, x) == One(x in r.issued) { assert Tally(l, x) == One(x in l.issued); }
  }

  lemma RefuseBalanced(l: Ledger, id: Id, resp: RpcResponse)
    requires Balanced(l) && id !in l.issued
    ensures Balanced(Refuse(l, id, resp))
  {
    var r := Refuse(l, id, resp);
    forall x: Id ensures Tally(r, x) == One(x in r.issued) { assert Tally(l, x) == One(x in l.issued); }
  }

  lemma TakeOneBalanced(l: Ledger, o: Owner, id: Id)
    requires Balanced(l)
    ensures Balanced(TakeOne(l, o, id))
  {
    var r := TakeOne(l, o, id);
    forall x: Id ensures Tally(r, x) == One(x in r.issued) { assert Tally(l, x) == One(x in l.issued); }
  }

  lemma TakeAllBalanced(l: Ledger, o: Owner)
    requires Balanced(l)
    ensures Balanced(TakeAll(l, o))
  {
    var r := TakeAll(l, o);
    forall x: Id ensures Tally(r, x) == One(x in r.issued) { assert Tally(l, x) == One(x in l.issued); }
  }

  lemma InvokeBalanced(l: Ledger, o: Owner, id: Id, resp: RpcResponse)
    requires Balanced(l)
    ensures Balanced(Invoke(l, o, id, resp))
  {
    var r := Invoke(l, o, id, resp);
    forall x: Id ensures Tally(r, x) == One(x in r.issued) { assert Tally(l, x) == One(x in l.issued); }
  }

  /** A callback is in one place only. */
  lemma OnePlace(l: Ledger, id: Id, o: Owner)
    requires Balanced(l) && (id in l.Held(o) || l.invoked[id] > 0)
    ensures id !in l.pending && id in l.issued && l.invoked[id] <= 1
    ensures id in l.Held(o) ==> l.invoked[id] == 0 && forall p: Owner | p != o :: id !in l.Held(p)
  {
    assert Tally(l, id) == One(id in l.issued);
  }

  // ---------------------------------------------------------------- what an operation does to one call

  lemma TakeOneMoves(l: Ledger, o: Owner, x: Id, id: Id)
    ensures var r := TakeOne(l, o, x);
      && (id in r.pending <==> id in l.pending && id != x)
      && (id in r.Held(o) <==> id in l.Held(o) || (id == x && id in l.pending))
      && r.delivered == l.delivered
  {
  }

  lemma TakeAllMoves(l: Ledger, o: Owner, id: Id)
    ensures var r := TakeAll(l, o);
      && id !in r.pending
      && (id in r.Held(o) <==> id in l.Held(o) || id in l.pending)
      && r.delivered == l.delivered
  {
  }

  lemma InvokeMoves(l: Ledger, o: Owner, x: Id, resp: RpcResponse, id: Id)
    ensures var r := Invoke(l, o, x, resp);
      && r.pending == l.pending
      && (id in r.Held(o) <==> id in l.Held(o) && id != x)
      && (id in r.delivered <==> id in l.delivered || (id == x && id in l.Held(o)))
      && (id in r.delivered ==> r.delivered[id] == if id == x && id in l.Held(o) then resp else l.delivered[id])
  {
  }
}
