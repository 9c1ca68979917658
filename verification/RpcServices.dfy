/**
 * The method table of the server (code/rpc/rpc_service.cc): registration, lookup by a joined
 * key, and the invocation of a handler, which may return or throw.
 */
module RpcServices {
  import opened Basics
  import opened Envelope
  import opened ErrorCodes

  type Key = Bytes

  const DOT: byte := 46

  function MakeMethodKey(service: Bytes, name: Bytes): Key { service + [DOT] + name }

  /**
   * How a handler ends. It fills the response in place, so an exception leaves what it had written
   * so far; only `std::exception` is caught by Invoke.
   */
  datatype Outcome = Returned(response: RpcResponse) | Threw(response: RpcResponse, what: Bytes) | ThrewOther

  /** Runs a registered handler on a request and the response it may fill. */
  type Runner<!H> = (H, RpcRequest, RpcResponse) -> Outcome

  /** The response Invoke leaves and what it returns; `None` if an exception leaves it. */
  function Invoked<H>(methods: map<Key, H>, run: Runner<H>, request: RpcRequest,
                      response: RpcResponse): Option<(RpcResponse, bool)> {
    var key := MakeMethodKey(request.serviceName, request.methodName);
    if key !in methods then
      Some((RpcResponse(request.requestId, SERVER_SERVICE_NOT_FOUND, Ascii("Service not found: ") + key, response.body), false))
    else match run(methods[key], request, response)
      case Returned(r) => Some((r.(requestId := request.requestId), true))
      case Threw(r, what) => Some((RpcResponse(request.requestId, SERVER_INTERNAL_ERROR, what, r.body), false))
      case ThrewOther => None
  }

  /**
   * Whatever the table and the handler do: a reply carries the id of its own request, success is
   * reported exactly when a handler was registered and returned, and there is no reply exactly
   * when a registered handler threw something else than a `std::exception`.
   */
  lemma RepliesToItsRequest<H>(methods: map<Key, H>, run: Runner<H>, request: RpcRequest, response: RpcResponse)
    ensures var key, r := MakeMethodKey(request.serviceName, request.methodName), Invoked(methods, run, request, response);
      && (r.Some? ==> r.value.0.requestId == request.requestId)
      && (r.Some? && r.value.1 <==> key in methods && run(methods[key], request, response).Returned?)
      && (r.None? <==> key in methods && run(methods[key], request, response) == ThrewOther)
      && (r.Some? && !r.value.1 ==> r.value.0.code == SERVER_SERVICE_NOT_FOUND || r.value.0.code == SERVER_INTERNAL_ERROR)
  {
  }

  // ---------------------------------------------------------------- the joined key

  /** Only this service and method have this key. */
  ghost predicate KeyIdentifies(service: Bytes, name: Bytes) {
    forall s: Bytes, m: Bytes | MakeMethodKey(s, m) == MakeMethodKey(service, name) :: s == service && m == name
  }

  /** Two different methods can share a key: the second registration takes the first one's calls. */
  lemma KeysCollide()
    ensures MakeMethodKey(Ascii("a.b"), Ascii("c")) == MakeMethodKey(Ascii("a"), Ascii("b.c"))
    ensures Ascii("a.b") != Ascii("a")
  {
    assert |Ascii("a.b")| == 3 && |Ascii("a")| == 1;
  }

  /** A key identifies its method exactly when neither name contains a dot. */
  lemma KeyIdentifiesIff(service: Bytes, name: Bytes)
    ensures KeyIdentifies(service, name) <==> DOT !in service && DOT !in name
  {
    if DOT !in service && DOT !in name {
      forall s: Bytes, m: Bytes | MakeMethodKey(s, m) == MakeMethodKey(service, name)
        ensures s == service && m == name
      {
        NoDotSplits(s, m, service, name);
      }
    } else if DOT in service {
      var i :| 0 <= i < |service| && service[i] == DOT;
      var s, m := service[..i], service[i + 1..] + [DOT] + name;
      assert service == s + [DOT] + service[i + 1..];
      assert MakeMethodKey(s, m) == MakeMethodKey(service, name);
      assert |s| < |service|;
    } else {
      var i :| 0 <= i < |name| && name[i] == DOT;
      var s, m := service + [DOT] + name[..i], name[i + 1..];
      assert name == name[..i] + [DOT] + m;
      assert MakeMethodKey(s, m) == MakeMethodKey(service, name);
      assert |s| > |service|;
    }
  }

  lemma NoDotSplits(s: Bytes, m: Bytes, service: Bytes, name: Bytes)
    requires DOT !in service && DOT !in name && MakeMethodKey(s, m) == MakeMethodKey(service, name)
    ensures s == service && m == name
  {
    var key := MakeMethodKey(service, name);
    assert MakeMethodKey(s, m)[|s|] == DOT && key[|service|] == DOT;
    assert |s| == |service|;
    assert s == key[..|s|] == service && m == key[|s| + 1..] == name;
  }

  // ---------------------------------------------------------------- the object

  class RpcService<H(==)> {
    var methods: map<Key, H>

    constructor ()
      ensures methods == map[]
    {
      methods := map[];
    }

    method RegisterMethod(service: Bytes, name: Bytes, callback: H)
      modifies this
      ensures methods == old(methods)[MakeMethodKey(service, name) := callback]
    {
      var key := MakeMethodKey(service, name);
      methods := methods[key := callback];
    }

    method HasService(service: Bytes, name: Bytes) returns (found: bool)
      ensures found <==> MakeMethodKey(service, name) in methods
    {
      found := MakeMethodKey(service, name) in methods;
    }

    method Invoke(run: Runner<H>, request: RpcRequest, response: RpcResponse) returns (r: Option<(RpcResponse, bool)>)
      ensures r == Invoked(methods, run, request, response)
    {
      var key := MakeMethodKey(request.serviceName, request.methodName);
      var filled := response;
      if key !in methods {
        filled := filled.(code := SERVER_SERVICE_NOT_FOUND);
        filled := filled.(msg := Ascii("Service not found: ") + key);
        filled := filled.(requestId := request.requestId);
        return Some((filled, false));
      }
      var target := methods[key];
      match run(target, request, filled) {
        case Returned(done) =>
          filled := done.(requestId := request.requestId);
          return Some((filled, true));
        case Threw(partial, what) =>
          filled := partial.(code := SERVER_INTERNAL_ERROR);
          filled := filled.(msg := what);
          filled := filled.(requestId := request.requestId);
          return Some((filled, false));
        case ThrewOther =>
          return None;
      }
    }
  }

  datatype Registration<H> = Registration(service: Bytes, name: Bytes, callback: H)

  /** The table after a sequence of registrations. */
  function Registered<H>(regs: seq<Registration<H>>): map<Key, H> {
    if regs == [] then map[] else
      var r := regs[|regs| - 1];
      Registered(regs[..|regs| - 1])[MakeMethodKey(r.service, r.name) := r.callback]
  }

  /** A later registration of the same key, under whatever names. */
  predicate Shadowed<H>(regs: seq<Registration<H>>, i: nat)
    requires i < |regs|
  {
    exists j :: i < j < |regs| && MakeMethodKey(regs[j].service, regs[j].name) == MakeMethodKey(regs[i].service, regs[i].name)
  }

  /** The last registration of a key is the one in force. */
  lemma {:induction false} LastRegistrationWins<H>(regs: seq<Registration<H>>, i: nat)
    requires i < |regs| && !Shadowed(regs, i)
    ensures var key := MakeMethodKey(regs[i].service, regs[i].name);
      key in Registered(regs) && Registered(regs)[key] == regs[i].callback
  {
    var n := |regs| - 1;
    if i < n {
      var front := regs[..n];
      forall j | i < j < |front|
        ensures MakeMethodKey(front[j].service, front[j].name) != MakeMethodKey(front[i].service, front[i].name)
      {
        assert MakeMethodKey(regs[j].service, regs[j].name) != MakeMethodKey(regs[i].service, regs[i].name);
      }
      LastRegistrationWins(front, i);
      assert MakeMethodKey(regs[n].service, regs[n].name) != MakeMethodKey(regs[i].service, regs[i].name);
    }
  }

  /**
   * With names free of dots, a call reaches the handler registered for exactly its service and method:
   * the latest one, no matter what else is registered.
   */
  lemma DispatchesByName<H>(regs: seq<Registration<H>>, i: nat, run: Runner<H>, request: RpcRequest,
                            response: RpcResponse)
    requires i < |regs| && regs[i].service == request.serviceName && regs[i].name == request.methodName
    requires DOT !in request.serviceName && DOT !in request.methodName
    requires forall j | i < j < |regs| :: !(regs[j].service == request.serviceName && regs[j].name == request.methodName)
    ensures var r := Invoked(Registered(regs), run, request, response);
      match run(regs[i].callback, request, response)
      case Returned(done) => r == Some((done.(requestId := request.requestId), true))
      case Threw(partial, what) => r.Some? && !r.value.1 && r.value.0.code == SERVER_INTERNAL_ERROR && r.value.0.msg == what
      case ThrewOther => r == None
  {
    KeyIdentifiesIff(request.serviceName, request.methodName);
    LastRegistrationWins(regs, i);
  }
}
