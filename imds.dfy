/**
 * The instance metadata service a NoCloud guest reads at boot: three routes per
 * machine, keyed by machine ID, answering with the machine's provisioning
 * document, its identity, and an empty vendor document. HTTP serving is outside
 * the model: a server is the table of registered routes, and answering a request
 * is a function from a route's handler to a response. YAML marshalling is a
 * parameter that may fail.
 */
module Imds {
  import opened Wrappers
  import opened Text
  import opened Config
  import opened Machines

  const USER_DATA: string := "user-data"
  const META_DATA: string := "meta-data"
  const VENDOR_DATA: string := "vendor-data"
  const CLOUD_CONFIG_MARKER: string := "#cloud-config\n"
  const YAML_CONTENT_TYPE: string := "text/yaml"
  const STATUS_OK: nat := 200
  const STATUS_INTERNAL_ERROR: nat := 500

  /** The path of one document of the machine with the given ID. */
  function Route(id: string, kind: string): string {
    "/" + id + "/" + kind
  }

  /** A route names its machine and its document: IDs without a slash cannot collide. */
  lemma RouteInjective(id1: string, kind1: string, id2: string, kind2: string)
    requires '/' !in id1 && '/' !in id2
    requires Route(id1, kind1) == Route(id2, kind2)
    ensures id1 == id2 && kind1 == kind2
  {
    var s := Route(id1, kind1);
    var tail := s[1..];
    assert tail == id1 + ['/'] + kind1;
    assert tail == id2 + ['/'] + kind2;
    IndexOfAfter(id1, '/', kind1);
    IndexOfAfter(id2, '/', kind2);
    assert id1 == tail[..|id1|] && id2 == tail[..|id2|];
    assert kind1 == tail[|id1| + 1..] && kind2 == tail[|id2| + 1..];
  }

  lemma RoutesDiffer(id1: string, kind1: string, id2: string, kind2: string)
    requires '/' !in id1 && '/' !in id2
    requires id1 != id2 || kind1 != kind2
    ensures Route(id1, kind1) != Route(id2, kind2)
  {
    if Route(id1, kind1) == Route(id2, kind2) {
      RouteInjective(id1, kind1, id2, kind2);
    }
  }

  /** What a route answers with; handlers capture the machine's name and document. */
  datatype Handler =
    | UserData(name: string, cloudConfig: Option<Document>)
    | MetaData(name: string)
    | VendorData

  /** The three route registrations of one machine, in registration order. */
  function MachineRoutes(m: Machine): seq<(string, Handler)> {
    [ (Route(m.id, USER_DATA), UserData(m.name, m.conf.cloudConfig)),
      (Route(m.id, META_DATA), MetaData(m.name)),
      (Route(m.id, VENDOR_DATA), VendorData) ]
  }

  /** The registrations of all machines, in order. */
  function AllRoutes(machines: seq<Machine>): (regs: seq<(string, Handler)>)
    ensures |regs| == 3 * |machines|
  {
    if machines == [] then [] else MachineRoutes(machines[0]) + AllRoutes(machines[1..])
  }

  /** Registration 3i+t is registration t of machine i. */
  lemma {:induction false} AllRoutesAt(machines: seq<Machine>, i: nat, t: nat)
    requires i < |machines| && t < 3
    ensures AllRoutes(machines)[3 * i + t] == MachineRoutes(machines[i])[t]
  {
    if i > 0 {
      AllRoutesAt(machines[1..], i - 1, t);
    }
  }

  /** Under per-iteration loop variables, machine i's meta-data route answers with machine i's own name. */
  lemma MetaDataOfOwnMachine(machines: seq<Machine>, i: nat)
    requires i < |machines|
    ensures AllRoutes(machines)[3 * i + 1] == (Route(machines[i].id, META_DATA), MetaData(machines[i].name))
  {
    AllRoutesAt(machines, i, 1);
  }

  // ---------------------------------------------------------------------------
  // The registration loop under a shared loop variable

  /**
   * The registrations when the range variable is one variable shared by all
   * iterations, as in Go releases before 1.22: the handler closures read the
   * machine the loop ended on, last. Only the provisioning document is copied
   * per iteration and stays the machine's own.
   */
  function SharedLoopRoutes(machines: seq<Machine>, last: Machine): (regs: seq<(string, Handler)>)
    ensures |regs| == 3 * |machines|
  {
    if machines == [] then []
    else
      var m := machines[0];
      [ (Route(m.id, USER_DATA), UserData(last.name, m.conf.cloudConfig)),
        (Route(m.id, META_DATA), MetaData(last.name)),
        (Route(m.id, VENDOR_DATA), VendorData) ]
      + SharedLoopRoutes(machines[1..], last)
  }

  /** Distinct names give distinct meta-data bodies. */
  lemma MetaDataBodyInjective(a: string, b: string)
    requires MetaDataBody(a) == MetaDataBody(b)
    ensures a == b
  {
    var head := "instance-id: fog/";
    var s := MetaDataBody(a);
    assert |s| == 2 * |a| + 36 == 2 * |b| + 36;
    assert s[|head|..|head| + |a|] == a;
    assert MetaDataBody(b)[|head|..|head| + |b|] == b;
  }

  /**
   * With a shared loop variable and two differently named machines, the first
   * machine's meta-data route answers with the last machine's name instead of
   * its own.
   */
  lemma SharedLoopVarMixesNames(machines: seq<Machine>)
    requires |machines| >= 2 && machines[0].name != machines[|machines| - 1].name
    ensures var last := machines[|machines| - 1];
      var shared := SharedLoopRoutes(machines, last);
      && shared[1] == (Route(machines[0].id, META_DATA), MetaData(last.name))
      && AllRoutes(machines)[1] == (Route(machines[0].id, META_DATA), MetaData(machines[0].name))
      && MetaDataBody(last.name) != MetaDataBody(machines[0].name)
  {
    var last := machines[|machines| - 1];
    MetaDataOfOwnMachine(machines, 0);
    if MetaDataBody(last.name) == MetaDataBody(machines[0].name) {
      MetaDataBodyInjective(last.name, machines[0].name);
    }
  }

  /**
   * Registering a pattern twice is refused: the source's ServeMux panics. The
   * failure carries the conflicting pattern; the wording of the panic, which
   * differs between Go releases, is not modelled.
   */
  function Handle(routes: map<string, Handler>, pattern: string, h: Handler): (r: Result<map<string, Handler>, string>)
    ensures pattern in routes <==> r.Failure?
    ensures r.Failure? ==> r.error == pattern
    ensures r.Success? ==> r.value == routes[pattern := h]
  {
    if pattern in routes then Failure(pattern)
    else Success(routes[pattern := h])
  }

  /** The registrations of regs made one after the other, stopping at the first refused one. */
  function HandleAll(routes: map<string, Handler>, regs: seq<(string, Handler)>): Result<map<string, Handler>, string>
    decreases |regs|
  {
    if regs == [] then Success(routes)
    else
      var step := Handle(routes, regs[0].0, regs[0].1);
      if step.Failure? then Failure(step.error) else HandleAll(step.value, regs[1..])
  }

  lemma HandleAllStep(routes: map<string, Handler>, reg: (string, Handler), rest: seq<(string, Handler)>)
    ensures var step := Handle(routes, reg.0, reg.1);
      HandleAll(routes, [reg] + rest) == if step.Failure? then Failure(step.error) else HandleAll(step.value, rest)
  {
    assert ([reg] + rest)[1..] == rest;
  }

  /** No pattern of regs is registered already, and no pattern repeats. */
  ghost predicate FreshPatterns(routes: map<string, Handler>, regs: seq<(string, Handler)>) {
    && (forall i :: 0 <= i < |regs| ==> regs[i].0 !in routes)
    && (forall i, j :: 0 <= i < j < |regs| ==> regs[i].0 != regs[j].0)
  }

  /** Registration succeeds exactly when every pattern is new. */
  lemma {:induction false} HandleAllSucceeds(routes: map<string, Handler>, regs: seq<(string, Handler)>)
    ensures HandleAll(routes, regs).Success? <==> FreshPatterns(routes, regs)
    decreases |regs|
  {
    if regs != [] {
      var p := regs[0].0;
      var rest := regs[1..];
      if p in routes {
        assert !FreshPatterns(routes, regs);
      } else {
        var next := routes[p := regs[0].1];
        HandleAllSucceeds(next, rest);
        if FreshPatterns(routes, regs) {
          forall i | 0 <= i < |rest|
            ensures rest[i].0 !in next
          {
            assert rest[i] == regs[i + 1];
          }
        }
        if FreshPatterns(next, rest) {
          forall i, j | 0 <= i < j < |regs|
            ensures regs[i].0 != regs[j].0
          {
            if i > 0 {
              assert regs[i] == rest[i - 1] && regs[j] == rest[j - 1];
            } else {
              assert regs[j] == rest[j - 1];
            }
          }
        }
      }
    }
  }

  /** A registration that went through maps its pattern to its handler. */
  lemma {:induction false} HandleAllMaps(routes: map<string, Handler>, regs: seq<(string, Handler)>, k: nat)
    requires HandleAll(routes, regs).Success? && k < |regs|
    ensures regs[k].0 in HandleAll(routes, regs).value
    ensures HandleAll(routes, regs).value[regs[k].0] == regs[k].1
    decreases |regs|
  {
    HandleAllSucceeds(routes, regs);
    var next := routes[regs[0].0 := regs[0].1];
    if k > 0 {
      HandleAllMaps(next, regs[1..], k - 1);
    } else {
      HandleAllKeeps(next, regs[1..], regs[0].0);
    }
  }

  /** Patterns already registered keep their handlers when no registration is refused. */
  lemma {:induction false} HandleAllKeeps(routes: map<string, Handler>, regs: seq<(string, Handler)>, p: string)
    requires HandleAll(routes, regs).Success? && p in routes
    ensures p in HandleAll(routes, regs).value && HandleAll(routes, regs).value[p] == routes[p]
    decreases |regs|
  {
    if regs != [] {
      HandleAllKeeps(routes[regs[0].0 := regs[0].1], regs[1..], p);
    }
  }

  /** A built table holds nothing but the old routes and the registered patterns. */
  lemma {:induction false} HandleAllOnly(routes: map<string, Handler>, regs: seq<(string, Handler)>, p: string)
    requires HandleAll(routes, regs).Success? && p in HandleAll(routes, regs).value
    ensures p in routes || exists k :: 0 <= k < |regs| && regs[k].0 == p
    decreases |regs|
  {
    if regs != [] && p !in routes && p != regs[0].0 {
      HandleAllOnly(routes[regs[0].0 := regs[0].1], regs[1..], p);
      var k :| 0 <= k < |regs[1..]| && regs[1..][k].0 == p;
      assert regs[k + 1].0 == p;
    }
  }

  datatype ImdsServer = ImdsServer(routes: map<string, Handler>)

  /**
   * NewImdsSever: registers the user-data, meta-data and vendor-data routes of
   * every machine, in order. A pattern registered twice is a failure.
   */
  method NewImdsServer(machines: seq<Machine>) returns (r: Result<ImdsServer, string>)
    ensures var table := HandleAll(map[], AllRoutes(machines));
      && (table.Failure? ==> r == Failure(table.error))
      && (table.Success? ==> r == Success(ImdsServer(table.value)))
  {
    var routes: map<string, Handler> := map[];
    for i := 0 to |machines|
      invariant HandleAll(map[], AllRoutes(machines)) == HandleAll(routes, AllRoutes(machines[i..]))
    {
      var m := machines[i];
      ghost var rest := AllRoutes(machines[i + 1..]);
      assert machines[i..][1..] == machines[i + 1..];
      var regs := MachineRoutes(m);
      assert AllRoutes(machines[i..]) == [regs[0]] + ([regs[1]] + ([regs[2]] + rest));

      HandleAllStep(routes, regs[0], [regs[1]] + ([regs[2]] + rest));
      var registered := Handle(routes, regs[0].0, regs[0].1);
      if registered.Failure? {
        return Failure(registered.error);
      }
      routes := registered.value;

      HandleAllStep(routes, regs[1], [regs[2]] + rest);
      registered := Handle(routes, regs[1].0, regs[1].1);
      if registered.Failure? {
        return Failure(registered.error);
      }
      routes := registered.value;

      HandleAllStep(routes, regs[2], rest);
      registered := Handle(routes, regs[2].0, regs[2].1);
      if registered.Failure? {
        return Failure(registered.error);
      }
      routes := registered.value;
    }
    r := Success(ImdsServer(routes));
  }

  /** Machines whose IDs are pairwise distinct. */
  ghost predicate DistinctIds(machines: seq<Machine>) {
    forall i, j :: 0 <= i < j < |machines| ==> machines[i].id != machines[j].id
  }

  lemma HexIdHasNoSlash(id: string)
    requires IsHexString(id)
    ensures '/' !in id
  {
  }

  /** The document kind of registration t of a machine. */
  function Kind(t: nat): string
    requires t < 3
  {
    [USER_DATA, META_DATA, VENDOR_DATA][t]
  }

  lemma MachineRouteAt(m: Machine, t: nat)
    requires t < 3
    ensures MachineRoutes(m)[t].0 == Route(m.id, Kind(t))
  {
  }

  /** With hex IDs, the patterns of all machines are pairwise distinct exactly when the machine IDs are. */
  lemma {:induction false} DistinctIdsGiveFreshPatterns(machines: seq<Machine>)
    requires forall i :: 0 <= i < |machines| ==> IsHexString(machines[i].id)
    ensures FreshPatterns(map[], AllRoutes(machines)) <==> DistinctIds(machines)
  {
    var regs := AllRoutes(machines);
    if DistinctIds(machines) {
      forall a, b | 0 <= a < b < |regs|
        ensures regs[a].0 != regs[b].0
      {
        var i, t, j, u := a / 3, a % 3, b / 3, b % 3;
        AllRoutesAt(machines, i, t);
        AllRoutesAt(machines, j, u);
        MachineRouteAt(machines[i], t);
        MachineRouteAt(machines[j], u);
        HexIdHasNoSlash(machines[i].id);
        HexIdHasNoSlash(machines[j].id);
        assert i < j || (i == j && t < u);
        assert machines[i].id != machines[j].id || Kind(t) != Kind(u);
        RoutesDiffer(machines[i].id, Kind(t), machines[j].id, Kind(u));
      }
    } else {
      var i, j :| 0 <= i < j < |machines| && machines[i].id == machines[j].id;
      AllRoutesAt(machines, i, 0);
      AllRoutesAt(machines, j, 0);
      assert regs[3 * i].0 == regs[3 * j].0;
    }
  }

  /**
   * Registering the machines' routes on a table, when nothing is refused, yields the
   * three routes of every machine, each with its handler. The server starts from
   * the empty table.
   */
  lemma ServerTableHasRoutes(routes: map<string, Handler>, machines: seq<Machine>, i: nat, t: nat)
    requires HandleAll(routes, AllRoutes(machines)).Success?
    requires i < |machines| && t < 3
    ensures Route(machines[i].id, Kind(t)) in HandleAll(routes, AllRoutes(machines)).value
    ensures HandleAll(routes, AllRoutes(machines)).value[Route(machines[i].id, Kind(t))]
            == MachineRoutes(machines[i])[t].1
  {
    HandleAllMaps(routes, AllRoutes(machines), 3 * i + t);
    AllRoutesAt(machines, i, t);
    MachineRouteAt(machines[i], t);
  }

  /** ... and adds no route but those. */
  lemma ServerTableOnlyRoutes(routes: map<string, Handler>, machines: seq<Machine>, p: string)
    requires HandleAll(routes, AllRoutes(machines)).Success?
    requires p in HandleAll(routes, AllRoutes(machines)).value
    ensures p in routes || exists i, t :: 0 <= i < |machines| && 0 <= t < 3 && p == Route(machines[i].id, Kind(t))
  {
    var regs := AllRoutes(machines);
    HandleAllOnly(routes, regs, p);
    if p !in routes {
      var a :| 0 <= a < |regs| && regs[a].0 == p;
      AllRoutesAt(machines, a / 3, a % 3);
      MachineRouteAt(machines[a / 3], a % 3);
    }
  }

  /** With generated (hex) IDs, the server is built exactly when the IDs are pairwise distinct. */
  lemma ServerBuiltIffDistinctIds(machines: seq<Machine>)
    requires forall i :: 0 <= i < |machines| ==> IsHexString(machines[i].id)
    ensures HandleAll(map[], AllRoutes(machines)).Success? <==> DistinctIds(machines)
  {
    HandleAllSucceeds(map[], AllRoutes(machines));
    DistinctIdsGiveFreshPatterns(machines);
  }

  // ---------------------------------------------------------------------------
  // Responses

  /** A response: status code, Content-Type if the handler set one, and body. */
  datatype Response = Response(status: nat, contentType: Option<string>, body: string)

  function MetaDataBody(name: string): string {
    "instance-id: fog/" + name + "\n" + "local-hostname: " + name + "\n\n"
  }

  /**
   * The answer of a handler. The provisioning document is marshalled on every
   * request, even when there is none; a marshalling error is a 500 carrying the
   * error text. Otherwise the body is the cloud-config marker, followed by the
   * YAML only when the machine has a document.
   */
  function Respond(h: Handler, marshal: Option<Document> -> Result<string, string>): (resp: Response)
    ensures resp.status == STATUS_INTERNAL_ERROR <==> h.UserData? && marshal(h.cloudConfig).Failure?
    ensures resp.status != STATUS_INTERNAL_ERROR ==> resp.status == STATUS_OK
    ensures resp.status == STATUS_INTERNAL_ERROR ==>
              resp.body == marshal(h.cloudConfig).error && resp.contentType == None
    ensures h.UserData? && resp.status == STATUS_OK ==>
              && resp.contentType == Some(YAML_CONTENT_TYPE)
              && HasPrefix(resp.body, CLOUD_CONFIG_MARKER)
              && TrimPrefix(resp.body, CLOUD_CONFIG_MARKER)
                 == (if h.cloudConfig.Some? then marshal(h.cloudConfig).value else "")
    ensures h.MetaData? ==> resp.body == MetaDataBody(h.name) && resp.contentType == None
    ensures h.VendorData? ==> resp.body == "" && resp.contentType == None
  {
    match h
    case UserData(_, c) =>
      (match marshal(c)
       case Failure(e) => Response(STATUS_INTERNAL_ERROR, None, e)
       case Success(d) =>
         var body := CLOUD_CONFIG_MARKER + (if c.Some? then d else "");
         assert body[..|CLOUD_CONFIG_MARKER|] == CLOUD_CONFIG_MARKER;
         Response(STATUS_OK, Some(YAML_CONTENT_TYPE), body))
    case MetaData(name) => Response(STATUS_OK, None, MetaDataBody(name))
    case VendorData => Response(STATUS_OK, None, "")
  }

  /** The meta-data body is two lines, instance ID then host name, and a blank line. */
  lemma MetaDataLines(name: string)
    requires '\n' !in name
    ensures Split(MetaDataBody(name), '\n') == ["instance-id: fog/" + name, "local-hostname: " + name, "", ""]
  {
    var parts := ["instance-id: fog/" + name, "local-hostname: " + name, "", ""];
    assert Join(parts[2..], "\n") == "\n";
    assert Join(parts[1..], "\n") == parts[1] + "\n" + "\n";
    assert Join(parts, "\n") == MetaDataBody(name);
    assert '\n' !in parts[0] && '\n' !in parts[1];
    SplitJoin(parts, '\n');
  }

  /** A request for a registered path gets its handler's response; None for any other path. */
  function Serve(server: ImdsServer, path: string, marshal: Option<Document> -> Result<string, string>): (resp: Option<Response>)
    ensures resp.Some? <==> path in server.routes
  {
    if path in server.routes then Some(Respond(server.routes[path], marshal)) else None
  }
}
