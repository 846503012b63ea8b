/** The request handlers of go-app/api.go and its readiness probe.

    The cluster gateway (go-app/modules/k8sclient) is not part of this model: every call
    into it is an input. `init` is what InitClient gave, `list` what GetNamespaces gave,
    and `getPods` / `create` give what GetPods / CreateNamespace answer for a namespace
    name. Each handler returns the response it writes and the trace of the gateway calls
    it made, in order. */
module Api {
  import opened Types
  import opened GoStrings

  const GenericMessage := "Something went wrong on our side"
  const ValidationMessage := "Namespace name must comply with RFC 1123"

  /** The opaque answer to any internal failure: collaborator error text never reaches the client. */
  const InternalError := Response(StatusInternalServerError, MessageBody(GenericMessage))

  /** The answer to a POST body that does not bind or does not validate. */
  const ValidationFailed := Response(StatusBadRequest, ErrorBody(ValidationMessage))

  function NotFoundMessage(name: string): string {
    "Namespace '" + name + "' not found"
  }

  function NoPodsMessage(name: string): string {
    "Namespace '" + name + "' has no Pods"
  }

  function AlreadyExistsMessage(name: string): string {
    "Namespace '" + name + "' already exists"
  }

  // ---------------------------------------------------------------------------
  // Pods listed from the gateway's map (name -> phase)

  /** The pods a map describes, one per key, each counted once. */
  ghost function PodBag(m: map<string, string>): multiset<Pod> {
    multiset(set k | k in m :: Pod(k, m[k]))
  }

  /** `pods` lists the map `m` in some order: one entry per key, named after the key and
      carrying its value as status. Go leaves the order of a map range unspecified, so
      only the multiset of entries is fixed. */
  ghost predicate ListsPods(pods: seq<Pod>, m: map<string, string>) {
    |pods| == |m| && multiset(pods) == PodBag(m)
  }

  /** The `for name, phase := range pods` loop that appends one Pod per map entry. */
  method PodsOf(m: map<string, string>) returns (pods: seq<Pod>)
    ensures ListsPods(pods, m)
  {
    pods := [];
    var rest := m.Keys;
    while rest != {}
      invariant rest <= m.Keys
      invariant |pods| + |rest| == |m|
      invariant multiset(pods) == multiset(set k | k in m && k !in rest :: Pod(k, m[k]))
      decreases |rest|
    {
      var k :| k in rest;
      ghost var done := set k' | k' in m && k' !in rest :: Pod(k', m[k']);
      pods := pods + [Pod(k, m[k])];
      rest := rest - {k};
      assert Pod(k, m[k]) !in done;
      assert (set k' | k' in m && k' !in rest :: Pod(k', m[k'])) == done + {Pod(k, m[k])};
    }
    assert (set k | k in m && k !in rest :: Pod(k, m[k])) == (set k | k in m :: Pod(k, m[k]));
  }

  /** Every listed pod is an entry of the map, and every entry of the map is listed. */
  lemma ListedPodsMatchMap(pods: seq<Pod>, m: map<string, string>)
    requires ListsPods(pods, m)
    ensures forall i :: 0 <= i < |pods| ==> pods[i].name in m && pods[i].status == m[pods[i].name]
    ensures forall k :: k in m ==> Pod(k, m[k]) in pods
  {
    forall i | 0 <= i < |pods|
      ensures pods[i].name in m && pods[i].status == m[pods[i].name]
    {
      assert pods[i] in multiset(pods);
    }
    forall k | k in m
      ensures Pod(k, m[k]) in pods
    {
      assert Pod(k, m[k]) in (set k' | k' in m :: Pod(k', m[k']));
      assert Pod(k, m[k]) in multiset(pods);
    }
  }

  /** An element found at two positions is counted at least twice. */
  lemma CountedTwice(s: seq<Pod>, i: nat, j: nat)
    requires i < j < |s|
    ensures s[i] == s[j] ==> multiset(s)[s[i]] >= 2
  {
    assert s == s[..j] + [s[j]] + s[j + 1..];
    assert s[i] in multiset(s[..j]);
  }

  /** No pod name is listed twice. */
  lemma ListedPodNamesDistinct(pods: seq<Pod>, m: map<string, string>)
    requires ListsPods(pods, m)
    ensures forall i, j :: 0 <= i < j < |pods| ==> pods[i].name != pods[j].name
  {
    ListedPodsMatchMap(pods, m);
    forall i, j | 0 <= i < j < |pods|
      ensures pods[i].name != pods[j].name
    {
      CountedTwice(pods, i, j);
      assert PodBag(m)[pods[i]] <= 1;
    }
  }

  /** A map with one pod is listed as exactly that pod. */
  lemma ListsSinglePod(pods: seq<Pod>, name: string, status: string)
    requires ListsPods(pods, map[name := status])
    ensures pods == [Pod(name, status)]
  {
    ListedPodsMatchMap(pods, map[name := status]);
  }

  // ---------------------------------------------------------------------------
  // GET /namespaces

  /** The position of the first namespace whose pod listing fails, or |names| when none does. */
  function FirstFailed(names: seq<string>, getPods: string -> Outcome<map<string, string>>): (k: nat)
    ensures k <= |names|
    ensures forall i :: 0 <= i < k ==> getPods(names[i]).Ok?
    ensures k < |names| ==> getPods(names[k]).Err?
  {
    if names == [] then 0
    else if getPods(names[0]).Err? then 0
    else 1 + FirstFailed(names[1..], getPods)
  }

  /** `namespaces` answers the first |namespaces| names: entry i is named `names[i]` and lists
      the pods the gateway reported for it. */
  ghost predicate ListsNamespaces(namespaces: seq<Namespace>, names: seq<string>,
                                  getPods: string -> Outcome<map<string, string>>)
  {
    |namespaces| <= |names| &&
    forall i :: 0 <= i < |namespaces| ==>
      namespaces[i].name == names[i] && getPods(names[i]).Ok? &&
      ListsPods(namespaces[i].pods, getPods(names[i]).value)
  }

  /** Answering the next name with its pods keeps the list an answer. */
  lemma ListsNamespacesExtend(namespaces: seq<Namespace>, names: seq<string>,
                              getPods: string -> Outcome<map<string, string>>, pods: seq<Pod>)
    requires ListsNamespaces(namespaces, names, getPods)
    requires |namespaces| < |names| && getPods(names[|namespaces|]).Ok?
    requires ListsPods(pods, getPods(names[|namespaces|]).value)
    ensures ListsNamespaces(namespaces + [Namespace(names[|namespaces|], pods)], names, getPods)
  {
  }

  /** `calls` is the trace of a listing that got past InitClient and GetNamespaces and then
      asked for the pods of exactly `names`, in that order. */
  ghost predicate ListingTrace(calls: seq<Call>, names: seq<string>) {
    |calls| == |names| + 2 && calls[0] == InitClient && calls[1] == ListNamespaces &&
    forall j :: 0 <= j < |names| ==> calls[j + 2] == ListPods(names[j])
  }

  /** Asking for one more namespace's pods extends the trace by that query. */
  lemma ListingTraceExtend(calls: seq<Call>, names: seq<string>, i: nat)
    requires i < |names| && ListingTrace(calls, names[..i])
    ensures ListingTrace(calls + [ListPods(names[i])], names[..i + 1])
  {
  }

  /** getNamespaces: every namespace with its pods, or the generic 500 as soon as any
      gateway call fails. Listing stops at the first namespace whose pods cannot be read:
      the namespaces after it are never queried and no partial list is returned. */
  method GetNamespaces(init: Outcome<()>, list: Outcome<seq<string>>,
                       getPods: string -> Outcome<map<string, string>>)
    returns (resp: Response, calls: seq<Call>)
    ensures resp == InternalError || resp.status == StatusOK
    ensures init.Err? ==> resp == InternalError && calls == [InitClient]
    ensures init.Ok? && list.Err? ==> resp == InternalError && calls == [InitClient, ListNamespaces]
    ensures init.Ok? && list.Ok? && FirstFailed(list.value, getPods) < |list.value| ==>
              resp == InternalError &&
              ListingTrace(calls, list.value[..FirstFailed(list.value, getPods) + 1])
    ensures init.Ok? && list.Ok? && FirstFailed(list.value, getPods) == |list.value| ==>
              ListingTrace(calls, list.value) &&
              resp.status == StatusOK && resp.body.NamespaceListBody? &&
              |resp.body.namespaces| == |list.value| &&
              ListsNamespaces(resp.body.namespaces, list.value, getPods)
  {
    calls := [InitClient];
    if init.Err? {
      resp := InternalError;
      return;
    }
    calls := calls + [ListNamespaces];
    if list.Err? {
      resp := InternalError;
      return;
    }
    var rawNamespaces := list.value;
    var namespaces: seq<Namespace> := [];
    var failed := false;
    var i := 0;
    ghost var queried := 0;
    while i < |rawNamespaces|
      invariant i <= FirstFailed(rawNamespaces, getPods)
      invariant |namespaces| == i
      invariant queried <= |rawNamespaces| && queried == if failed then i + 1 else i
      invariant failed ==> i == FirstFailed(rawNamespaces, getPods)
      invariant ListingTrace(calls, rawNamespaces[..queried])
      invariant ListsNamespaces(namespaces, rawNamespaces, getPods)
    {
      var ns := rawNamespaces[i];
      ListingTraceExtend(calls, rawNamespaces, i);
      calls := calls + [ListPods(ns)];
      queried := queried + 1;
      var reply := getPods(ns);
      if reply.Err? {
        failed := true;
        break;
      }
      var pods := PodsOf(reply.value);
      ListsNamespacesExtend(namespaces, rawNamespaces, getPods, pods);
      namespaces := namespaces + [Namespace(ns, pods)];
      i := i + 1;
    }
    if failed {
      resp := InternalError;
      return;
    }
    assert rawNamespaces[..i] == rawNamespaces;
    resp := Response(StatusOK, NamespaceListBody(namespaces));
  }

  /** A cluster with namespaces "default" (one pod, nginx, Running) and "kube-system"
      (no pods) is listed as those two namespaces, in that order, after four gateway calls. */
  method ListTwoNamespaces() returns (resp: Response, calls: seq<Call>)
    ensures resp == Response(StatusOK, NamespaceListBody([
                      Namespace("default", [Pod("nginx", "Running")]),
                      Namespace("kube-system", [])]))
    ensures calls == [InitClient, ListNamespaces, ListPods("default"), ListPods("kube-system")]
  {
    var cluster := (ns: string) =>
      if ns == "default" then Ok(map["nginx" := "Running"])
      else if ns == "kube-system" then Ok(map[])
      else Err("namespaces \"" + ns + "\" not found");
    var names := ["default", "kube-system"];
    assert FirstFailed(names[2..], cluster) == 0;
    assert FirstFailed(names[1..], cluster) == 1;
    resp, calls := GetNamespaces(Ok(()), Ok(names), cluster);
    ListsSinglePod(resp.body.namespaces[0].pods, "nginx", "Running");
    assert names[..2] == names;
    assert calls[2] == ListPods(names[0]) && calls[3] == ListPods(names[1]);
  }

  // ---------------------------------------------------------------------------
  // GET /namespaces/:name

  /** getNamespaceByName: 404 exactly when the pod listing fails with an error whose text
      contains "not found"; any other failure is the generic 500; a namespace without pods
      is a 200 notice, never a 404; otherwise the namespace, named after the path
      parameter, with its pods. */
  method GetNamespaceByName(name: string, init: Outcome<()>,
                            getPods: string -> Outcome<map<string, string>>)
    returns (resp: Response, calls: seq<Call>)
    ensures init.Err? ==> resp == InternalError && calls == [InitClient]
    ensures init.Ok? ==> calls == [InitClient, ListPods(name)]
    ensures init.Ok? && getPods(name).Err? ==>
              resp == if Contains(getPods(name).message, "not found")
                      then Response(StatusNotFound, MessageBody(NotFoundMessage(name)))
                      else InternalError
    ensures init.Ok? && getPods(name).Ok? && |getPods(name).value| > 0 ==>
              resp.status == StatusOK && resp.body.NamespaceBody? &&
              resp.body.namespace.name == name &&
              ListsPods(resp.body.namespace.pods, getPods(name).value)
    ensures init.Ok? && getPods(name).Ok? && |getPods(name).value| == 0 ==>
              resp == Response(StatusOK, MessageBody(NoPodsMessage(name)))
    ensures resp.status == StatusNotFound <==>
              init.Ok? && getPods(name).Err? && Contains(getPods(name).message, "not found")
  {
    calls := [InitClient];
    if init.Err? {
      resp := InternalError;
      return;
    }
    calls := calls + [ListPods(name)];
    var podsInNamespace := getPods(name);
    if podsInNamespace.Err? {
      if Contains(podsInNamespace.message, "not found") {
        resp := Response(StatusNotFound, MessageBody(NotFoundMessage(name)));
      } else {
        resp := InternalError;
      }
      return;
    }
    if |podsInNamespace.value| > 0 {
      var pods := PodsOf(podsInNamespace.value);
      resp := Response(StatusOK, NamespaceBody(Namespace(name, pods)));
    } else {
      resp := Response(StatusOK, MessageBody(NoPodsMessage(name)));
    }
  }

  // ---------------------------------------------------------------------------
  // POST /namespaces

  /** postNamespace. `bind` is what binding the JSON body to a Namespace and validating its
      name gave. A request that fails there is answered 400 before any gateway call, so
      CreateNamespace is never reached; a create error containing "already exists" is a
      400 naming the namespace, any other is the generic 500; success is 201 echoing the
      bound request. */
  method PostNamespace(bind: Outcome<Namespace>, init: Outcome<()>,
                       create: string -> Outcome<()>)
    returns (resp: Response, calls: seq<Call>)
    ensures bind.Err? ==> resp == ValidationFailed && calls == []
    ensures resp == ValidationFailed ==> calls == []
    ensures bind.Ok? && init.Err? ==> resp == InternalError && calls == [InitClient]
    ensures bind.Ok? && init.Ok? ==> calls == [InitClient, CreateNamespace(bind.value.name)]
    ensures bind.Ok? && init.Ok? && create(bind.value.name).Err? ==>
              resp == if Contains(create(bind.value.name).message, "already exists")
                      then Response(StatusBadRequest, MessageBody(AlreadyExistsMessage(bind.value.name)))
                      else InternalError
    ensures bind.Ok? && init.Ok? && create(bind.value.name).Ok? ==>
              resp == Response(StatusCreated, NamespaceBody(bind.value))
  {
    calls := [];
    if bind.Err? {
      resp := ValidationFailed;
      return;
    }
    var newNamespace := bind.value;
    var name := newNamespace.name;
    calls := calls + [InitClient];
    if init.Err? {
      resp := InternalError;
      return;
    }
    calls := calls + [CreateNamespace(name)];
    var err := create(name);
    if err.Err? {
      if Contains(err.message, "already exists") {
        resp := Response(StatusBadRequest, MessageBody(AlreadyExistsMessage(name)));
      } else {
        resp := InternalError;
      }
      return;
    }
    resp := Response(StatusCreated, NamespaceBody(newNamespace));
  }

  // ---------------------------------------------------------------------------
  // /healthz and /readyz

  /** The readiness flag of setupRouter: false when created, stored true once the warm-up
      has elapsed. MarkReady is the only method that writes it and it only stores true, so
      once true the flag stays true. */
  class Readiness {
    var ready: bool

    constructor ()
      ensures !ready
    {
      ready := false;
    }

    /** The one write after creation: the flag becomes true. */
    method MarkReady()
      modifies this
      ensures ready
    {
      ready := true;
    }

    /** /readyz: 503 while the flag is false, 200 once it is true. */
    method Readyz() returns (status: int)
      ensures status == StatusOK <==> ready
      ensures status == StatusServiceUnavailable <==> !ready
    {
      if !ready {
        status := StatusServiceUnavailable;
      } else {
        status := StatusOK;
      }
    }

    /** /healthz: 200 whatever the flag says. */
    method Healthz() returns (status: int)
      ensures status == StatusOK
    {
      status := StatusOK;
    }
  }
}
