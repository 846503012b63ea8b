/** The request instrumentation of go-app/metrics.go: the path label under which a request
    is counted, and the two counters `http_requests_total` (method, path) and
    `response_status` (method, path, status). */
module Metrics {
  import opened Types
  import opened GoStrings
  import opened Strconv

  /** A route parameter as the router hands it over (gin.Param). */
  datatype Param = Param(key: string, value: string)

  const MetricsPath := "/metrics"
  const NameKey := "name"
  const NamePlaceholder := ":name"
  const NamespacesPrefix := "/namespaces/"

  // ---------------------------------------------------------------------------
  // The route parameter keyed "name"

  /** The position of the first parameter keyed "name", or |params| when there is none. */
  function FirstNameIndex(params: seq<Param>): (k: nat)
    ensures k <= |params|
    ensures forall j :: 0 <= j < k ==> params[j].key != NameKey
    ensures k < |params| ==> params[k].key == NameKey
  {
    if params == [] then |params|
    else if params[0].key == NameKey then 0
    else 1 + FirstNameIndex(params[1..])
  }

  /** The value of the first parameter keyed "name", if any. */
  function NameValue(params: seq<Param>): (r: Option<string>)
    ensures r.None? <==> forall j :: 0 <= j < |params| ==> params[j].key != NameKey
    ensures r.Some? ==> exists i :: 0 <= i < |params| && params[i] == Param(NameKey, r.value) &&
                                    forall j :: 0 <= j < i ==> params[j].key != NameKey
  {
    var k := FirstNameIndex(params);
    if k < |params| then Some(params[k].value) else None
  }

  /** The `for _, p := range c.Params` loop, which stops at the first parameter keyed "name". */
  method FindNameParam(params: seq<Param>) returns (found: Option<string>)
    ensures found == NameValue(params)
    ensures found.None? <==> forall j :: 0 <= j < |params| ==> params[j].key != NameKey
  {
    found := None;
    var i := 0;
    while i < |params|
      invariant 0 <= i <= |params|
      invariant forall j :: 0 <= j < i ==> params[j].key != NameKey
    {
      if params[i].key == NameKey {
        found := Some(params[i].value);
        break;
      }
      i := i + 1;
    }
  }

  // ---------------------------------------------------------------------------
  // Path labels

  /** The label the middleware computes as written: the leftmost occurrence of the "name"
      parameter's value anywhere in the path becomes ":name", and the rest of the path is
      kept. Without a "name" parameter, or when its value does not occur, the label is the
      raw path. */
  function WrittenLabel(path: string, params: seq<Param>): (r: string)
    ensures NameValue(params).None? ==> r == path
    ensures NameValue(params).Some? ==>
              forall i :: FirstOccursAt(path, NameValue(params).value, i) ==>
                r == path[..i] + NamePlaceholder + path[i + |NameValue(params).value|..]
    ensures NameValue(params).Some? && (forall j :: !OccursAt(path, NameValue(params).value, j)) ==>
              r == path
  {
    match NameValue(params)
    case None => path
    case Some(v) => ReplaceFirst(path, v, NamePlaceholder)
  }

  /** The label the middleware is meant to compute: the path segment the "name" parameter
      was taken from, which ends the path, becomes ":name". */
  function RouteLabel(path: string, params: seq<Param>): string {
    match NameValue(params)
    case None => path
    case Some(v) => ReplaceLast(path, v, NamePlaceholder)
  }

  /** Without a "name" parameter, or when its value does not occur in the path, both
      labels are the raw path. */
  lemma LabelIsRawPath(path: string, params: seq<Param>)
    requires NameValue(params).None? || forall j :: !OccursAt(path, NameValue(params).value, j)
    ensures WrittenLabel(path, params) == path
    ensures RouteLabel(path, params) == path
  {
  }

  /** Only the first "name" parameter matters: whatever follows it is ignored. */
  lemma {:induction false} FirstNameParamWins(before: seq<Param>, v: string, after: seq<Param>)
    requires forall j :: 0 <= j < |before| ==> before[j].key != NameKey
    ensures NameValue(before + [Param(NameKey, v)] + after) == Some(v)
  {
    var ps := before + [Param(NameKey, v)] + after;
    assert ps[|before|].key == NameKey;
    forall j | 0 <= j < |before|
      ensures ps[j].key != NameKey
    {
      assert ps[j] == before[j];
    }
  }

  /** A name whose first occurrence in /namespaces/<v> starts at an offset `i` inside the
      prefix has that occurrence rewritten: the label carries ':' at `i`, where
      "/namespaces/:name" does not. */
  lemma WrittenLabelPrefixHit(v: string, params: seq<Param>, i: nat)
    requires NameValue(params) == Some(v)
    requires i < |NamespacesPrefix| && FirstOccursAt(NamespacesPrefix + v, v, i)
    ensures WrittenLabel(NamespacesPrefix + v, params) ==
            (NamespacesPrefix + v)[..i] + NamePlaceholder + (NamespacesPrefix + v)[i + |v|..]
    ensures WrittenLabel(NamespacesPrefix + v, params) != NamespacesPrefix + NamePlaceholder
  {
    var written := WrittenLabel(NamespacesPrefix + v, params);
    assert written[i] == ':';
    PrefixHasNoColon();
    assert (NamespacesPrefix + NamePlaceholder)[i] == NamespacesPrefix[i] != ':';
  }

  /** The route prefix holds no ':', the first character of the placeholder. */
  lemma PrefixHasNoColon()
    ensures ':' !in NamespacesPrefix
  {
  }

  /** As written, a request to /namespaces/<v> is labelled "/namespaces/:name" exactly when
      <v> does not already occur in /namespaces/<v> at an offset inside the prefix. */
  lemma WrittenLabelNamespace(v: string, params: seq<Param>)
    requires NameValue(params) == Some(v)
    ensures WrittenLabel(NamespacesPrefix + v, params) == NamespacesPrefix + NamePlaceholder <==>
            forall j :: 0 <= j < |NamespacesPrefix| ==> !OccursAt(NamespacesPrefix + v, v, j)
  {
    var path := NamespacesPrefix + v;
    var n := |NamespacesPrefix|;
    assert OccursAt(path, v, n) by {
      assert |path| == n + |v|;
      assert forall k :: 0 <= k < |v| ==> path[n + k] == v[k];
      assert path[n..n + |v|] == v;
    }
    var i := Index(path, v).value;
    if i == n {
      assert path[..n] + NamePlaceholder + path[n + |v|..] == NamespacesPrefix + NamePlaceholder by {
        assert path[..n] == NamespacesPrefix;
        assert path[n + |v|..] == [];
      }
    } else {
      WrittenLabelPrefixHit(v, params, i);
    }
  }

  /** A name whose first character does not occur in "/namespaces/" cannot start inside the
      prefix. */
  lemma NameOutsidePrefix(v: string)
    requires |v| > 0 && v[0] !in NamespacesPrefix
    ensures forall j :: 0 <= j < |NamespacesPrefix| ==> !OccursAt(NamespacesPrefix + v, v, j)
  {
    var path := NamespacesPrefix + v;
    forall j | 0 <= j < |NamespacesPrefix|
      ensures !OccursAt(path, v, j)
    {
      assert path[j] == NamespacesPrefix[j] != v[0];
    }
  }

  /** The namespace named "names" occurs inside "/namespaces/" itself, so the written
      label rewrites the route's own prefix: the request is labelled "/:namepaces/names"
      (spelled below from the slices of the prefix it is made of), not "/namespaces/:name". */
  lemma WrittenLabelCounterexample()
    ensures WrittenLabel(NamespacesPrefix + "names", [Param(NameKey, "names")]) ==
            NamespacesPrefix[..1] + NamePlaceholder + NamespacesPrefix[6..] + "names"
    ensures WrittenLabel(NamespacesPrefix + "names", [Param(NameKey, "names")]) != NamespacesPrefix + NamePlaceholder
  {
    var path := NamespacesPrefix + "names";
    assert NameValue([Param(NameKey, "names")]) == Some("names");
    assert FirstOccursAt(path, "names", 1) by {
      assert path[1..6] == "names";
      assert path[0..5][0] == '/';
    }
    WrittenLabelPrefixHit("names", [Param(NameKey, "names")], 1);
    assert path[..1] == NamespacesPrefix[..1];
    assert path[6..] == NamespacesPrefix[6..] + "names";
  }

  /** The counterexample spelled out: GET /namespaces/names is counted under
      "/:namepaces/names". */
  lemma WrittenLabelNames()
    ensures WrittenLabel("/namespaces/names", [Param(NameKey, "names")]) == "/:namepaces/names"
  {
    WrittenLabelCounterexample();
    NamesLabelSpelled();
  }

  /** The strings of the counterexample, spelled from the constants they are made of. */
  lemma NamesLabelSpelled()
    ensures NamespacesPrefix + "names" == "/namespaces/names"
    ensures NamespacesPrefix[..1] + NamePlaceholder + NamespacesPrefix[6..] + "names" == "/:namepaces/names"
    ensures NamespacesPrefix + NamePlaceholder == "/namespaces/:name"
    ensures "/:namepaces/names" != "/namespaces/:name"
  {
    assert "/:namepaces/names"[1] != "/namespaces/:name"[1];
  }

  /** The names "a", "e" and "space" also occur inside "/namespaces/", so none of their
      requests is labelled "/namespaces/:name" as written. */
  lemma WrittenLabelInsidePrefix(v: string)
    requires v == "a" || v == "e" || v == "space"
    ensures WrittenLabel(NamespacesPrefix + v, [Param(NameKey, v)]) != NamespacesPrefix + NamePlaceholder
  {
    assert NameValue([Param(NameKey, v)]) == Some(v);
    if v == "a" {
      assert OccursAt(NamespacesPrefix + v, v, 2) by {
        assert NamespacesPrefix[2..3] == v;
        assert (NamespacesPrefix + v)[2..3] == NamespacesPrefix[2..3];
      }
    } else if v == "e" {
      assert OccursAt(NamespacesPrefix + v, v, 4) by {
        assert NamespacesPrefix[4..5] == v;
        assert (NamespacesPrefix + v)[4..5] == NamespacesPrefix[4..5];
      }
    } else {
      assert OccursAt(NamespacesPrefix + v, v, 5) by {
        assert NamespacesPrefix[5..10] == v;
        assert (NamespacesPrefix + v)[5..10] == NamespacesPrefix[5..10];
      }
    }
    WrittenLabelNamespace(v, [Param(NameKey, v)]);
  }

  /** The intended label: every request to /namespaces/<v>, whatever <v> is, is labelled
      "/namespaces/:name". */
  lemma RouteLabelNamespace(v: string, params: seq<Param>)
    requires NameValue(params) == Some(v)
    ensures RouteLabel(NamespacesPrefix + v, params) == NamespacesPrefix + NamePlaceholder
  {
    ReplaceLastSuffix(NamespacesPrefix, v, NamePlaceholder);
  }

  // ---------------------------------------------------------------------------
  // Counters

  /** The cell of `http_requests_total`. */
  datatype RequestKey = RequestKey(verb: string, path: string)

  /** The cell of `response_status`. */
  datatype StatusKey = StatusKey(verb: string, path: string, status: string)

  /** The value of a counter cell; a cell never touched reads 0. */
  function Count<K>(m: map<K, nat>, k: K): nat {
    if k in m then m[k] else 0
  }

  /** `WithLabelValues(…).Inc()`: the cell `k` is created if needed and grows by one; no
      other cell changes. */
  function Inc<K(!new)>(m: map<K, nat>, k: K): (r: map<K, nat>)
    ensures r.Keys == m.Keys + {k}
    ensures Count(r, k) == Count(m, k) + 1
    ensures forall k' :: k' != k ==> Count(r, k') == Count(m, k')
  {
    m[k := Count(m, k) + 1]
  }

  /** As written, requests to two namespaces /namespaces/<v1> and /namespaces/<v2>, neither
      of whose names occurs inside the prefix, fall with the same method into one cell of
      `http_requests_total`: it grows by two and no label other than "/namespaces/:name"
      appears. */
  lemma NamespaceRequestsShareCell(m: map<RequestKey, nat>, verb: string, v1: string, v2: string)
    requires forall j :: 0 <= j < |NamespacesPrefix| ==> !OccursAt(NamespacesPrefix + v1, v1, j)
    requires forall j :: 0 <= j < |NamespacesPrefix| ==> !OccursAt(NamespacesPrefix + v2, v2, j)
    ensures var k1 := RequestKey(verb, WrittenLabel(NamespacesPrefix + v1, [Param(NameKey, v1)]));
            var k2 := RequestKey(verb, WrittenLabel(NamespacesPrefix + v2, [Param(NameKey, v2)]));
            var shared := RequestKey(verb, NamespacesPrefix + NamePlaceholder);
            k1 == shared && k2 == shared &&
            Count(Inc(Inc(m, k1), k2), shared) == Count(m, shared) + 2 &&
            Inc(Inc(m, k1), k2).Keys == m.Keys + {shared}
  {
    assert NameValue([Param(NameKey, v1)]) == Some(v1);
    WrittenLabelNamespace(v1, [Param(NameKey, v1)]);
    assert NameValue([Param(NameKey, v2)]) == Some(v2);
    WrittenLabelNamespace(v2, [Param(NameKey, v2)]);
  }

  /** /namespaces/default and /namespaces/kube-system share the "/namespaces/:name" cell. */
  lemma DefaultAndKubeSystemShareCell(m: map<RequestKey, nat>, verb: string)
    ensures var k1 := RequestKey(verb, WrittenLabel(NamespacesPrefix + "default", [Param(NameKey, "default")]));
            var k2 := RequestKey(verb, WrittenLabel(NamespacesPrefix + "kube-system", [Param(NameKey, "kube-system")]));
            k1 == k2 == RequestKey(verb, NamespacesPrefix + NamePlaceholder) &&
            Count(Inc(Inc(m, k1), k2), k1) == Count(m, k1) + 2
  {
    assert forall j :: 0 <= j < |NamespacesPrefix| ==> !OccursAt(NamespacesPrefix + "default", "default", j) by {
      assert "default"[0] !in NamespacesPrefix;
      NameOutsidePrefix("default");
    }
    assert forall j :: 0 <= j < |NamespacesPrefix| ==> !OccursAt(NamespacesPrefix + "kube-system", "kube-system", j) by {
      assert "kube-system"[0] !in NamespacesPrefix;
      NameOutsidePrefix("kube-system");
    }
    NamespaceRequestsShareCell(m, verb, "default", "kube-system");
  }

  /** The two counter vectors, registered once for the whole process. */
  class Registry {
    var totalRequests: map<RequestKey, nat>
    var responseStatus: map<StatusKey, nat>

    constructor ()
      ensures totalRequests == map[] && responseStatus == map[]
    {
      totalRequests := map[];
      responseStatus := map[];
    }

    /** The two increments of prometheusMiddleware for a request labelled `pathLabel` whose
        handler answered `status`: one to the (method, label) cell and one to the
        (method, label, status) cell. */
    method Record(verb: string, pathLabel: string, status: int)
      modifies this
      ensures totalRequests == Inc(old(totalRequests), RequestKey(verb, pathLabel))
      ensures responseStatus == Inc(old(responseStatus), StatusKey(verb, pathLabel, Itoa(status)))
    {
      totalRequests := Inc(totalRequests, RequestKey(verb, pathLabel));
      var statusCode := Itoa(status);
      responseStatus := Inc(responseStatus, StatusKey(verb, pathLabel, statusCode));
    }

    /** prometheusMiddleware as written, around one request whose handler answered `status`.
        A request to /metrics changes no counter; any other is recorded under the written
        label, with the leftmost occurrence of the name replaced. */
    method Instrument(verb: string, path: string, params: seq<Param>, status: int)
      modifies this
      ensures path == MetricsPath ==>
                totalRequests == old(totalRequests) && responseStatus == old(responseStatus)
      ensures path != MetricsPath ==>
                totalRequests == Inc(old(totalRequests), RequestKey(verb, WrittenLabel(path, params))) &&
                responseStatus == Inc(old(responseStatus), StatusKey(verb, WrittenLabel(path, params), Itoa(status)))
    {
      if path == MetricsPath {
        return;
      }
      var pathLabel := path;
      var found := FindNameParam(params);
      if found.Some? {
        pathLabel := ReplaceFirst(pathLabel, found.value, NamePlaceholder);
      }
      Record(verb, pathLabel, status);
    }

    /** prometheusMiddleware as intended: the same, except that the request is recorded under
        the route label, with the last occurrence of the name, the route's own segment,
        replaced. */
    method InstrumentByRoute(verb: string, path: string, params: seq<Param>, status: int)
      modifies this
      ensures path == MetricsPath ==>
                totalRequests == old(totalRequests) && responseStatus == old(responseStatus)
      ensures path != MetricsPath ==>
                totalRequests == Inc(old(totalRequests), RequestKey(verb, RouteLabel(path, params))) &&
                responseStatus == Inc(old(responseStatus), StatusKey(verb, RouteLabel(path, params), Itoa(status)))
    {
      if path == MetricsPath {
        return;
      }
      var pathLabel := path;
      var found := FindNameParam(params);
      if found.Some? {
        pathLabel := ReplaceLast(pathLabel, found.value, NamePlaceholder);
      }
      Record(verb, pathLabel, status);
    }
  }

  /** One GET of /namespaces/names on a fresh registry: as written it opens the cell
      "/:namepaces/names" and leaves "/namespaces/:name" unopened; as intended it opens
      "/namespaces/:name". */
  method CountNamesRequest() returns (asWritten: map<RequestKey, nat>, byRoute: map<RequestKey, nat>)
    ensures asWritten == map[RequestKey("GET", "/:namepaces/names") := 1]
    ensures RequestKey("GET", "/namespaces/:name") !in asWritten
    ensures byRoute == map[RequestKey("GET", "/namespaces/:name") := 1]
  {
    var params := [Param(NameKey, "names")];
    var path := NamespacesPrefix + "names";
    assert WrittenLabel(path, params) == "/:namepaces/names" &&
           RouteLabel(path, params) == "/namespaces/:name" &&
           "/:namepaces/names" != "/namespaces/:name" by {
      assert NameValue(params) == Some("names");
      WrittenLabelCounterexample();
      RouteLabelNamespace("names", params);
      NamesLabelSpelled();
    }
    var written := new Registry();
    written.Instrument("GET", path, params, StatusOK);
    asWritten := written.totalRequests;
    var routed := new Registry();
    routed.InstrumentByRoute("GET", path, params, StatusOK);
    byRoute := routed.totalRequests;
  }
}
