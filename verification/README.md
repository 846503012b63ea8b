# k8s-adventures go-app: handlers, readiness and request metrics in Dafny

This project models the decision logic of the `go-app` HTTP front over the Kubernetes API
and proves what it promises:

- the three namespace handlers of `go-app/api.go`:
  - `GET /namespaces` lists every namespace with its pods and fails fast;
  - `GET /namespaces/:name` returns one namespace, a "has no Pods" notice or a 404;
  - `POST /namespaces` validates, then creates.
- the `/healthz` and `/readyz` probes over the one-way readiness flag;
- the request instrumentation of `go-app/metrics.go`:
  - the path label with the namespace name folded into `:name`;
  - the `http_requests_total` and `response_status` counters.

Files and modules:

- `types.dfy` (`Types`) holds the records of `go-app/structs.go` (`Pod`, `Namespace`). It also holds:
  - `Outcome`, the result of a gateway call: `Ok(value)` or `Err(message)`;
  - `Response`, the HTTP status and JSON body a handler writes;
  - `Call`, one entry in the trace of gateway calls.
- `gostrings.dfy` (`GoStrings`) models `strings.Index`, `strings.Contains` and `strings.Replace(s, old, new, 1)`. It also holds the last-occurrence replacement that the corrected metrics label uses.
- `strconv.dfy` (`Strconv`) models `strconv.Itoa`, with the decimal reading that undoes it.
- `api.dfy` (`Api`) holds:
  - the handlers, as methods that return the response and the trace of gateway calls;
  - the loop that turns the pod map into a pod list;
  - the `Readiness` class.
- `metrics.dfy` (`Metrics`) holds:
  - the search for the `name` route parameter, as a loop with a break;
  - the label functions;
  - the counter registry, a class whose two maps `Instrument` updates as the source does and `InstrumentByRoute` updates under the corrected label.

The cluster gateway (`go-app/modules/k8sclient/k8sclient.go`) is not part of this model.
The handlers take what it answers as inputs:

- `init` is the `InitClient` outcome;
- `list` is the `GetNamespaces` outcome;
- `getPods` gives the `GetPods` outcome for a namespace;
- `create` gives the `CreateNamespace` outcome for a name.

`getPods` and `create` are functions of the name. This assumes the cluster does not change during one request.

Go's map range order is unspecified. The pod list of a namespace is therefore specified only up to order, by `ListsPods`:

- its length is the size of the map;
- its multiset of `Pod(name, status)` entries is exactly the map's entries.

## Model

| member | source | states |
|---|---|---|
| `Api.PodsOf` | go-app/api.go:100-105 | the pod list has one `Pod(key, value)` per map entry and nothing else: its length is the map's size and its multiset of entries is the map's |
| `Api.ListedPodsMatchMap` | go-app/api.go:150-155 | every listed pod is named after a key of the pod map and carries that key's phase as status, and every map entry is listed |
| `Api.ListedPodNamesDistinct` | go-app/api.go:150-155 | no pod name appears twice in a listing |
| `Api.ListsSinglePod` | go-app/api.go:100-105 | a map with one pod is listed as exactly that pod |
| `Api.FirstFailed` | go-app/api.go:88-98 | the first namespace whose pod listing fails: all earlier ones succeed, and it fails unless it is past the end |
| `Api.GetNamespaces` | go-app/api.go:70-112 | any failure of InitClient, GetNamespaces or a per-namespace GetPods gives 500 with the fixed message and no partial list. The calls stop at the first failing namespace; later ones are never queried. On success: 200, one entry per gateway name in gateway order, entry i named `names[i]` with its pods listed from the map |
| `Api.ListTwoNamespaces` | go-app/api.go:86-111 | namespaces `default` (pod nginx Running) and `kube-system` (no pods) give 200 with `default` holding exactly nginx/Running and `kube-system` an empty pod list, after four gateway calls |
| `Api.GetNamespaceByName` | go-app/api.go:122-164 | a GetPods error containing "not found" gives 404 "Namespace '<name>' not found", any other error 500. A non-empty map gives 200 with the namespace named after the path parameter and its pods. An empty map gives 200 "Namespace '<name>' has no Pods". 404 happens exactly in the "not found" case |
| `Api.PostNamespace` | go-app/api.go:181-217 | a bind/validation failure gives 400 "Namespace name must comply with RFC 1123" with no gateway call. A create error containing "already exists" gives 400 naming the namespace; any other error gives 500. Success gives 201 echoing the bound request value |
| `Api.Readiness.constructor` | go-app/api.go:35-36 | the flag starts false |
| `Api.Readiness.MarkReady` | go-app/api.go:41 | the flag becomes true. It is the only method that writes the flag and it only stores true, so a true flag stays true |
| `Api.Readiness.Readyz` | go-app/api.go:44-51 | 200 exactly when the flag is true, 503 exactly when it is false |
| `Api.Readiness.Healthz` | go-app/api.go:29-31 | always 200 |
| `GoStrings.Index` | go-app/api.go:136 | the leftmost occurrence of the substring, or none when it occurs nowhere |
| `GoStrings.Contains` | go-app/api.go:136 | `strings.Contains` holds exactly when the substring occurs somewhere; the handlers test gateway errors for "not found" (line 136) and "already exists" (line 205) with it |
| `GoStrings.ReplaceFirst` | go-app/metrics.go:55 | `strings.Replace` with count 1 rewrites only the leftmost occurrence and keeps what precedes and follows it; a string that does not occur leaves the path unchanged |
| `GoStrings.LastIndex` | go-app/metrics.go:52 | the rightmost occurrence of the substring, or none when it occurs nowhere |
| `GoStrings.ReplaceLastSuffix` | go-app/metrics.go:52 | a path ending in the value has that final occurrence rewritten, whatever the prefix holds |
| `Strconv.Decimal` | go-app/metrics.go:67 | the rendering is non-empty, all digits, with a leading zero only for 0 |
| `Strconv.DecimalRoundTrip` | go-app/metrics.go:67 | reading the rendered digits back gives the number |
| `Strconv.Itoa` | go-app/metrics.go:67 | a non-negative status renders as decimal digits whose value is the status; a negative one as '-' followed by the digits of its magnitude. The form is canonical: never empty, and no leading zero except for "0" itself |
| `Strconv.ItoaInjective` | go-app/metrics.go:67-68 | distinct status codes give distinct status labels |
| `Metrics.FirstNameIndex` | go-app/metrics.go:53-57 | the position of the first parameter keyed "name": none before it has that key |
| `Metrics.NameValue` | go-app/metrics.go:53-57 | nothing exactly when no parameter is keyed "name"; otherwise the value of a parameter keyed "name" with no such parameter before it |
| `Metrics.FindNameParam` | go-app/metrics.go:53-58 | the loop yields the value of the first parameter keyed "name", and nothing exactly when no parameter has that key |
| `Metrics.FirstNameParamWins` | go-app/metrics.go:53-57 | only the first "name" parameter is used; later parameters are ignored |
| `Metrics.WrittenLabel` | go-app/metrics.go:53-58 | as written, the leftmost occurrence of the name value becomes ":name" and the rest of the path is unchanged. Without a "name" parameter, or when its value does not occur, the label is the raw path |
| `Metrics.LabelIsRawPath` | go-app/metrics.go:53-58 | with no "name" parameter, or when its value does not occur in the path, the label is the raw path |
| `Metrics.WrittenLabelPrefixHit` | go-app/metrics.go:52-58 | as written, when the name first occurs in /namespaces/<v> at an offset i inside the prefix, that occurrence is rewritten, so the label carries ':' at i and is not /namespaces/:name |
| `Metrics.WrittenLabelNamespace` | go-app/metrics.go:52-58 | as written, /namespaces/<v> is labelled /namespaces/:name if and only if v occurs in /namespaces/<v> at no offset inside the 12-character prefix |
| `Metrics.WrittenLabelCounterexample` | go-app/metrics.go:52-58 | as written, /namespaces/names is labelled /:namepaces/names, not /namespaces/:name |
| `Metrics.WrittenLabelNames` | go-app/metrics.go:55 | as written, `strings.Replace("/namespaces/names", "names", ":name", 1)` labels the request "/:namepaces/names" |
| `Metrics.WrittenLabelInsidePrefix` | go-app/metrics.go:52-58 | as written, /namespaces/a, /namespaces/e and /namespaces/space are not labelled /namespaces/:name |
| `Metrics.RouteLabelNamespace` | go-app/metrics.go:52 | corrected label: /namespaces/<v> is labelled /namespaces/:name for every v |
| `Metrics.Inc` | go-app/metrics.go:60 | `Inc()` on a counter cell creates it if needed and adds exactly 1; every other cell is unchanged |
| `Metrics.NamespaceRequestsShareCell` | go-app/metrics.go:52-60 | as written, two requests with the same method to /namespaces/<v1> and /namespaces/<v2> hit one `http_requests_total` cell when neither name occurs inside the prefix. That cell grows by 2 and no label other than /namespaces/:name appears |
| `Metrics.DefaultAndKubeSystemShareCell` | go-app/metrics.go:52-60 | /namespaces/default and /namespaces/kube-system with the same method hit the one /namespaces/:name cell, which grows by 2 |
| `Metrics.Registry.constructor` | go-app/metrics.go:19-32 | both counter vectors start empty |
| `Metrics.Registry.Record` | go-app/metrics.go:60-68 | 1 is added to the (method, label) cell of `http_requests_total` and 1 to the (method, label, decimal status) cell of `response_status`; no other cell changes |
| `Metrics.Registry.Instrument` | go-app/metrics.go:40-71 | as written: a request to /metrics changes no counter. Any other request adds 1 to its (method, label) cell of `http_requests_total` and 1 to its (method, label, decimal status) cell of `response_status`, under the written label, and no other cell changes |
| `Metrics.Registry.InstrumentByRoute` | go-app/metrics.go:40-71 | corrected: the same counting under the route label, so every /namespaces/<v> request counts under /namespaces/:name |
| `Metrics.CountNamesRequest` | go-app/metrics.go:52-60 | one GET of /namespaces/names on fresh counters opens the /:namepaces/names cell and not /namespaces/:name as written, and opens /namespaces/:name when corrected |

## Left out

- `go-app/main.go`: the signal handling, the server goroutine and the 10-second graceful shutdown are concurrency and OS I/O. `go-app/main.go` is not part of this model.
- The cluster gateway `go-app/modules/k8sclient/k8sclient.go`, with kubeconfig discovery and client-go: its answers are inputs. The error texts the handlers test ("not found", "already exists") are whatever it returns.
- The readiness goroutine and its 15-second sleep (go-app/api.go:38-43). Only the flag transition is modelled, so the timing property (503 before the warm-up delay, 200 after) is not stated. The `isReady == nil` test at go-app/api.go:45 is never true, because the flag is allocated at go-app/api.go:35.
- The RFC 1123 hostname validation of the `binding` tag (go-app/structs.go:14) and JSON binding. They are done by libraries outside the model, so `PostNamespace` takes the bind/validation result as an input.
- The response-time histogram and timer (go-app/metrics.go:34-37, 61, 69): wall-clock time and floating point.
- `Metrics.Registry.Instrument`: Prometheus counters are float64. Here they are unbounded naturals, so the rounding of very large counts is not modelled.
- `Metrics.Registry.Instrument`: the two increments happen in one step here. The source does the first before `c.Next()` runs the handler (go-app/metrics.go:60) and the second after it (go-app/metrics.go:68), so a scrape during a request can see the first without the second; that interleaving is not modelled. The same holds for `Metrics.Registry.InstrumentByRoute`.
- `Metrics.Registry.Instrument`: it takes the handler's final status as a parameter. A handler that panics never reaches the second increment (go-app/metrics.go:67-68), and that path is not modelled.
- Router wiring: `prometheusMiddleware` is not registered anywhere. `setupRouter` installs `DummyMiddleware` (go-app/api.go:23), which is not defined in the shown files, so `Instrument` is a standalone operation. Also not modelled: gin routing, the logger and recovery middleware, and the promhttp and swagger routes.
- JSON rendering and indentation are not modelled. Two nil slices are rendered as `null` where the model has an empty sequence. One is a listing of zero namespaces. The other is, in `GET /namespaces`, the `pods` of a namespace without pods, since `namespace.Pods` is only ever appended to (go-app/api.go:100-105). So the empty pod list of `kube-system` in `Api.ListTwoNamespaces` is `"pods": null` on the wire.
- Log output (`log.Print`) is not modelled.
- `POST /namespaces` answers 201 with the bound request value as it came in, including any `pods` the client sent. The model follows the code; it does not always answer with an empty pod list.

## Findings

| source | as written | input that shows it | evidently intended | confidence | as-written member | corrected member |
|---|---|---|---|---|---|---|
| go-app/metrics.go:52-58 | `strings.Replace(path, value, ":name", 1)` rewrites the leftmost occurrence of the namespace name anywhere in the path, including inside the fixed `/namespaces/` prefix | `GET /namespaces/names` (name parameter `names`) is labelled `/:namepaces/names`; so are one-letter names such as `a` or `e` and names like `space`, each with a label of its own | every request to `/namespaces/<name>` is counted under `/namespaces/:name`, as the comment at line 52 says, so label cardinality does not grow with namespace names | high, not executed | `Metrics.WrittenLabelCounterexample`, `Metrics.Registry.Instrument` | `Metrics.RouteLabelNamespace`, `Metrics.Registry.InstrumentByRoute` |

`Metrics.WrittenLabelNamespace` states exactly which names are affected: those that occur in `/namespaces/<name>` at an offset inside the prefix. `Metrics.Registry.Instrument` counts under the written label, as the source does. The corrected label, `Metrics.RouteLabel`, rewrites the last occurrence of the value; with gin's route `/namespaces/:name` that occurrence is the path segment the parameter came from. `Metrics.Registry.InstrumentByRoute` counts under it. `Metrics.CountNamesRequest` applies both to the same request, and its ensures give the two cells they open.
