/** The values the HTTP front exchanges: the response records of go-app/structs.go, the
    outcome of a cluster-gateway call, and the HTTP response a handler writes. */
module Types {

  datatype Option<+T> = None | Some(value: T)

  /** What a cluster-gateway call gives back: a value, or an error whose text the handlers inspect. */
  datatype Outcome<+T> = Ok(value: T) | Err(message: string)

  /** A pod as reported to the client: its name and its phase, passed through verbatim. */
  datatype Pod = Pod(name: string, status: string)

  /** A namespace with its pods; also the shape of the POST request body. */
  datatype Namespace = Namespace(name: string, pods: seq<Pod>)

  /** The JSON body a handler writes: a `{"message": …}` or `{"error": …}` object,
      one namespace, or an array of namespaces. */
  datatype Body =
    | MessageBody(message: string)
    | ErrorBody(error: string)
    | NamespaceBody(namespace: Namespace)
    | NamespaceListBody(namespaces: seq<Namespace>)

  datatype Response = Response(status: int, body: Body)

  /** One call into the cluster gateway, as recorded in a handler's call trace. */
  datatype Call =
    | InitClient
    | ListNamespaces
    | ListPods(namespace: string)
    | CreateNamespace(name: string)

  const StatusOK := 200
  const StatusCreated := 201
  const StatusBadRequest := 400
  const StatusNotFound := 404
  const StatusInternalServerError := 500
  const StatusServiceUnavailable := 503
}
