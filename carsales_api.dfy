/** The facade (Sources/CarsalesAPI/CarsalesAPI.swift): endpoint resolution, and the two public
    calls, each of which starts a request and keeps its cancellation handle in the one
    `cancellable` field, replacing the previous one. That field holds the only reference to the
    previous `AnyCancellable`, so replacing it releases that handle, and releasing it cancels the
    earlier request. The request's network work and the delivery of its result are not part of
    this model. A call is recorded as the `Request` it starts, and a release as the handle it
    cancels. */
module CarsalesClient {
  import opened Wrappers

  /** The two endpoints. */
  datatype CarsalesEndpoint = List | Details(uri: string)

  const ListPath := "v3/e8c52b55-7f44-41a8-b059-5d042269b520"
  const BaseURL := "https://mocky.io"

  /** `path`: the list endpoint's fixed path, or the details path as given. */
  function Path(e: CarsalesEndpoint): (r: string)
    ensures e.List? ==> r == ListPath && |r| > 0
    ensures e.Details? ==> r == e.uri
  {
    match e
    case List => ListPath
    case Details(uri) => uri
  }

  /** The type a request's response is decoded into. */
  datatype Target = ListResultTarget | CarDetailsTarget

  /** A started request: the base URL, the endpoint path appended to it, and the decode target. */
  datatype Request = Request(baseURL: string, path: string, target: Target)

  /** An `AnyCancellable`, told apart by an opaque token. */
  datatype Cancellable = Cancellable(token: nat)

  class CarsalesAPI {
    const baseURL: string
    /** The handle of the most recent request. */
    var cancellable: Option<Cancellable>
    /** The requests started so far, oldest first. */
    ghost var started: seq<Request>
    /** The handles cancelled so far by being released, oldest first. */
    ghost var cancelled: seq<Cancellable>

    constructor ()
      ensures baseURL == BaseURL && cancellable == None && started == [] && cancelled == []
    {
      baseURL := BaseURL;
      cancellable := None;
      started := [];
      cancelled := [];
    }

    /** `getList`: starts a list request decoded as `ListResult`; `handle` is what `request`
        returns for it. The handle it replaces is released, which cancels its request. */
    method GetList(handle: Cancellable)
      modifies this
      ensures cancellable == Some(handle)
      ensures started == old(started) + [Request(baseURL, Path(List), ListResultTarget)]
      ensures cancelled == old(cancelled) + Released(old(cancellable))
    {
      started := started + [Request(baseURL, Path(List), ListResultTarget)];
      cancelled := cancelled + Released(cancellable);
      cancellable := Some(handle);
    }

    /** `getDetails(path:)`: starts a request for `path` decoded as `CarDetails`, and releases the
        handle it replaces. */
    method GetDetails(path: string, handle: Cancellable)
      modifies this
      ensures cancellable == Some(handle)
      ensures started == old(started) + [Request(baseURL, Path(Details(path)), CarDetailsTarget)]
      ensures cancelled == old(cancelled) + Released(old(cancellable))
    {
      started := started + [Request(baseURL, Path(Details(path)), CarDetailsTarget)];
      cancelled := cancelled + Released(cancellable);
      cancellable := Some(handle);
    }
  }

  /** The handles that overwriting `cancellable` releases: the one it held, if any. */
  function Released(held: Option<Cancellable>): (r: seq<Cancellable>)
    ensures held.None? ==> r == []
    ensures held.Some? ==> r == [held.value]
  {
    if held.Some? then [held.value] else []
  }

  /** Two resolved paths are the same exactly when the endpoints are, except that a details path
      spelled like the list constant resolves to the list path. */
  lemma PathCollisions(a: CarsalesEndpoint, b: CarsalesEndpoint)
    ensures Path(a) == Path(b) <==>
      a == b || (a.List? && b == Details(ListPath)) || (b.List? && a == Details(ListPath))
  {
  }

  /** Last call wins: after `getList` and then `getDetails`, the retained handle is the second
      call's, the first call's handle has been released and so its request cancelled, and both
      requests were started in order. */
  method LastCallWins(api: CarsalesAPI, first: Cancellable, second: Cancellable, path: string)
    modifies api
    ensures api.cancellable == Some(second)
    ensures first != second ==> api.cancellable != Some(first)
    ensures api.started == old(api.started) + [
      Request(api.baseURL, ListPath, ListResultTarget),
      Request(api.baseURL, path, CarDetailsTarget)]
    ensures api.cancelled == old(api.cancelled) + Released(old(api.cancellable)) + [first]
    ensures first in api.cancelled
  {
    api.GetList(first);
    assert api.cancellable == Some(first);
    api.GetDetails(path, second);
  }
}
