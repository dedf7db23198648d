/** The class-level entry points of a model: `get` fetches one record by id
    and `all` builds a query set. Both dispatch on the class's
    `RESOURCE_NAME`; a name that is neither `people` nor `films` falls
    through both tests and the call returns None. */
module Registry {
  import opened Wrappers
  import opened Records
  import opened Api
  import opened QuerySet

  /** `BaseModel.get`: for a known resource name, the client's single-item
      request for that kind, turned into a model object of that kind
      (`Record(k, item)`, the object `cls(item)` builds, as
      `Records.Construct` proves); a failure of the client is raised
      unchanged. */
  function Get(resourceName: string, id: nat, client: Client): (r: Option<Result<Record, ClientError>>)
    ensures r.None? <==> forall k: Kind :: ResourceName(k) != resourceName
    ensures forall k: Kind :: ResourceName(k) == resourceName ==>
      && r.Some?
      && (r.value.Success? <==> client.fetchItem(k, id).Success?)
      && (r.value.Success? ==> r.value.value == Record(k, client.fetchItem(k, id).value))
      && (r.value.Failure? ==> r.value.error == client.fetchItem(k, id).error)
  {
    match ParseKind(resourceName)
    case None => None
    case Some(k) =>
      match client.fetchItem(k, id)
      case Failure(e) => Some(Failure(e))
      case Success(item) => Some(Success(Record(k, item)))
  }

  /** `BaseModel.all`: for a known resource name, a fresh query set of that
      kind, whose construction fetches page 1; otherwise None, and nothing
      is fetched. */
  function All(resourceName: string, client: Client): (r: Option<Opened>)
    ensures r.None? <==> forall k: Kind :: ResourceName(k) != resourceName
    ensures forall k: Kind :: ResourceName(k) == resourceName ==> r == Some(Open(k, client))
  {
    match ParseKind(resourceName)
    case None => None
    case Some(k) => Some(Open(k, client))
  }

  /** `People.all()` and `Films.all()` open a query set of their own kind
      (`PeopleQuerySet`, `FilmsQuerySet`), each call with its own fetch of
      page 1 of that kind. */
  lemma AllDispatchesByName(client: Client)
    ensures All("people", client) == Some(Open(People, client))
    ensures All("films", client) == Some(Open(Films, client))
    ensures All("people", client).value.queries == ["?page=1"]
    ensures All("films", client).value.queries == ["?page=1"]
  {
    assert ResourceName(People) == "people";
    assert ResourceName(Films) == "films";
  }
}
