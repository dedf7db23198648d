/** Records of the catalogue: the decoded item a page or a single-item request
    carries, and the model object built from it (`BaseModel` and its
    subclasses `People` and `Films`). */
module Records {
  import opened Wrappers

  /** A decoded JSON value, as the api client hands it over. */
  datatype Value =
    | Null
    | Bool(b: bool)
    | Number(n: int)
    | Str(s: string)
    | Array(elems: seq<Value>)
    | Object(members: map<string, Value>)

  /** One decoded item: attribute name to attribute value. */
  type Item = map<string, Value>

  /** The resource kinds the catalogue serves. */
  datatype Kind = People | Films

  /** The `RESOURCE_NAME` of a model class, which is also the `r_name` of its
      query set and the suffix of the client's `get_<name>` operation. */
  function ResourceName(k: Kind): string
  {
    match k
    case People => "people"
    case Films => "films"
  }

  /** The class-name dispatch of `get` and `all`: exactly the resource names
      of the known kinds are recognised, every other name falls through. */
  function ParseKind(name: string): (k: Option<Kind>)
    ensures forall kind: Kind :: ResourceName(kind) == name <==> k == Some(kind)
  {
    if name == "people" then Some(People)
    else if name == "films" then Some(Films)
    else None
  }

  /** A model object: the kind of its class and every attribute copied from
      the decoded item. */
  datatype Record = Record(kind: Kind, fields: Item)

  /** The constructor of `BaseModel`: each key/value pair of the decoded item
      becomes an attribute of the new object, one `setattr` at a time. */
  method Construct(kind: Kind, item: Item) returns (r: Record)
    ensures r.kind == kind
    ensures r.fields.Keys == item.Keys
    ensures forall key :: key in item ==> r.fields[key] == item[key]
    // so the object is exactly the one `Record(kind, item)` denotes, the
    // value the rest of the model builds for a fetched item
    ensures r == Record(kind, item)
  {
    var attributes: Item := map[];
    var pending := item.Keys;
    while pending != {}
      invariant pending <= item.Keys
      invariant attributes.Keys == item.Keys - pending
      invariant forall key :: key in attributes ==> attributes[key] == item[key]
      decreases pending
    {
      var key :| key in pending;
      attributes := attributes[key := item[key]];
      pending := pending - {key};
    }
    r := Record(kind, attributes);
  }
}
