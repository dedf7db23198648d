/** The narrow interface of the SWAPI client the model depends on. The client
    itself (HTTP transport and JSON decoding) is not part of this model: its
    two operations are abstract functions supplied by the caller. */
module Api {
  import opened Wrappers
  import opened Records

  /** One decoded page of a listing: its results, the server-reported total
      over all pages, and the URL of the following page, if any. */
  datatype Page = Page(results: seq<Item>, count: nat, next: Option<string>)

  /** Whatever the client raises when a request fails. */
  datatype ClientError = ClientError(reason: string)

  /** `get_people` / `get_films` applied to a page query, and applied to a
      resource id. */
  datatype Client = Client(
    fetchPage: (Kind, string) -> Result<Page, ClientError>,
    fetchItem: (Kind, nat) -> Result<Item, ClientError>)
}
