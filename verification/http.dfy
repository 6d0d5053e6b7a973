/** The shape every route handler answers with. */
module Http {
  import opened Provider

  /** `NextResponse.json(body)` (status 200) or `NextResponse.json({ error }, { status })`. */
  datatype Response<T> = Json(body: T) | ErrorJson(status: nat, error: string)

  /** A route's response together with the provider requests it sent, in order. */
  datatype Exchange<T> = Exchange(response: Response<T>, calls: seq<Request>)

  const Unauthorized := "Non autorisé"
}
