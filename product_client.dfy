/**
 * The catalog client interface. The order service depends on it only through
 * `Call`; which implementation stands behind it is chosen outside the service.
 */
module Client {
  import opened Wrappers
  import opened Dto
  import Fallback

  /**
   * What one call of the client does: it returns a (possibly null) snapshot,
   * or it throws. The exception's message is kept only for diagnostics.
   */
  datatype Outcome = Returned(response: Option<ProductResponse>) | Threw(message: string)

  /**
   * The two implementations of the client: the remote catalog, whose answer
   * for each id is a parameter of the model, and the registered fallback.
   */
  datatype ProductClient =
    | Remote(answer: int -> Outcome)
    | FallbackClient

  /**
   * Issues `getProductById(id)` against the given implementation: the remote
   * client gives whatever the catalog answers; the fallback client returns
   * the fallback snapshot and never throws.
   */
  function Call(client: ProductClient, id: int): (o: Outcome)
    ensures client.Remote? ==> o == client.answer(id)
    ensures client.FallbackClient? ==> o == Returned(Some(Fallback.GetProductById(id)))
  {
    match client
    case Remote(answer) => answer(id)
    case FallbackClient => Returned(Some(Fallback.GetProductById(id)))
  }

  /** The fallback implementation never throws and never answers null. */
  lemma FallbackClientAlwaysAnswers(id: int)
    ensures Call(FallbackClient, id).Returned?
    ensures Call(FallbackClient, id).response.Some?
    ensures Fallback.IsSentinel(Call(FallbackClient, id).response.value)
  {
  }
}
