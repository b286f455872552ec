/** The environment's answer to a request, chosen freely by the caller of the model. */
module Http {

  /**
   * The outcome of an awaited `fetch` together with the body read from it:
   * a 2xx response with its decoded body, a response whose `ok` is false
   * (its status and its text), or a rejected promise (network failure,
   * unparsable JSON) with the error's message.
   */
  datatype Reply<T> = Success(body: T) | HttpError(status: int, text: string) | Threw(reason: string)

  /** The body the server's login and registration endpoints answer with. */
  datatype AuthResponse = AuthResponse(token: string, username: string, email: string, role: string)
}
