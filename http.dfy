/** The HTTP errors the routers raise: a status code and the `detail` text of the response. */
module Http {

  datatype HttpError = HttpError(statusCode: int, detail: string)
}
