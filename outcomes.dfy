// How operations fail: with one of the HTTP errors, with an exception the
// store raised, with the error of a remote call, or with an exception a
// library (the cipher) threw; all but the first reach the error middleware,
// which reports them as server errors.
module Outcomes {
  import opened Wrappers
  import opened ApiErrors
  import opened Store

  datatype Failure = Api(error: ApiError) | Db(storeError: StoreError) | Remote(message: string) | Thrown(message: string)

  type Outcome<T> = Result<T, Failure>
}
