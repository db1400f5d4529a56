/** Why a load aborts. Every one of these ends `handle`, and with it the transaction. */
module Errors {
  import Values

  datatype LoadError =
    | SslCommandError(base: string)       // `CommandError` for an SSL failure of some fetch
    | HttpCommandError(base: string)      // `CommandError` for any other `requests` failure
    | Uncaught(error: Values.PyError)     // an exception `handle` does not catch
    | MultipleObjectsReturned(model: string)
    | Endless                             // a `next` chain longer than the fetch fuel
}
