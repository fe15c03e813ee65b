/**
 * `Response::success($data, $message, $code = 200)` and
 * `Response::error($message, $code = 400)`: the HTTP status, the `success`
 * flag, the message and, on success, the data. `Aborted` is a script that
 * ended in an uncaught exception: PHP answers HTTP 500 with no JSON body.
 */
module Responses {
  datatype Response<T> = Success(code: int, message: string, data: T) | Error(code: int, message: string) | Aborted
}
