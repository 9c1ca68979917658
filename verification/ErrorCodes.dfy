/** The codes of code/base/error_code/rpc_error_code.h. */
module ErrorCodes {
  import opened Basics

  const OK: int32 := 0
  const CLIENT_REQUEST_TIMEOUT: int32 := 1001
  const CLIENT_CONNECTION_DISCONNECTED: int32 := 1002
  const CLIENT_NETWORK_ERROR: int32 := 1003
  const CLIENT_NOT_RUNNING: int32 := 1004
  const CLIENT_ENCODE_FAILED: int32 := 1006
  const SERVER_SERVICE_NOT_FOUND: int32 := 2001
  const SERVER_INTERNAL_ERROR: int32 := 2002
  const SERVER_BUSY: int32 := 2003
  const SERVER_SHUTTING_DOWN: int32 := 2006
}
