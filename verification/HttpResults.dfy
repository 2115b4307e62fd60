/** How far a request or a response has come (lib_http/http_result.h). */
module HttpResults {

  datatype HttpResult = Complete | Incomplete | Error
}
