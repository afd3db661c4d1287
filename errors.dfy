/**
 * The error envelope every failing request receives (`sendError` in
 * bin/web.js): the HTTP status is repeated in the body beside a numeric error
 * code, a developer message and a bilingual user message.
 */
module Errors {
  import opened Common

  datatype UserMessage = UserMessage(enUs: string, ptBr: string)

  /** The JSON body of an error response; `status` is also the response's HTTP status. */
  datatype ErrorBody = ErrorBody(status: nat, errorCode: nat, message: string, userMessage: UserMessage)

  /** Developer message used when none (or an empty one) is given; the spelling is the service's. */
  const UnknownError: string := "Unknow error"

  const UnexpectedError: UserMessage :=
    UserMessage("Unexpected error, try again later", "Erro inesperado, tente novamente mais tarde")

  const NoAuthorization: UserMessage :=
    UserMessage("No authorization for the requested resource", "Sem autorização para o recurso solicitado")

  const InvalidFile: UserMessage :=
    UserMessage("This file cannot be uploaded, make sure it is a valid image with up to 2mb",
                "O arquivo não pôde ser carregado, verifique se é uma imagem válida com até 2mb")

  const CdnUploadFailed: UserMessage :=
    UserMessage("This file cannot be uploaded to CDN", "O arquivo não pôde ser carregado para o CDN")

  /**
   * `sendError(res, status, code, devMsg, usrMsg)`. A missing developer message
   * is the empty string here (JavaScript `undefined` and `''` are both falsy);
   * a missing user message is `None`.
   */
  function SendError(status: nat, code: nat, devMsg: string, usrMsg: Option<UserMessage>): (r: ErrorBody)
    ensures r.status == status && r.errorCode == code
    ensures r.message != []
    ensures devMsg != [] ==> r.message == devMsg
    ensures devMsg == [] ==> r.message == UnknownError
    ensures usrMsg.Some? ==> r.userMessage == usrMsg.value
    ensures usrMsg.None? ==> r.userMessage == UnexpectedError
  {
    var message := if devMsg == [] then UnknownError else devMsg;
    var userMessage := if usrMsg.None? then UnexpectedError else usrMsg.value;
    ErrorBody(status, code, message, userMessage)
  }
}
