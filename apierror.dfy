// error/error.go: the REST error codes with their HTTP statuses, the
// two-language error message and APIError, whose Localization switches the
// message to Chinese in place.
module ApiError {
  /** An error code and the HTTP status it answers with. */
  datatype ErrorCode = ErrorCode(code: string, status: int)

  const Unauthorized := ErrorCode("Unauthorized", 401)
  const PermissionDenied := ErrorCode("PermissionDenied", 403)
  const NotFound := ErrorCode("NotFound", 404)
  const MethodNotAllowed := ErrorCode("MethodNotAllow", 405)
  const Conflict := ErrorCode("Conflict", 409)

  const DuplicateResource := ErrorCode("DuplicateResource", 422)
  const DeleteParent := ErrorCode("DeleteParent", 422)
  const InvalidFormat := ErrorCode("InvalidFormat", 422)
  const NotNullable := ErrorCode("NotNullable", 422)
  const NotUnique := ErrorCode("NotUnique", 422)
  const MinLimitExceeded := ErrorCode("MinLimitExceeded", 422)
  const MaxLimitExceeded := ErrorCode("MaxLimitExceeded", 422)
  const MinLengthExceeded := ErrorCode("MinLengthExceeded", 422)
  const MaxLengthExceeded := ErrorCode("MaxLengthExceeded", 422)
  const InvalidOption := ErrorCode("InvalidOption", 422)
  const InvalidCharacters := ErrorCode("InvalidCharacters", 422)
  const MissingRequired := ErrorCode("MissingRequired", 422)
  const InvalidCSRFToken := ErrorCode("InvalidCSRFToken", 422)
  const InvalidAction := ErrorCode("InvalidAction", 422)
  const InvalidBodyContent := ErrorCode("InvalidBodyContent", 422)
  const InvalidType := ErrorCode("InvalidType", 422)

  const ServerError := ErrorCode("ServerError", 500)
  const ClusterUnavailable := ErrorCode("ClusterUnavailable", 503)

  /** The request-validation codes, DuplicateResource through InvalidType. */
  function ValidationCodes(): (cs: seq<ErrorCode>)
    ensures |cs| == 16
  {
    [DuplicateResource, DeleteParent, InvalidFormat, NotNullable, NotUnique, MinLimitExceeded, MaxLimitExceeded,
     MinLengthExceeded, MaxLengthExceeded, InvalidOption, InvalidCharacters, MissingRequired, InvalidCSRFToken,
     InvalidAction, InvalidBodyContent, InvalidType]
  }

  /** Every code error.go declares. */
  function AllCodes(): (cs: seq<ErrorCode>)
    ensures |cs| == 23
  {
    [Unauthorized, PermissionDenied, NotFound, MethodNotAllowed, Conflict] + ValidationCodes() + [ServerError, ClusterUnavailable]
  }

  /** Every request-validation code answers 422; every code before
      ServerError is a client error (4xx), and only the last two, ServerError
      and ClusterUnavailable, are server errors. */
  lemma StatusTable()
    ensures forall i :: 0 <= i < |ValidationCodes()| ==> ValidationCodes()[i].status == 422
    ensures forall i :: 0 <= i < 21 ==> 400 <= AllCodes()[i].status < 500
    ensures AllCodes()[21] == ServerError && AllCodes()[22] == ClusterUnavailable
    ensures ServerError.status == 500 && ClusterUnavailable.status == 503
  {
    var v := ValidationCodes();
    var all := AllCodes();
    assert forall i :: 0 <= i < 16 ==> all[i + 5] == v[i];
  }

  /** A message in English and in Chinese. */
  datatype ErrorMessage = ErrorMessage(messageEN: string, messageCN: string)
  {
    /** ErrorMessage.Error: the English text. */
    function Error(): (s: string)
      ensures s == messageEN
    {
      messageEN
    }

    /** ErrorMessage.ErrorCN: the Chinese text. */
    function ErrorCN(): (s: string)
      ensures s == messageCN
    {
      messageCN
    }
  }

  /** NewErrorMessage. */
  function NewErrorMessage(msgEn: string, msgCn: string): (m: ErrorMessage)
    ensures m.Error() == msgEn && m.ErrorCN() == msgCn
  {
    ErrorMessage(msgEn, msgCn)
  }

  /** An error answered to the client. `message` is the text sent; the
      Chinese text waits in `messageCN` until Localization. */
  class APIError {
    var code: ErrorCode
    var typ: string
    var message: string
    var messageCN: string

    /** NewAPIError: the code, type `error`, the English text as the message. */
    constructor (code: ErrorCode, msg: ErrorMessage)
      ensures this.code == code && typ == "error"
      ensures message == msg.messageEN && messageCN == msg.messageCN
    {
      this.code := code;
      typ := "error";
      message := msg.messageEN;
      messageCN := msg.messageCN;
    }

    /** Error: the message currently held. */
    function Error(): (s: string)
      reads this
      ensures s == message
    {
      message
    }

    /** Localization: when asked to, the Chinese text becomes the message;
        the same error is returned, and nothing else changes. */
    method Localization(localize: bool) returns (e: APIError)
      modifies this
      ensures e == this
      ensures message == if localize then old(messageCN) else old(message)
      ensures code == old(code) && typ == old(typ) && messageCN == old(messageCN)
    {
      if localize {
        message := messageCN;
      }
      e := this;
    }
  }

  /** A fresh error reads in English, and in Chinese once localized; a
      second Localization changes nothing more. */
  method LocalizedText(code: ErrorCode, msg: ErrorMessage, localize: bool) returns (before: string, after: string, again: string)
    ensures before == msg.Error()
    ensures after == if localize then msg.ErrorCN() else msg.Error()
    ensures again == after
  {
    var e := new APIError(code, msg);
    before := e.Error();
    var l := e.Localization(localize);
    after := l.Error();
    var l2 := l.Localization(localize);
    again := l2.Error();
  }
}
