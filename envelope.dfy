/**
 * MKTResponse, the standard response envelope: an error flag, an error
 * code, a message and a result payload, with a success and an error
 * constructor and the conversion to the dictionary that is sent as JSON.
 */
module Envelope {
  import opened Wrappers
  import opened JsonValue

  /**
   * The error code is whatever the caller passes: the success constructor
   * passes the string "0", the empty-sheet path passes the int -1, and the
   * plain constructor defaults to the empty string.
   */
  datatype ErrorCode = IntCode(n: int) | TextCode(s: string)

  /** The four fields of MKTResponse; the defaults are those of __init__. */
  datatype MktResponse = MktResponse(
    esError: bool := true,
    errorCode: ErrorCode := TextCode(""),
    message: Option<string> := None,
    result: Json := JNull)

  const SuccessMessage: string := "Operación exitosa"

  /** MKTResponse.success: no error, code "0", the default message above. */
  function Success(result: Json, message: string := SuccessMessage): (r: MktResponse)
    ensures !r.esError && r.errorCode == TextCode("0")
    ensures r.message == Some(message) && r.result == result
  {
    MktResponse(false, TextCode("0"), Some(message), result)
  }

  /** MKTResponse.error: the error flag set, code and message as given. */
  function Error(errorCode: ErrorCode, message: Option<string>, result: Json := JNull): (r: MktResponse)
    ensures r.esError && r.errorCode == errorCode
    ensures r.message == message && r.result == result
  {
    MktResponse(true, errorCode, message, result)
  }

  function CodeToJson(c: ErrorCode): (j: Json)
    ensures c.IntCode? ==> j == JInt(c.n)
    ensures c.TextCode? ==> j == JString(c.s)
  {
    match c
    case IntCode(n) => JInt(n)
    case TextCode(s) => JString(s)
  }

  function MessageToJson(m: Option<string>): (j: Json)
    ensures m.None? ==> j == JNull
    ensures m.Some? ==> j == JString(m.value)
  {
    match m
    case None => JNull
    case Some(s) => JString(s)
  }

  /** to_dict: exactly the four fields, under their Python attribute names. */
  function ToDict(r: MktResponse): (d: map<string, Json>)
    ensures d.Keys == {"EsError", "ErrorCode", "Message", "Result"}
    ensures d["EsError"] == JBool(r.esError)
    ensures d["ErrorCode"] == (if r.errorCode.IntCode? then JInt(r.errorCode.n) else JString(r.errorCode.s))
    ensures d["Message"] == (if r.message.None? then JNull else JString(r.message.value))
    ensures d["Result"] == r.result
  {
    map["EsError" := JBool(r.esError),
        "ErrorCode" := CodeToJson(r.errorCode),
        "Message" := MessageToJson(r.message),
        "Result" := r.result]
  }

  /**
   * Reads an envelope back from its dictionary; the inverse of ToDict, used
   * to state that ToDict keeps every field unchanged.
   */
  function FromDict(d: map<string, Json>): (r: Option<MktResponse>)
    ensures r.Some? ==> d.Keys >= {"EsError", "ErrorCode", "Message", "Result"}
    ensures r.Some? ==> d["EsError"] == JBool(r.value.esError) && d["Result"] == r.value.result
  {
    if "EsError" !in d || "ErrorCode" !in d || "Message" !in d || "Result" !in d then None
    else if !d["EsError"].JBool? then None
    else
      var code :=
        match d["ErrorCode"]
        case JInt(n) => Some(IntCode(n))
        case JString(s) => Some(TextCode(s))
        case _ => None;
      var message :=
        match d["Message"]
        case JNull => Some(None)
        case JString(s) => Some(Some(s))
        case _ => None;
      if code.None? || message.None? then None
      else Some(MktResponse(d["EsError"].b, code.value, message.value, d["Result"]))
  }

  /** to_dict loses nothing: every envelope is recovered from its dictionary. */
  lemma ToDictRoundTrip(r: MktResponse)
    ensures FromDict(ToDict(r)) == Some(r)
  {
  }

  /** Two envelopes with the same dictionary are the same envelope. */
  lemma ToDictInjective(a: MktResponse, b: MktResponse)
    requires ToDict(a) == ToDict(b)
    ensures a == b
  {
  }

  /**
   * The plain constructor with every argument left out: an error envelope
   * with an empty-string code, no message and no result.
   */
  lemma ConstructorDefaults()
    ensures ToDict(MktResponse()) ==
      map["EsError" := JBool(true), "ErrorCode" := JString(""),
          "Message" := JNull, "Result" := JNull]
  {
  }

  /** The dictionary of a success envelope. */
  lemma SuccessDict(result: Json, message: string)
    ensures ToDict(Success(result, message)) ==
      map["EsError" := JBool(false), "ErrorCode" := JString("0"),
          "Message" := JString(message), "Result" := result]
  {
  }

  /** Success and error envelopes are told apart by the EsError entry alone. */
  lemma SuccessIsNotError(result: Json, message: string, code: ErrorCode, errMessage: Option<string>, errResult: Json)
    ensures ToDict(Success(result, message))["EsError"] == JBool(false)
    ensures ToDict(Error(code, errMessage, errResult))["EsError"] == JBool(true)
    ensures Success(result, message) != Error(code, errMessage, errResult)
  {
  }
}
