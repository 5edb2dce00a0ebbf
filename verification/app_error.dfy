/** The application's operational error: `new AppError(message, statusCode)`. */
module AppErrors {
  import opened Text
  import opened Js

  /** The status word: "fail" when the text of the status code starts with "4", else "error". */
  function StatusWord(statusCode: JsValue): string {
    if StartsWith(ToText(statusCode), "4") then "fail" else "error"
  }

  /**
   * `new AppError(message, statusCode)`. `super(message)` installs `message` as a
   * non-enumerable property and `Error.captureStackTrace` a non-enumerable `stack`,
   * whose first line is "Error: " and the message and whose frames `trace` stands for;
   * `name` is inherited from `Error.prototype`. The constructor's own assignments are
   * the three enumerable properties.
   */
  function NewAppError(message: string, statusCode: JsValue, trace: string): (e: ErrObj)
    ensures e.Get("message") == Str(message)
    ensures e.Get("statusCode") == statusCode
    ensures e.Get("isOperational") == Bool(true)
    ensures e.Get("name") == Str("Error")
    ensures e.Get("stack") == Str("Error: " + message + trace)
    ensures e.Get("status") == Str(StatusWord(statusCode)) && StatusWord(statusCode) in {"fail", "error"}
    ensures e.own.keys == ["statusCode", "status", "isOperational"] && e.own.Valid()
    ensures !e.own.Has("message") && !e.own.Has("name") && e.Get("code") == Undefined
  {
    var own := JsObject(["statusCode", "status", "isOperational"],
                        map["statusCode" := statusCode, "status" := Str(StatusWord(statusCode)),
                            "isOperational" := Bool(true)]);
    var hidden := map["message" := Str(message), "stack" := Str("Error: " + message + trace),
                      "name" := Str("Error")];
    ErrObj(own, hidden)
  }

  /** For a three-digit status code the status is "fail" exactly for the 4xx codes. */
  lemma StatusOfHttpCode(message: string, code: int, trace: string)
    requires 100 <= code <= 999
    ensures NewAppError(message, Num(code), trace).Get("status") == Str("fail") <==> 400 <= code <= 499
    ensures NewAppError(message, Num(code), trace).Get("status") == Str("error") <==> !(400 <= code <= 499)
  {
    NatTextFirstChar(code);
    ThreeDigitLeading(code);
    assert ToText(Num(code)) == NatText(code);
    assert StartsWith(NatText(code), "4") <==> NatText(code)[0] == '4';
  }

  /** For any non-negative number the status is "fail" exactly when its leading decimal
      digit is 4 (so 40 and 4000 also give "fail"); a negative code gives "error". */
  lemma StatusOfNumber(message: string, code: int, trace: string)
    ensures code >= 0 ==> (NewAppError(message, Num(code), trace).Get("status") == Str("fail") <==> LeadingDigit(code) == 4)
    ensures code < 0 ==> NewAppError(message, Num(code), trace).Get("status") == Str("error")
  {
    var text := ToText(Num(code));
    assert StartsWith(text, "4") <==> text[0] == '4';
    if code >= 0 {
      NatTextFirstChar(code);
      assert text == NatText(code);
    }
  }

  /** Without a status code the text is "undefined", so the status is "error". */
  lemma StatusWithoutCode(message: string, trace: string)
    ensures NewAppError(message, Undefined, trace).Get("status") == Str("error")
    ensures NewAppError(message, Undefined, trace).Get("statusCode") == Undefined
  {
    assert ToText(Undefined)[..1] == "u";
  }
}
