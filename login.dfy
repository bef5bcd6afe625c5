/** The sign-in form's pure helpers: finding the Firebase error code of a
    thrown value, mapping a code to the field it concerns and a message,
    and checking the two inputs before submission. */
module Login {
  import opened Wrappers
  import opened Js
  import opened Forms

  // ---------------------------------------------------------------------
  // extractAuthCode
  // ---------------------------------------------------------------------

  /** `[a-z0-9-]` under the `i` flag. */
  predicate IsCodeChar(c: char) {
    IsLowerAscii(c) || IsUpperAscii(c) || IsDigit(c) || c == '-'
  }

  /** `/auth\/[a-z0-9-]+/i` matches at `p`: "auth/" in any case, then at
      least one code character. */
  predicate CodeAt(s: string, p: nat) {
    p + 6 <= |s| && ToLower(s[p..p + 5]) == "auth/" && IsCodeChar(s[p + 5])
  }

  /** How many code characters follow position `i`. */
  function RunLength(s: string, i: nat): (n: nat)
    requires i <= |s|
    ensures i + n <= |s|
    ensures forall k :: i <= k < i + n ==> IsCodeChar(s[k])
    ensures i + n == |s| || !IsCodeChar(s[i + n])
    decreases |s| - i
  {
    if i < |s| && IsCodeChar(s[i]) then 1 + RunLength(s, i + 1) else 0
  }

  /** The leftmost match position from `p` on. */
  function FindCode(s: string, p: nat): (r: Option<nat>)
    requires p <= |s|
    ensures r.Some? ==> p <= r.value && CodeAt(s, r.value)
    ensures r.Some? ==> forall k :: p <= k < r.value ==> !CodeAt(s, k)
    ensures r.None? <==> forall k :: p <= k <= |s| ==> !CodeAt(s, k)
    decreases |s| - p
  {
    if CodeAt(s, p) then Some(p)
    else if p == |s| then None
    else FindCode(s, p + 1)
  }

  /** The text matched at `q`: "auth/" and the whole run after it. */
  function MatchAt(msg: string, q: nat): string
    requires CodeAt(msg, q)
  {
    msg[q..q + 5 + RunLength(msg, q + 5)]
  }

  /** `msg.match(/auth\/[a-z0-9-]+/i)?.[0].toLowerCase()`: the leftmost,
      longest match, lower-cased. */
  function CodeInMessage(msg: string): Option<string> {
    match FindCode(msg, 0)
    case None => None
    case Some(q) => Some(ToLower(MatchAt(msg, q)))
  }

  /** `extractAuthCode(err)` */
  function ExtractAuthCode(err: JsValue): string {
    if Truthy(err) && Get(err, "code").JStr? then Get(err, "code").s
    else if Truthy(Get(err, "cause")) && Get(Get(err, "cause"), "code").JStr? then Get(Get(err, "cause"), "code").s
    else
      var msg := Get(err, "message");
      if msg.JStr? && CodeInMessage(msg.s).Some? then CodeInMessage(msg.s).value
      else "auth/unknown"
  }

  lemma LowerCodeChar(c: char)
    requires IsCodeChar(c)
    ensures IsLowerAscii(LowerChar(c)) || IsDigit(LowerChar(c)) || LowerChar(c) == '-'
  {
  }

  /** A match lower-cased is "auth/" and a non-empty run of lower-case
      letters, digits and dashes. */
  lemma MatchShape(msg: string, q: nat)
    requires CodeAt(msg, q)
    ensures var c := ToLower(MatchAt(msg, q));
      && |c| >= 6 && c[..5] == "auth/"
      && (forall k :: 5 <= k < |c| ==> IsLowerAscii(c[k]) || IsDigit(c[k]) || c[k] == '-')
  {
    var m := MatchAt(msg, q);
    var c := ToLower(m);
    assert m[..5] == msg[q..q + 5];
    assert c[..5] == ToLower(m[..5]);
    forall k | 5 <= k < |c|
      ensures IsLowerAscii(c[k]) || IsDigit(c[k]) || c[k] == '-'
    {
      assert m[k] == msg[q + k];
      LowerCodeChar(m[k]);
    }
  }

  /** A code is found exactly when the pattern occurs; it is the
      leftmost occurrence, lower-cased, extended as far as the run of
      code characters goes. */
  lemma CodeInMessageShape(msg: string)
    ensures CodeInMessage(msg).None? <==> forall k :: 0 <= k <= |msg| ==> !CodeAt(msg, k)
    ensures CodeInMessage(msg).Some? ==>
      var q := FindCode(msg, 0).value;
      && CodeInMessage(msg).value == ToLower(MatchAt(msg, q))
      && (forall k :: 0 <= k < q ==> !CodeAt(msg, k))
      && (q + |MatchAt(msg, q)| == |msg| || !IsCodeChar(msg[q + |MatchAt(msg, q)|]))
    ensures CodeInMessage(msg).Some? ==>
      var c := CodeInMessage(msg).value;
      && |c| >= 6 && c[..5] == "auth/"
      && (forall k :: 5 <= k < |c| ==> IsLowerAscii(c[k]) || IsDigit(c[k]) || c[k] == '-')
  {
    if FindCode(msg, 0).Some? {
      MatchShape(msg, FindCode(msg, 0).value);
    }
  }

  /** The four sources are tried in order: the error's own code, its
      cause's code, a code in its message, then "auth/unknown". */
  lemma ExtractOrder(code: string, causeCode: string, msg: string)
    ensures ExtractAuthCode(JObject(map["code" := JStr(code), "message" := JStr(msg)])) == code
    ensures ExtractAuthCode(JObject(map["cause" := JObject(map["code" := JStr(causeCode)]), "message" := JStr(msg)])) == causeCode
    ensures ExtractAuthCode(JObject(map["message" := JStr(msg)]))
      == if CodeInMessage(msg).Some? then CodeInMessage(msg).value else "auth/unknown"
    ensures ExtractAuthCode(JNull) == "auth/unknown"
    ensures ExtractAuthCode(JObject(map["code" := JNum(Fin(400.0))])) == "auth/unknown"
  {
    var a := JObject(map["code" := JStr(code), "message" := JStr(msg)]);
    assert Get(a, "code") == JStr(code);
    var b := JObject(map["cause" := JObject(map["code" := JStr(causeCode)]), "message" := JStr(msg)]);
    assert Get(b, "code") == JUndefined;
    assert Get(Get(b, "cause"), "code") == JStr(causeCode);
    var c := JObject(map["message" := JStr(msg)]);
    assert Get(c, "code") == JUndefined && Get(c, "cause") == JUndefined;
    assert Get(c, "message") == JStr(msg);
    var d := JObject(map["code" := JNum(Fin(400.0))]);
    assert Get(d, "cause") == JUndefined && Get(d, "message") == JUndefined;
  }

  /** Upper-casing a character keeps it a code character. */
  lemma UpperKeepsCodeChars(s: string)
    ensures |ToUpper(s)| == |s|
    ensures forall k :: 0 <= k < |s| ==> (IsCodeChar(ToUpper(s)[k]) <==> IsCodeChar(s[k]))
  {
  }

  lemma {:induction false} RunLengthUpper(s: string, i: nat)
    requires i <= |s|
    ensures RunLength(ToUpper(s), i) == RunLength(s, i)
    decreases |s| - i
  {
    UpperKeepsCodeChars(s);
    if i < |s| && IsCodeChar(s[i]) {
      RunLengthUpper(s, i + 1);
    }
  }

  lemma CodeAtUpper(s: string, p: nat)
    ensures CodeAt(ToUpper(s), p) <==> CodeAt(s, p)
  {
    UpperKeepsCodeChars(s);
    if p + 6 <= |s| {
      assert ToUpper(s)[p..p + 5] == ToUpper(s[p..p + 5]);
      LowerOfUpper(s[p..p + 5]);
    }
  }

  lemma {:induction false} FindCodeUpper(s: string, p: nat)
    requires p <= |s|
    ensures FindCode(ToUpper(s), p) == FindCode(s, p)
    decreases |s| - p
  {
    CodeAtUpper(s, p);
    if !CodeAt(s, p) && p < |s| {
      FindCodeUpper(s, p + 1);
    }
  }

  /** The message is searched without regard to case: upper-casing it
      finds the same code. */
  lemma CodeInMessageCaseInsensitive(msg: string)
    ensures CodeInMessage(ToUpper(msg)) == CodeInMessage(msg)
  {
    var u := ToUpper(msg);
    assert FindCode(u, 0) == FindCode(msg, 0) by {
      FindCodeUpper(msg, 0);
    }
    if FindCode(msg, 0).Some? {
      var q := FindCode(msg, 0).value;
      MatchAtUpper(msg, q);
      assert CodeInMessage(u) == Some(ToLower(MatchAt(u, q)));
    }
  }

  /** The match at a position, lower-cased, does not depend on case. */
  lemma MatchAtUpper(msg: string, q: nat)
    requires CodeAt(msg, q)
    ensures CodeAt(ToUpper(msg), q)
    ensures ToLower(MatchAt(ToUpper(msg), q)) == ToLower(MatchAt(msg, q))
  {
    CodeAtUpper(msg, q);
    MatchAtUpperCase(msg, q);
    LowerOfUpper(MatchAt(msg, q));
  }

  lemma MatchAtUpperCase(msg: string, q: nat)
    requires CodeAt(msg, q) && CodeAt(ToUpper(msg), q)
    ensures MatchAt(ToUpper(msg), q) == ToUpper(MatchAt(msg, q))
  {
    var n := RunLength(msg, q + 5);
    assert RunLength(ToUpper(msg), q + 5) == n by {
      RunLengthUpper(msg, q + 5);
    }
    UpperSlice(msg, q, q + 5 + n);
  }

  lemma UpperSlice(s: string, i: nat, j: nat)
    requires i <= j <= |s|
    ensures ToUpper(s)[i..j] == ToUpper(s[i..j])
  {
  }

  // ---------------------------------------------------------------------
  // mapAuthCodeToMessage
  // ---------------------------------------------------------------------

  /** The input an error is shown under. */
  datatype Target = Id | Pass | Form

  datatype Feedback = Feedback(target: Target, msg: string)

  const GenericError := Feedback(Form, "Ocurrió un error. Intenta de nuevo.")

  /** `mapAuthCodeToMessage(code)` */
  function MapAuthCodeToMessage(code: string): Feedback {
    match ToLower(code)
    case "auth/invalid-email" => Feedback(Id, "El correo no es válido.")
    case "auth/user-not-found" => Feedback(Id, "No existe una cuenta con ese correo/usuario.")
    case "auth/wrong-password" => Feedback(Pass, "Contraseña incorrecta.")
    case "auth/invalid-credential" => Feedback(Pass, "Contraseña incorrecta.")
    case "auth/invalid-login-credentials" => Feedback(Pass, "Contraseña incorrecta.")
    case "auth/too-many-requests" => Feedback(Form, "Demasiados intentos. Intenta más tarde.")
    case "auth/user-disabled" => Feedback(Form, "Tu cuenta está deshabilitada.")
    case "auth/network-request-failed" => Feedback(Form, "Error de red. Revisa tu conexión.")
    case "auth/popup-closed-by-user" => Feedback(Form, "Cerraste la ventana de Google antes de terminar.")
    case "auth/cancelled-popup-request" => Feedback(Form, "Ya hay un inicio con Google en curso.")
    case "auth/popup-blocked" => Feedback(Form, "El navegador bloqueó la ventana de Google. Permite pop-ups.")
    case "auth/operation-not-supported-in-this-environment" => Feedback(Form, "Operación no soportada en este entorno.")
    case "auth/unsupported-persistence-type" => Feedback(Form, "Este navegador no soporta el tipo de sesión elegido.")
    case _ => GenericError
  }

  const IdCodes: set<string> := {"auth/invalid-email", "auth/user-not-found"}
  const PassCodes: set<string> := {"auth/wrong-password", "auth/invalid-credential", "auth/invalid-login-credentials"}
  const FormCodes: set<string> := {
    "auth/too-many-requests", "auth/user-disabled", "auth/network-request-failed",
    "auth/popup-closed-by-user", "auth/cancelled-popup-request", "auth/popup-blocked",
    "auth/operation-not-supported-in-this-environment", "auth/unsupported-persistence-type"}

  /** The identifier field gets the two account errors, the password
      field the three credential errors (all with one message), and the
      form everything else, with the generic message for unknown codes. */
  lemma Targets(code: string)
    ensures MapAuthCodeToMessage(code).target == Id <==> ToLower(code) in IdCodes
    ensures MapAuthCodeToMessage(code).target == Pass <==> ToLower(code) in PassCodes
    ensures ToLower(code) in PassCodes ==> MapAuthCodeToMessage(code).msg == "Contraseña incorrecta."
    ensures ToLower(code) !in IdCodes + PassCodes + FormCodes ==> MapAuthCodeToMessage(code) == GenericError
  {
  }

  /** Codes are compared without regard to case, and the fallback code
      of `extractAuthCode` gets the generic message. */
  lemma {:induction false} MapCaseInsensitive(code: string)
    ensures MapAuthCodeToMessage(ToUpper(code)) == MapAuthCodeToMessage(code)
    ensures MapAuthCodeToMessage("auth/unknown") == GenericError
  {
    LowerOfUpper(code);
    assert ToLower("auth/unknown") == "auth/unknown";
  }

  // ---------------------------------------------------------------------
  // validate
  // ---------------------------------------------------------------------

  /** The messages shown under the identifier and password inputs. */
  datatype FieldErrors = FieldErrors(id: Option<string>, pass: Option<string>)

  /** `validate(identifier, password)` */
  function Validate(identifier: string, password: string): FieldErrors {
    if Trim(identifier) == "" then FieldErrors(Some("Ingresa tu correo, usuario o celular."), None)
    else if password == "" then FieldErrors(None, Some("Ingresa tu contraseña."))
    else if |password| < 6 then FieldErrors(None, Some("La contraseña debe tener al menos 6 caracteres."))
    else FieldErrors(None, None)
  }

  /** At most one message is set; none is set exactly when the trimmed
      identifier is non-empty and the password has six characters or
      more; a blank identifier is reported first, whatever the password. */
  lemma ValidateOutcome(identifier: string, password: string)
    ensures var e := Validate(identifier, password);
      && !(e.id.Some? && e.pass.Some?)
      && (e == FieldErrors(None, None) <==> Trim(identifier) != "" && |password| >= 6)
      && (e.id.Some? <==> Trim(identifier) == "")
      && (Trim(identifier) != "" && 0 < |password| < 6 ==> e.pass == Some("La contraseña debe tener al menos 6 caracteres."))
  {
  }

  /** Surrounding blanks in the identifier do not matter. */
  lemma ValidateTrimsIdentifier(identifier: string, password: string)
    ensures Validate(Trim(identifier), password) == Validate(identifier, password)
  {
    TrimTwice(identifier);
  }
}
