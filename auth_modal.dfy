/** AuthModal: the sign-in and sign-up dialog. Modelled here are its
    Colombian phone normaliser, its sign-up form checks and the payload
    the form submits, and its mapping of Firebase error messages. */
module AuthModal {
  import opened Wrappers
  import opened Js
  import opened Phone
  import opened Forms

  /** What `normalizeColPhone` returns. */
  datatype PhoneNorm = PhoneNorm(pretty: string, e164: string, valid: bool)

  /** The national part: the digits after a leading "57", or all of them
      when they start with "3", or nothing. */
  function National(raw: string): (rest: string)
    ensures AllDigits(rest)
  {
    NationalOf(KeepDigits(raw))
  }

  function NationalOf(digits: string): (rest: string)
    requires AllDigits(digits)
    ensures AllDigits(rest)
  {
    if StartsWith(digits, "57") then digits[2..]
    else if StartsWith(digits, "3") then digits
    else ""
  }

  /** `/^3\d{9}$/` on the national part. */
  predicate MobileNumber(rest: string) {
    |rest| == 10 && rest[0] == '3' && AllDigits(rest)
  }

  /** `normalizeColPhone(raw)` */
  function NormalizeColPhone(raw: string): PhoneNorm {
    var rest := National(raw);
    var valid := MobileNumber(rest);
    PhoneNorm(
      if rest != "" then Grouped(rest) else "+57 ",
      if valid then "+57" + rest else "+57",
      valid)
  }

  // ---------------------------------------------------------------------
  // Properties of the normaliser
  // ---------------------------------------------------------------------

  /** The number is valid exactly when the digits typed are "57" and a
      ten-digit mobile number starting with 3, or that ten-digit number
      alone. */
  lemma ValidDigits(raw: string)
    ensures var d := KeepDigits(raw);
      NormalizeColPhone(raw).valid <==> (|d| == 12 && d[..3] == "573") || (|d| == 10 && d[0] == '3')
  {
    MobileDigits(KeepDigits(raw));
  }

  lemma MobileDigits(d: string)
    requires AllDigits(d)
    ensures MobileNumber(NationalOf(d)) <==> (|d| == 12 && d[..3] == "573") || (|d| == 10 && d[0] == '3')
  {
    if |d| == 12 && d[..3] == "573" {
      assert d[..2] == "57";
      assert d[2..][0] == d[..3][2];
    }
    if |d| == 10 && d[0] == '3' {
      assert !StartsWith(d, "57");
      assert d[..1] == "3";
    }
    if StartsWith(d, "57") && MobileNumber(d[2..]) {
      assert d[..3] == d[..2] + [d[2..][0]];
    }
  }

  /** The E.164 form is "+57" and the national part when the number is
      valid, then thirteen characters that the display shows with its
      spaces removed; otherwise it is "+57" alone. */
  lemma E164Form(raw: string)
    ensures var n := NormalizeColPhone(raw);
      && (n.valid ==> n.e164 == "+57" + National(raw) && |n.e164| == 13 && StripWhite(n.pretty) == n.e164)
      && (!n.valid ==> n.e164 == "+57")
  {
    var n := NormalizeColPhone(raw);
    var rest := National(raw);
    if n.valid {
      GroupedLayout(rest);
      LayoutCompact(rest);
      assert Slice(rest, 0, 10) == rest;
    }
  }

  /** The display starts with "+57 " and shows at most the first ten
      digits of the national part, grouped 3-3-4. */
  lemma PrettyShape(raw: string)
    ensures var p := NormalizeColPhone(raw).pretty;
      && StartsWith(p, "+57 ")
      && KeepDigits(p) == "57" + Slice(National(raw), 0, 10)
      && (National(raw) != "" ==> p == Layout(National(raw)))
  {
    var rest := National(raw);
    if rest != "" {
      GroupedLayout(rest);
      LayoutPrefix(rest);
      LayoutDigits(rest);
    } else {
      BareDigits();
    }
  }

  /** The national part read back from the display is the first ten
      digits of the original one. */
  lemma NationalOfPretty(raw: string)
    ensures National(NormalizeColPhone(raw).pretty) == Slice(National(raw), 0, 10)
  {
    var rest := National(raw);
    PrettyShape(raw);
    var d := KeepDigits(NormalizeColPhone(raw).pretty);
    assert d == "57" + Slice(rest, 0, 10);
    assert d[..2] == "57";
    assert d[2..] == Slice(rest, 0, 10);
  }

  /** Normalising the display again gives the same display: the field
      that feeds it back on every keystroke is stable. */
  lemma PrettyIdempotent(raw: string)
    ensures var p := NormalizeColPhone(raw).pretty;
      NormalizeColPhone(p).pretty == p
  {
    var rest := National(raw);
    var p := NormalizeColPhone(raw).pretty;
    NationalOfPretty(raw);
    var again := National(p);
    if rest != "" {
      assert again != "" by {
        assert Slice(rest, 0, 10)[0] == rest[0];
      }
      GroupedLayout(rest);
      GroupedLayout(again);
      LayoutFirstTen(rest);
    }
  }

  /** The display of more than ten national digits is itself valid when
      the national part starts with 3: extra digits are dropped, not
      refused. */
  lemma PrettyValidity(raw: string)
    ensures NormalizeColPhone(NormalizeColPhone(raw).pretty).valid
      <==> |National(raw)| >= 10 && National(raw)[0] == '3'
  {
    NationalOfPretty(raw);
    var rest := National(raw);
    if |rest| >= 10 {
      assert Slice(rest, 0, 10)[0] == rest[0];
    }
  }

  /** The field's initial value is already normalised and not valid. */
  lemma InitialCelular()
    ensures NormalizeColPhone("+57 ") == PhoneNorm("+57 ", "+57", false)
  {
    BareDigits();
    assert KeepDigits("+57 ")[2..] == "";
  }

  // ---------------------------------------------------------------------
  // The sign-up form
  // ---------------------------------------------------------------------

  /** The sign-up form's fields. */
  datatype RegisterFields = RegisterFields(
    name: string,
    apellido: string,
    usuario: string,
    cedula: string,
    celular: string,
    fechaNacimiento: string,
    genero: string,
    email: string,
    password: string,
    confirm: string,
    agree: bool)

  /** What the form hands to the registration call. */
  datatype Registration = Registration(
    email: string,
    password: string,
    name: string,
    usuario: Option<string>,
    apellido: string,
    cedula: string,
    celular: string,
    fechaNacimiento: string,
    genero: string)

  predicate PassOk(f: RegisterFields) {
    PassRule(f.password) && f.password == f.confirm
  }

  /** An empty username is allowed; otherwise its trim must follow the
      rule. */
  predicate UsuarioOk(f: RegisterFields) {
    f.usuario == "" || UsuarioRule(Trim(f.usuario))
  }

  /** `canSubmit` */
  predicate CanSubmit(f: RegisterFields) {
    && EmailOk(f.email)
    && NameOk(f.name)
    && NameOk(f.apellido)
    && PassOk(f)
    && UsuarioOk(f)
    && CedulaOk(f.cedula)
    && NormalizeColPhone(f.celular).valid
    && f.fechaNacimiento != ""
    && f.genero != ""
    && f.agree
  }

  /** The arguments of `registerEmail` in `submit`. */
  function Payload(f: RegisterFields): Registration {
    Registration(
      Trim(f.email), f.password, Trim(f.name),
      if Trim(f.usuario) == "" then None else Some(Trim(f.usuario)),
      Trim(f.apellido), Trim(f.cedula), NormalizeColPhone(f.celular).e164,
      f.fechaNacimiento, f.genero)
  }

  /** The `name` attributes of the form's inputs. */
  datatype Field =
    | Name | Apellido | Usuario | Cedula | Celular | FechaNacimiento
    | Genero | Email | Password | Confirm | Agree

  /** `handleChange`: the input's field takes the value typed, the
      agreement checkbox its state, and the celular field the display of
      what was typed. */
  function HandleChange(f: RegisterFields, field: Field, value: string, checked: bool): RegisterFields {
    match field
    case Name => f.(name := value)
    case Apellido => f.(apellido := value)
    case Usuario => f.(usuario := value)
    case Cedula => f.(cedula := value)
    case Celular => f.(celular := NormalizeColPhone(value).pretty)
    case FechaNacimiento => f.(fechaNacimiento := value)
    case Genero => f.(genero := value)
    case Email => f.(email := value)
    case Password => f.(password := value)
    case Confirm => f.(confirm := value)
    case Agree => f.(agree := checked)
  }

  /** A form that may be submitted sends a password of at least eight
      characters equal to its confirmation, a cedula of at least eight
      digits, a "+573" number of thirteen characters, and a username
      exactly when one was typed; the terms were accepted. */
  lemma SubmittedPayload(f: RegisterFields)
    requires CanSubmit(f)
    ensures var r := Payload(f);
      && |r.password| >= 8 && f.password == f.confirm
      && |r.cedula| >= 8 && AllDigits(r.cedula)
      && |r.celular| == 13 && r.celular[..4] == "+573" && AllDigits(r.celular[3..])
      && (r.usuario.None? <==> f.usuario == "")
      && (r.usuario.Some? ==> UsuarioRule(r.usuario.value))
      && f.agree
  {
    ValidE164(f.celular);
    if f.usuario != "" {
      assert Trim(f.usuario) != "";
    }
  }

  /** A valid number's E.164 form is "+573" and nine more digits. */
  lemma ValidE164(raw: string)
    requires NormalizeColPhone(raw).valid
    ensures var e := NormalizeColPhone(raw).e164;
      |e| == 13 && e[..4] == "+573" && AllDigits(e[3..])
  {
    var rest := National(raw);
    var e := NormalizeColPhone(raw).e164;
    assert e == "+57" + rest;
    assert e[3..] == rest;
    assert e[..4] == "+57" + [rest[0]];
  }

  /** The username is optional: clearing it never blocks a submission. */
  lemma UsuarioOptional(f: RegisterFields)
    requires CanSubmit(f)
    ensures CanSubmit(f.(usuario := ""))
  {
  }

  /** Every check is needed: a missing agreement, a mismatched
      confirmation or a seven-digit cedula each block the submission. */
  lemma SubmitNeedsEach(f: RegisterFields)
    ensures !f.agree ==> !CanSubmit(f)
    ensures f.password != f.confirm ==> !CanSubmit(f)
    ensures |Trim(f.cedula)| < 8 ==> !CanSubmit(f)
    ensures f.fechaNacimiento == "" || f.genero == "" ==> !CanSubmit(f)
  {
  }

  /** A celular typed through the change handler is valid exactly when
      its national part has at least ten digits and starts with 3. */
  lemma TypedCelular(f: RegisterFields, value: string, checked: bool)
    ensures NormalizeColPhone(HandleChange(f, Celular, value, checked).celular).valid
      <==> |National(value)| >= 10 && National(value)[0] == '3'
  {
    PrettyValidity(value);
  }

  // ---------------------------------------------------------------------
  // Error messages
  // ---------------------------------------------------------------------

  const ErrorKeys: seq<string> := [
    "invalid-credential", "email-already-in-use", "invalid-email", "wrong-password",
    "user-not-found", "too-many-requests", "network-request-failed"]

  const ErrorMessages: seq<string> := [
    "Credenciales inválidas: correo/usuario o contraseña incorrectos.",
    "Ese correo ya está registrado.",
    "El correo no es válido.",
    "Contraseña incorrecta.",
    "No existe una cuenta con ese usuario/correo.",
    "Demasiados intentos. Intenta más tarde.",
    "Problema de red. Intenta de nuevo."]

  /** `mapAuthError(message)` */
  function MapAuthError(message: Option<string>): Option<string> {
    if message.None? || message.value == "" then None
    else
      var m := ToLower(message.value);
      if Contains(m, "invalid-credential") then Some("Credenciales inválidas: correo/usuario o contraseña incorrectos.")
      else if Contains(m, "email-already-in-use") then Some("Ese correo ya está registrado.")
      else if Contains(m, "invalid-email") then Some("El correo no es válido.")
      else if Contains(m, "wrong-password") then Some("Contraseña incorrecta.")
      else if Contains(m, "user-not-found") then Some("No existe una cuenta con ese usuario/correo.")
      else if Contains(m, "too-many-requests") then Some("Demasiados intentos. Intenta más tarde.")
      else if Contains(m, "network-request-failed") then Some("Problema de red. Intenta de nuevo.")
      else None
  }

  /** The mapping is the first-match lookup in the table of keys: no
      message for an absent or empty one, else the message of the first
      key the lower-cased text contains, else none. */
  lemma MapAuthErrorTable(message: Option<string>)
    ensures message.None? || message == Some("") ==> MapAuthError(message) == None
    ensures message.Some? && message.value != "" ==>
      MapAuthError(message) == Lookup(ErrorKeys, ErrorMessages, ToLower(message.value))
  {
    if message.Some? && message.value != "" {
      var m := ToLower(message.value);
      assert FirstKey(ErrorKeys, m, 7) == None;
      assert FirstKey(ErrorKeys, m, 6) == if Contains(m, ErrorKeys[6]) then Some(6) else None;
      assert FirstKey(ErrorKeys, m, 5) == if Contains(m, ErrorKeys[5]) then Some(5) else FirstKey(ErrorKeys, m, 6);
      assert FirstKey(ErrorKeys, m, 4) == if Contains(m, ErrorKeys[4]) then Some(4) else FirstKey(ErrorKeys, m, 5);
      assert FirstKey(ErrorKeys, m, 3) == if Contains(m, ErrorKeys[3]) then Some(3) else FirstKey(ErrorKeys, m, 4);
      assert FirstKey(ErrorKeys, m, 2) == if Contains(m, ErrorKeys[2]) then Some(2) else FirstKey(ErrorKeys, m, 3);
      assert FirstKey(ErrorKeys, m, 1) == if Contains(m, ErrorKeys[1]) then Some(1) else FirstKey(ErrorKeys, m, 2);
      assert FirstKey(ErrorKeys, m, 0) == if Contains(m, ErrorKeys[0]) then Some(0) else FirstKey(ErrorKeys, m, 1);
    }
  }

  /** The match ignores the case of the message. */
  lemma MapAuthErrorCaseInsensitive(message: string)
    ensures MapAuthError(Some(ToUpper(message))) == MapAuthError(Some(message))
    ensures MapAuthError(Some(ToLower(message))) == MapAuthError(Some(message))
  {
    LowerOfUpper(message);
    ToLowerTwice(message);
  }
}
