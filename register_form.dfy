/** The stand-alone sign-up form: its own variant of the phone
    normaliser, which returns only the display, its field checks (with an
    address), the payload it submits and its error mapping. */
module RegisterForm {
  import opened Wrappers
  import opened Js
  import opened Phone
  import opened Forms

  /** The national part this variant displays: the digits after "57" when
      they start with 3, or all digits when they start with 3; none
      otherwise. */
  function Mobile(raw: string): (r: Option<string>)
    ensures r.Some? ==> AllDigits(r.value) && r.value != [] && r.value[0] == '3'
  {
    MobileOf(KeepDigits(raw))
  }

  function MobileOf(digits: string): (r: Option<string>)
    requires AllDigits(digits)
    ensures r.Some? ==> AllDigits(r.value) && r.value != [] && r.value[0] == '3'
  {
    if StartsWith(digits, "57") then
      var rest := digits[2..];
      if StartsWith(rest, "3") then Some(rest) else None
    else if StartsWith(digits, "3") then Some(digits)
    else None
  }

  /** `normalizeColPhone(raw)` of this form. */
  function NormalizeColPhone(raw: string): string {
    var digits := KeepDigits(raw);
    if StartsWith(digits, "57") then
      var rest := digits[2..];
      if StartsWith(rest, "3") then Grouped(rest) else "+57 "
    else if StartsWith(digits, "3") then Grouped(Slice(digits, 0, 10))
    else "+57 "
  }

  /** `/^\+573\d{9}$/` on the value with its white space removed. */
  predicate CelularOk(celular: string) {
    var s := StripWhite(celular);
    |s| == 13 && s[..4] == "+573" && AllDigits(s[4..])
  }

  // ---------------------------------------------------------------------
  // Properties of the normaliser
  // ---------------------------------------------------------------------

  /** The output is the display of the national part, or "+57 " when
      there is none. */
  lemma NormalizeLayout(raw: string)
    ensures Mobile(raw).Some? ==> NormalizeColPhone(raw) == Layout(Mobile(raw).value)
    ensures Mobile(raw).None? ==> NormalizeColPhone(raw) == "+57 "
  {
    var digits := KeepDigits(raw);
    if StartsWith(digits, "57") {
      var rest := digits[2..];
      if StartsWith(rest, "3") {
        GroupedLayout(rest);
      }
    } else if StartsWith(digits, "3") {
      var ten := Slice(digits, 0, 10);
      assert ten[0] == digits[0];
      SliceDigits(digits, 0, 10);
      GroupedLayout(ten);
      LayoutFirstTen(digits);
    }
  }

  /** The output always starts with "+57", followed by a space. */
  lemma StartsWithCountryCode(raw: string)
    ensures StartsWith(NormalizeColPhone(raw), "+57 ")
  {
    NormalizeLayout(raw);
    if Mobile(raw).Some? {
      LayoutPrefix(Mobile(raw).value);
    }
  }

  /** Digits that start with "57" but continue with anything other than a
      3 give exactly "+57 ". */
  lemma NotMobileAfterCode(raw: string)
    requires StartsWith(KeepDigits(raw), "57") && !StartsWith(KeepDigits(raw)[2..], "3")
    ensures NormalizeColPhone(raw) == "+57 "
  {
  }

  /** The output keeps at most ten national digits after the code. */
  lemma AtMostTenDigits(raw: string)
    ensures var d := KeepDigits(NormalizeColPhone(raw));
      StartsWith(d, "57") && |d| <= 12
    ensures Mobile(raw).Some? ==> KeepDigits(NormalizeColPhone(raw)) == "57" + Slice(Mobile(raw).value, 0, 10)
  {
    NormalizeLayout(raw);
    if Mobile(raw).Some? {
      LayoutDigits(Mobile(raw).value);
    } else {
      BareDigits();
    }
  }

  /** The national part read back from the output is the first ten digits
      of the original one. */
  lemma MobileOfOutput(raw: string)
    ensures Mobile(raw).Some? ==> Mobile(NormalizeColPhone(raw)) == Some(Slice(Mobile(raw).value, 0, 10))
    ensures Mobile(raw).None? ==> Mobile(NormalizeColPhone(raw)).None?
  {
    AtMostTenDigits(raw);
    var d := KeepDigits(NormalizeColPhone(raw));
    assert d[..2] == "57";
    if Mobile(raw).Some? {
      var m := Mobile(raw).value;
      assert d[2..] == Slice(m, 0, 10);
      assert d[2..][..1] == "3" by {
        assert Slice(m, 0, 10)[0] == m[0];
      }
    } else {
      NormalizeLayout(raw);
      BareDigits();
    }
  }

  /** Normalising twice is normalising once: the change handler may apply
      it to its own output. */
  lemma NormalizeIdempotent(raw: string)
    ensures NormalizeColPhone(NormalizeColPhone(raw)) == NormalizeColPhone(raw)
  {
    var out := NormalizeColPhone(raw);
    MobileOfOutput(raw);
    NormalizeLayout(raw);
    NormalizeLayout(out);
    if Mobile(raw).Some? {
      LayoutFirstTen(Mobile(raw).value);
    }
  }

  /** A normalised celular passes the check exactly when the national
      part has at least ten digits, and then the submitted value is "+57"
      and its first ten. */
  lemma NormalizedCelular(raw: string)
    ensures CelularOk(NormalizeColPhone(raw)) <==> Mobile(raw).Some? && |Mobile(raw).value| >= 10
    ensures Mobile(raw).Some? && |Mobile(raw).value| >= 10 ==>
      StripWhite(NormalizeColPhone(raw)) == "+57" + Mobile(raw).value[..10]
  {
    NormalizeLayout(raw);
    if Mobile(raw).Some? {
      var m := Mobile(raw).value;
      LayoutCompact(m);
      CelularOfMobile(m);
    } else {
      BareCompact();
    }
  }

  /** The display of a national part passes the check exactly when the
      part has at least ten digits. */
  lemma CelularOfMobile(m: string)
    requires AllDigits(m) && m != [] && m[0] == '3'
    requires StripWhite(Layout(m)) == "+57" + Slice(m, 0, 10)
    ensures CelularOk(Layout(m)) <==> |m| >= 10
    ensures |m| >= 10 ==> StripWhite(Layout(m)) == "+57" + m[..10]
  {
    var s := "+57" + Slice(m, 0, 10);
    if |m| >= 10 {
      assert Slice(m, 0, 10) == m[..10];
      assert s[..4] == "+573";
      assert s[4..] == m[1..10];
    } else {
      assert Slice(m, 0, 10) == m;
      assert |s| < 13;
    }
  }

  // ---------------------------------------------------------------------
  // The form
  // ---------------------------------------------------------------------

  datatype LocalForm = LocalForm(
    email: string,
    password: string,
    confirm: string,
    name: string,
    apellido: string,
    usuario: string,
    agree: bool,
    cedula: string,
    celular: string,
    direccion: string,
    fechaNacimiento: string,
    genero: string)

  /** What the form hands to the registration call. */
  datatype Registration = Registration(
    email: string,
    password: string,
    name: string,
    usuario: Option<string>,
    apellido: string,
    cedula: string,
    celular: string,
    direccion: string,
    fechaNacimiento: string,
    genero: string)

  const InitialForm := LocalForm("", "", "", "", "", "", false, "", "", "", "", "")

  /** An address longer than five characters once trimmed. */
  predicate DireccionOk(direccion: string) {
    |Trim(direccion)| > 5
  }

  /** `canSubmit` */
  predicate CanSubmit(f: LocalForm) {
    && EmailOk(f.email)
    && NameOk(f.name)
    && NameOk(f.apellido)
    && PassRule(f.password) && f.password == f.confirm
    && (f.usuario == "" || UsuarioRule(Trim(f.usuario)))
    && CedulaOk(f.cedula)
    && CelularOk(f.celular)
    && DireccionOk(f.direccion)
    && f.fechaNacimiento != ""
    && f.genero != ""
    && f.agree
  }

  /** The arguments of `registerEmail` in `handleSubmit`. */
  function Payload(f: LocalForm): Registration {
    Registration(
      Trim(f.email), f.password, Trim(f.name),
      if Trim(f.usuario) == "" then None else Some(Trim(f.usuario)),
      Trim(f.apellido), Trim(f.cedula), StripWhite(f.celular), Trim(f.direccion),
      f.fechaNacimiento, f.genero)
  }

  /** The `name` attributes of the form's inputs. */
  datatype Field =
    | Email | Password | Confirm | Name | Apellido | Usuario | Agree
    | Cedula | Celular | Direccion | FechaNacimiento | Genero

  /** `handleChange`: the input's field takes the value typed, the
      agreement checkbox its state, and the celular field the normalised
      value. */
  function HandleChange(f: LocalForm, field: Field, value: string, checked: bool): LocalForm {
    match field
    case Email => f.(email := value)
    case Password => f.(password := value)
    case Confirm => f.(confirm := value)
    case Name => f.(name := value)
    case Apellido => f.(apellido := value)
    case Usuario => f.(usuario := value)
    case Agree => f.(agree := checked)
    case Cedula => f.(cedula := value)
    case Celular => f.(celular := NormalizeColPhone(value))
    case Direccion => f.(direccion := value)
    case FechaNacimiento => f.(fechaNacimiento := value)
    case Genero => f.(genero := value)
  }

  /** A submitted form sends a "+573" number of thirteen characters, an
      address of more than five characters and a cedula of at least eight
      digits; the empty form cannot be submitted. */
  lemma SubmittedPayload(f: LocalForm)
    requires CanSubmit(f)
    ensures var r := Payload(f);
      && |r.celular| == 13 && r.celular[..4] == "+573" && AllDigits(r.celular[4..])
      && |r.direccion| > 5
      && |r.cedula| >= 8 && AllDigits(r.cedula)
      && (r.usuario.None? <==> f.usuario == "")
  {
    if f.usuario != "" {
      assert Trim(f.usuario) != "";
    }
  }

  lemma InitialBlocked()
    ensures !CanSubmit(InitialForm)
  {
  }

  /** The address is what this form adds: with it, the other checks of
      the form decide. */
  lemma DireccionDecides(f: LocalForm, direccion: string)
    requires CanSubmit(f)
    ensures CanSubmit(f.(direccion := direccion)) <==> |Trim(direccion)| > 5
  {
  }

  /** A celular entered through the change handler passes exactly when
      ten national digits were typed after the code. */
  lemma TypedCelular(f: LocalForm, value: string, checked: bool)
    ensures CelularOk(HandleChange(f, Celular, value, checked).celular)
      <==> Mobile(value).Some? && |Mobile(value).value| >= 10
  {
    NormalizedCelular(value);
  }

  // ---------------------------------------------------------------------
  // Error messages
  // ---------------------------------------------------------------------

  const ErrorKeys: seq<string> := ["email-already-in-use", "invalid-email", "weak-password", "network-request-failed"]

  const ErrorMessages: seq<string> := [
    "Ese correo ya está registrado.",
    "El correo no es válido.",
    "La contraseña es demasiado débil (mínimo 8, mayúscula y número).",
    "Problema de red. Intenta de nuevo."]

  /** `mapAuthError(message)` of this form. */
  function MapAuthError(message: Option<string>): Option<string> {
    if message.None? || message.value == "" then None
    else
      var m := ToLower(message.value);
      if Contains(m, "email-already-in-use") then Some("Ese correo ya está registrado.")
      else if Contains(m, "invalid-email") then Some("El correo no es válido.")
      else if Contains(m, "weak-password") then Some("La contraseña es demasiado débil (mínimo 8, mayúscula y número).")
      else if Contains(m, "network-request-failed") then Some("Problema de red. Intenta de nuevo.")
      else None
  }

  /** The mapping is the first-match lookup in its table of keys. */
  lemma MapAuthErrorTable(message: Option<string>)
    ensures message.None? || message == Some("") ==> MapAuthError(message) == None
    ensures message.Some? && message.value != "" ==>
      MapAuthError(message) == Lookup(ErrorKeys, ErrorMessages, ToLower(message.value))
  {
    if message.Some? && message.value != "" {
      var m := ToLower(message.value);
      assert FirstKey(ErrorKeys, m, 4) == None;
      assert FirstKey(ErrorKeys, m, 3) == if Contains(m, ErrorKeys[3]) then Some(3) else None;
      assert FirstKey(ErrorKeys, m, 2) == if Contains(m, ErrorKeys[2]) then Some(2) else FirstKey(ErrorKeys, m, 3);
      assert FirstKey(ErrorKeys, m, 1) == if Contains(m, ErrorKeys[1]) then Some(1) else FirstKey(ErrorKeys, m, 2);
      assert FirstKey(ErrorKeys, m, 0) == if Contains(m, ErrorKeys[0]) then Some(0) else FirstKey(ErrorKeys, m, 1);
    }
  }

  /** The match ignores the case of the message. */
  lemma MapAuthErrorCaseInsensitive(message: string)
    ensures MapAuthError(Some(ToUpper(message))) == MapAuthError(Some(message))
  {
    LowerOfUpper(message);
  }
}
