/** relatorios.py, the two display formatters used by the prescription
    reports: placeholders for missing values and the Brazilian phone layout. */
module Relatorios {
  import opened Common
  import Mask

  const NotInformed := "Não informado"

  /** The values `format_none` treats as missing: `None`, "none", "None", "". */
  predicate IsPlaceholder(v: Value) {
    v == Null || v == Str("none") || v == Str("None") || v == Str("")
  }

  /** `format_none`: a placeholder becomes "Não informado", anything else is
      passed through untouched. */
  function FormatNone(v: Value): (r: Value)
    ensures IsPlaceholder(v) ==> r == Str(NotInformed)
    ensures !IsPlaceholder(v) ==> r == v
    ensures !IsPlaceholder(r)
  {
    if IsPlaceholder(v) then Str(NotInformed) else v
  }

  /** `str(n)` for a natural number: its decimal digits, most significant first. */
  function NatToString(n: nat): (s: string)
    ensures |s| >= 1 && AllDigits(s)
    decreases n
  {
    if n < 10 then [DigitChar(n)] else NatToString(n / 10) + [DigitChar(n % 10)]
  }

  /** `str(value)` for a value that is not `None`. */
  function Show(v: Value): string {
    match v
    case Null => "None"
    case Str(s) => s
    case Num(n) => if n < 0 then "-" + NatToString(-n) else NatToString(n)
  }

  /** "(DD) NNNNN-NNNN" for 11 digits, "(DD) NNNN-NNNN" for 10. */
  function PhoneLayout(d: string): string
    requires |d| == 10 || |d| == 11
  {
    var split := |d| - 4;
    "(" + d[0..2] + ") " + d[2..split] + "-" + d[split..]
  }

  lemma OpeningDigits(a: string)
    requires AllDigits(a)
    ensures Digits("(" + a) == a
  {
    DigitsSkip([], "(", a);
    assert [] + "(" + a == "(" + a;
  }

  lemma MiddleDigits(s: string, sep: string, b: string)
    requires AllDigits(b) && (sep == ") " || sep == "-")
    ensures Digits(s + sep + b) == Digits(s) + b
  {
    DigitsSkip(s, sep, b);
  }

  /** The layout keeps exactly the digits it was given. */
  lemma PhoneLayoutDigits(d: string)
    requires (|d| == 10 || |d| == 11) && AllDigits(d)
    ensures Digits(PhoneLayout(d)) == d
  {
    var split := |d| - 4;
    var a, b, c := d[0..2], d[2..split], d[split..];
    assert AllDigits(a) && AllDigits(b) && AllDigits(c);
    OpeningDigits(a);
    MiddleDigits("(" + a, ") ", b);
    MiddleDigits("(" + a + ") " + b, "-", c);
    assert d == a + b + c;
  }

  /** `format_phone`: `None` stays `None`; 10 or 11 digits get the layout;
      any other value is returned as its string form. */
  function FormatPhone(phone: Value): (r: Option<string>)
    ensures r.None? <==> phone == Null
    ensures r.Some? ==> Digits(r.value) == Digits(Show(phone))
    ensures r.Some? && |Digits(Show(phone))| != 10 && |Digits(Show(phone))| != 11 ==> r.value == Show(phone)
    ensures r.Some? && |Digits(Show(phone))| in {10, 11} ==> r.value == PhoneLayout(Digits(Show(phone)))
  {
    if phone == Null then None
    else
      var text := Show(phone);
      var digits := Digits(text);
      if |digits| == 10 || |digits| == 11 then
        PhoneLayoutDigits(digits);
        Some(PhoneLayout(digits))
      else Some(text)
  }

  /** The two layouts slice the digits as "(AA) XXXXX-XXXX" for eleven
      digits and "(AA) XXXX-XXXX" for ten. */
  lemma PhoneLayoutSlices(phone: Value)
    requires phone != Null
    ensures var d := Digits(Show(phone));
      && (|d| == 11 ==> FormatPhone(phone) == Some("(" + d[..2] + ") " + d[2..7] + "-" + d[7..]))
      && (|d| == 10 ==> FormatPhone(phone) == Some("(" + d[..2] + ") " + d[2..6] + "-" + d[6..]))
  {
  }

  /** Formatting an already formatted phone changes nothing. */
  lemma FormatPhoneIdempotent(phone: Value)
    requires phone != Null
    ensures FormatPhone(Str(FormatPhone(phone).value)) == FormatPhone(phone)
  {
    var once := FormatPhone(phone).value;
    assert Show(Str(once)) == once;
  }

  /** A phone accepted by the registration check is still accepted, with the
      same digits, once it is laid out for a report. */
  lemma FormattedPhoneStaysValid(s: string)
    requires Mask.ValidarTelefone(Str(s))
    ensures Mask.ValidarTelefone(Str(FormatPhone(Str(s)).value))
    ensures Digits(FormatPhone(Str(s)).value) == Digits(s)
  {
  }
}
