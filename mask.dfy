/** components/mask.py: the validators applied to registration data. The
    password rule, the Brazilian CPF and CNS (SUS card) check digits, the
    CRM/COREN licence pattern and the phone digit count. */
module Mask {
  import opened Common

  // ---------------------------------------------------------------------------
  // validar_senha

  const SpecialSymbols: set<char> :=
    {'!', '@', '#', '$', '%', '^', '&', '*', '(', ')', ',', '.', '?', '"', ':', '{', '}', '|', '<', '>'}

  const MsgTooShort := "A senha deve ter pelo menos 8 caracteres."
  const MsgNoSymbol := "A senha deve conter pelo menos um símbolo especial (!@#$%^&*...)."
  const MsgNoUpper := "A senha deve conter pelo menos uma letra maiúscula."
  const MsgNoDigit := "A senha deve conter pelo menos um número."

  /** `validar_senha` returns `True` or the message of the first rule broken. */
  datatype PasswordVerdict = Strong | Weak(message: string)

  predicate HasSymbol(s: string) {
    exists i :: 0 <= i < |s| && s[i] in SpecialSymbols
  }

  predicate IsUpperAscii(c: char) {
    'A' <= c <= 'Z'
  }

  predicate HasUpper(s: string) {
    exists i :: 0 <= i < |s| && IsUpperAscii(s[i])
  }

  predicate HasDigit(s: string) {
    exists i :: 0 <= i < |s| && IsDigit(s[i])
  }

  /** `re.search` with a one-character class: scans `s` left to right. */
  function Search(s: string, inClass: char -> bool): (found: bool)
    ensures found <==> exists i :: 0 <= i < |s| && inClass(s[i])
  {
    if s == [] then false
    else inClass(s[0]) || Search(s[1..], inClass)
  }

  function ValidarSenha(senha: string): (r: PasswordVerdict)
    ensures r == Strong <==> |senha| >= 8 && HasSymbol(senha) && HasUpper(senha) && HasDigit(senha)
    ensures |senha| < 8 ==> r == Weak(MsgTooShort)
    ensures |senha| >= 8 && !HasSymbol(senha) ==> r == Weak(MsgNoSymbol)
    ensures |senha| >= 8 && HasSymbol(senha) && !HasUpper(senha) ==> r == Weak(MsgNoUpper)
    ensures |senha| >= 8 && HasSymbol(senha) && HasUpper(senha) && !HasDigit(senha) ==> r == Weak(MsgNoDigit)
  {
    if |senha| < 8 then Weak(MsgTooShort)
    else if !Search(senha, c => c in SpecialSymbols) then Weak(MsgNoSymbol)
    else if !Search(senha, IsUpperAscii) then Weak(MsgNoUpper)
    else if !Search(senha, IsDigit) then Weak(MsgNoDigit)
    else Strong
  }

  // ---------------------------------------------------------------------------
  // Modulo-11 check digits (validar_cpf and validar_sus)

  /** `sum(int(d) * m ...)` with multipliers `weight, weight - 1, ...`. */
  function WeightedSum(ds: string, weight: int): int
    requires AllDigits(ds)
  {
    if ds == [] then 0 else DigitValue(ds[0]) * weight + WeightedSum(ds[1..], weight - 1)
  }

  /** A remainder below 2 gives 0, otherwise 11 minus the remainder: a single
      digit that, added with weight 1, makes the sum a multiple of 11. */
  function CheckDigit(sum: int): (d: int)
    ensures 0 <= d <= 9
    ensures sum % 11 >= 2 ==> (sum + d) % 11 == 0
    ensures sum % 11 < 2 ==> d == 0
  {
    var r := sum % 11;
    if r < 2 then 0 else 11 - r
  }

  // ---------------------------------------------------------------------------
  // validar_cpf

  /** The two CPF check digits of a nine-digit base, the Receita Federal rule:
      weights 10..2 over the base, then 11..2 over the base and the first. */
  function CpfCheckDigits(base: string): (r: string)
    requires |base| == 9 && AllDigits(base)
    ensures |r| == 2 && AllDigits(r)
  {
    var d1 := DigitChar(CheckDigit(WeightedSum(base, 10)));
    var d2 := DigitChar(CheckDigit(WeightedSum(base + [d1], 11)));
    [d1, d2]
  }

  function ValidarCpf(cpf: Value): (ok: bool)
    ensures ok ==> cpf.Str? && |Digits(cpf.s)| == 11 && !AllSame(Digits(cpf.s))
  {
    match cpf
    case Str(s) =>
      var num := Digits(s);
      |num| == 11 && !AllSame(num) && num[9..] == CpfCheckDigits(num[..9])
    case _ => false
  }

  /** A CPF is accepted exactly when its digits are a base followed by that
      base's check digits, and not all alike. */
  lemma CpfAcceptsIffCheckDigits(s: string)
    ensures ValidarCpf(Str(s)) <==>
      |Digits(s)| == 11 && !AllSame(Digits(s)) &&
      Digits(s) == Digits(s)[..9] + CpfCheckDigits(Digits(s)[..9])
  {
    var num := Digits(s);
    if |num| == 11 {
      assert num == num[..9] + num[9..];
    }
  }

  /** Check digit `num[j]` closes the modulo-11 sum of the digits before it,
      weighted `j + 1` down to 2: it is 0 when that sum leaves a remainder
      below 2, and otherwise brings the sum to a multiple of 11. */
  predicate ClosesSum(num: string, j: nat)
    requires j < |num| && AllDigits(num)
  {
    var sum := WeightedSum(num[..j], j + 1);
    if sum % 11 < 2 then num[j] == '0' else (sum + DigitValue(num[j])) % 11 == 0
  }

  /** The digit `CheckDigit` computes is the only one that closes the sum. */
  lemma CheckDigitUnique(sum: int, c: char)
    requires IsDigit(c)
    ensures c == DigitChar(CheckDigit(sum)) <==>
      if sum % 11 < 2 then c == '0' else (sum + DigitValue(c)) % 11 == 0
  {
    var r := sum % 11;
    if r >= 2 && (sum + DigitValue(c)) % 11 == 0 {
      assert (r + DigitValue(c)) % 11 == 0;
      assert r + DigitValue(c) == 11;
    }
  }

  /** A CPF is accepted exactly when its eleven digits are not all alike and
      each of the last two closes the weighted sum of the digits before it. */
  lemma CpfAcceptsIffSumsClose(s: string)
    ensures ValidarCpf(Str(s)) <==>
      var num := Digits(s);
      |num| == 11 && !AllSame(num) && ClosesSum(num, 9) && ClosesSum(num, 10)
  {
    var num := Digits(s);
    if |num| == 11 {
      var base := num[..9];
      var d1 := DigitChar(CheckDigit(WeightedSum(base, 10)));
      CheckDigitUnique(WeightedSum(base, 10), num[9]);
      if num[9] == d1 {
        assert base + [d1] == num[..10];
        CheckDigitUnique(WeightedSum(num[..10], 11), num[10]);
      }
    }
  }

  /** Appending the check digits to any base yields an accepted CPF, unless
      all eleven digits are alike. */
  lemma CpfRoundTrip(base: string)
    requires |base| == 9 && AllDigits(base)
    ensures var cpf := base + CpfCheckDigits(base);
      ValidarCpf(Str(cpf)) <==> !AllSame(cpf)
  {
    var cpf := base + CpfCheckDigits(base);
    assert AllDigits(cpf);
    assert cpf[..9] == base && cpf[9..] == CpfCheckDigits(base);
  }

  /** The punctuation of the mask contributes no digits. */
  lemma MaskedDigits(a: string, b: string, c: string, d: string)
    ensures Digits(a + "." + b + "." + c + "-" + d) == Digits(a) + Digits(b) + Digits(c) + Digits(d)
  {
    DigitsSkip(a + "." + b + "." + c, "-", d);
    DigitsSkip(a + "." + b, ".", c);
    DigitsSkip(a, ".", b);
  }

  lemma GroupDigits(a: string, b: string, c: string, d: string)
    ensures Digits(a + b + c + d) == Digits(a) + Digits(b) + Digits(c) + Digits(d)
  {
    DigitsAppend(a + b + c, d);
    DigitsAppend(a + b, c);
    DigitsAppend(a, b);
  }

  /** The verdict depends only on the digits. */
  lemma SameDigitsSameVerdict(s: string, t: string)
    requires Digits(s) == Digits(t)
    ensures ValidarCpf(Str(s)) == ValidarCpf(Str(t))
  {
  }

  /** The usual mask `ddd.ddd.ddd-dd` does not change the verdict. */
  lemma CpfIgnoresMask(s: string)
    requires |s| == 11
    ensures ValidarCpf(Str(s[..3] + "." + s[3..6] + "." + s[6..9] + "-" + s[9..])) == ValidarCpf(Str(s))
  {
    var a, b, c, d := s[..3], s[3..6], s[6..9], s[9..];
    MaskedDigits(a, b, c, d);
    GroupDigits(a, b, c, d);
    assert a + b == s[..6];
    assert a + b + c == s[..9];
    assert s == s[..9] + d;
    SameDigitsSameVerdict(a + "." + b + "." + c + "-" + d, s);
  }

  // ---------------------------------------------------------------------------
  // validar_sus

  /** The two check digits this code computes for a definitive CNS: weights
      15..3 over a 13-digit base, then 16..3 over the base and the first. */
  function SusCheckDigits(base: string): (r: string)
    requires |base| == 13 && AllDigits(base)
    ensures |r| == 2 && AllDigits(r)
  {
    var dv1 := DigitChar(CheckDigit(WeightedSum(base, 15)));
    var dv2 := DigitChar(CheckDigit(WeightedSum(base + [dv1], 16)));
    [dv1, dv2]
  }

  function ValidarSus(numero: Value): (ok: bool)
    ensures ok ==> numero.Str? && |Digits(numero.s)| == 15 && !AllSame(Digits(numero.s))
    ensures ok ==> Digits(numero.s)[0] in {'1', '2', '7', '8', '9'}
  {
    match numero
    case Str(s) =>
      var num := Digits(s);
      if |num| != 15 || AllSame(num) then false
      else if num[0] == '1' || num[0] == '2' then num[13..] == SusCheckDigits(num[..13])
      else num[0] == '7' || num[0] == '8' || num[0] == '9'
    case _ => false
  }

  /** Professional (7) and provisional (8, 9) card numbers are accepted on
      length alone; definitive ones (1, 2) must carry their check digits. */
  lemma SusLeadingDigitRule(s: string)
    requires |Digits(s)| == 15 && !AllSame(Digits(s))
    ensures Digits(s)[0] in {'7', '8', '9'} ==> ValidarSus(Str(s))
    ensures Digits(s)[0] in {'1', '2'} ==>
      (ValidarSus(Str(s)) <==> Digits(s) == Digits(s)[..13] + SusCheckDigits(Digits(s)[..13]))
    ensures Digits(s)[0] !in {'1', '2', '7', '8', '9'} ==> !ValidarSus(Str(s))
  {
    var num := Digits(s);
    assert num == num[..13] + num[13..];
  }

  /** A definitive base with its computed check digits is accepted, unless
      all fifteen digits are alike. */
  lemma SusRoundTrip(base: string)
    requires |base| == 13 && AllDigits(base) && (base[0] == '1' || base[0] == '2')
    ensures var cns := base + SusCheckDigits(base);
      ValidarSus(Str(cns)) <==> !AllSame(cns)
  {
    var cns := base + SusCheckDigits(base);
    assert AllDigits(cns);
    assert cns[0] == base[0];
    assert cns[..13] == base && cns[13..] == SusCheckDigits(base);
  }

  // ---------------------------------------------------------------------------
  // validar_coren_crm: re.match(r'^\d{6,8}(-[A-Z]{2})?$', numero)

  /** Length of the run of digits that starts `s`. */
  function LeadingDigits(s: string): (n: nat)
    ensures n <= |s| && AllDigits(s[..n])
    ensures n < |s| ==> !IsDigit(s[n])
  {
    if s == [] || !IsDigit(s[0]) then 0 else 1 + LeadingDigits(s[1..])
  }

  /** `$` also matches just before a final newline. */
  function DropFinalNewline(s: string): string {
    if |s| > 0 && s[|s| - 1] == '\n' then s[..|s| - 1] else s
  }

  /** `t` is `n` digits followed by nothing or by `-` and two capitals. */
  predicate SplitsAt(t: string, n: nat) {
    n <= |t| && AllDigits(t[..n]) &&
    (n == |t| || (|t| == n + 3 && t[n] == '-' && IsUpperAscii(t[n + 1]) && IsUpperAscii(t[n + 2])))
  }

  /** The pattern as a regular expression reads: some digit count from 6 to 8. */
  predicate LicencePattern(t: string) {
    exists n: nat :: 6 <= n <= 8 && SplitsAt(t, n)
  }

  function ValidarCorenCrm(numero: Value): (ok: bool)
    ensures ok ==> numero.Str?
  {
    match numero
    case Str(s) =>
      var t := DropFinalNewline(s);
      var k := LeadingDigits(t);
      6 <= k <= 8 && SplitsAt(t, k)
    case _ => false
  }

  /** Taking the whole leading digit run decides the match: the licence check
      accepts exactly the strings the regular expression matches. */
  lemma CorenCrmMatchesPattern(s: string)
    ensures ValidarCorenCrm(Str(s)) <==> LicencePattern(DropFinalNewline(s))
  {
    var t := DropFinalNewline(s);
    var k := LeadingDigits(t);
    if LicencePattern(t) {
      var n: nat :| 6 <= n <= 8 && SplitsAt(t, n);
      assert k == n;
    }
    if ValidarCorenCrm(Str(s)) {
      assert SplitsAt(t, k);
    }
  }

  // ---------------------------------------------------------------------------
  // validar_telefone

  /** A phone is valid when it has 10 (landline) or 11 (mobile) digits. */
  function ValidarTelefone(telefone: Value): (ok: bool)
    ensures ok ==> telefone.Str?
    ensures ok <==> telefone.Str? && |Digits(telefone.s)| in {10, 11}
  {
    match telefone
    case Str(s) => var n := |Digits(s)|; n == 10 || n == 11
    case _ => false
  }
}
