/** cadastro_view.py: registering a user (`cadastro_post`) and reading a
    user's profile (`get_cadastro`). */
module CadastroView {
  import opened Common
  import opened Utils
  import opened Mask
  import opened Store

  // ---------------------------------------------------------------------------
  // nome.upper()

  /** `str.upper` on one character: ASCII and Latin-1 lower-case letters
      become their capitals; every other character is kept. */
  function UpperChar(c: char): (u: char)
    ensures 'a' <= c <= 'z' ==> u as int == c as int - 32
    ensures IsLatin1Lower(c) ==> u as int == c as int - 32
    ensures !('a' <= c <= 'z') && !IsLatin1Lower(c) ==> u == c
    ensures !('a' <= u <= 'z') && !IsLatin1Lower(u)
  {
    if 'a' <= c <= 'z' || IsLatin1Lower(c) then (c as int - 32) as char
    else c
  }

  /** The Latin-1 lower-case letters `à`..`þ` other than `÷`, whose capitals
      lie 32 code points below them. */
  predicate IsLatin1Lower(c: char) {
    0xE0 <= c as int <= 0xFE && c as int != 0xF7
  }

  /** `nome.upper()`: the same length, each lower-case letter replaced by its
      capital, every other character kept, and no lower-case letter left. */
  function Upper(s: string): (r: string)
    ensures |r| == |s|
    ensures forall i :: 0 <= i < |s| && ('a' <= s[i] <= 'z' || IsLatin1Lower(s[i])) ==>
      r[i] as int == s[i] as int - 32
    ensures forall i :: 0 <= i < |s| && !('a' <= s[i] <= 'z') && !IsLatin1Lower(s[i]) ==> r[i] == s[i]
    ensures forall i :: 0 <= i < |r| ==> !('a' <= r[i] <= 'z') && !IsLatin1Lower(r[i])
  {
    seq(|s|, i requires 0 <= i < |s| => UpperChar(s[i]))
  }

  /** Upper-casing an upper-cased name changes nothing. */
  lemma UpperIdempotent(s: string)
    ensures Upper(Upper(s)) == Upper(s)
  {
    assert forall i :: 0 <= i < |s| ==> UpperChar(UpperChar(s[i])) == UpperChar(s[i]);
  }

  // ---------------------------------------------------------------------------
  // cadastro_post: the decision chain

  /** The request body of `cadastro_post`; `document` is `coren_crm_sus`. */
  datatype CadastroForm = CadastroForm(
    nome: Value, email: Value, cpf: Value, document: Value, telefone: Value,
    sexo: Value, nascimento: Value, tipo: Option<int>, senha: Option<string>)

  predicate RegistrationComplete(f: CadastroForm) {
    && Truthy(f.nome) && Truthy(f.email) && Truthy(f.cpf) && Truthy(f.telefone)
    && Truthy(f.sexo) && Truthy(f.nascimento) && GivenNumber(f.tipo)
  }

  /** Physicians register a CRM, nurses a COREN. */
  predicate NeedsLicence(tipo: int) {
    tipo == Physician || tipo == Nurse
  }

  /** The checks of `cadastro_post` in the order it makes them, for a caller of
      kind `callerKind`; the stored credential when all pass. `birthValid` is
      the verdict of the birth-date check. */
  function CadastroCheck(callerKind: int, f: CadastroForm, birthValid: bool): (r: Result<Credential>)
    ensures r.Ok? ==> RegistrationComplete(f) && callerKind in {Admin, Receptionist}
    ensures r.Ok? && callerKind == Receptionist ==> f.tipo.value == Patient
    ensures r.Ok? ==> ValidarCpf(f.cpf) && ValidarTelefone(f.telefone) && birthValid
    ensures r.Ok? && f.tipo.value == Patient ==> ValidarSus(f.document) && r.value == Hashed(f.document.s)
    ensures r.Ok? && NeedsLicence(f.tipo.value) ==> ValidarCorenCrm(f.document)
    ensures r.Ok? && f.tipo.value != Patient ==>
      Given(f.senha) && ValidarSenha(f.senha.value) == Strong && r.value == Hashed(f.senha.value)
  {
    if !RegistrationComplete(f) then Err(IncompleteData)
    else if callerKind != Admin && callerKind != Receptionist then Err(Unauthorized)
    else if callerKind == Receptionist && f.tipo.value != Patient then Err(KindNotAllowed)
    else if !ValidarCpf(f.cpf) then Err(InvalidCpf)
    else if !ValidarTelefone(f.telefone) then Err(InvalidPhone)
    else if !birthValid then Err(InvalidBirthDate)
    else if f.tipo.value == Patient then
      if !Truthy(f.document) then Err(SusMissing)
      else if !ValidarSus(f.document) then Err(SusInvalid)
      else Ok(Hashed(f.document.s))
    else if NeedsLicence(f.tipo.value) && !Truthy(f.document) then Err(LicenceMissing(f.tipo.value == Physician))
    else if NeedsLicence(f.tipo.value) && !ValidarCorenCrm(f.document) then Err(LicenceInvalid(f.tipo.value == Physician))
    else if !Given(f.senha) then Err(PasswordMissing)
    else match ValidarSenha(f.senha.value)
      case Weak(message) => Err(WeakPassword(message))
      case Strong => Ok(Hashed(f.senha.value))
  }

  /** Completeness is checked before the caller's role: an incomplete form is
      answered 'Dados incompletos.' whoever sends it. */
  lemma CompletenessFirst(callerKind: int, f: CadastroForm, birthValid: bool)
    requires !RegistrationComplete(f)
    ensures CadastroCheck(callerKind, f, birthValid) == Err(IncompleteData)
  {
  }

  /** An admin may register any kind of user, a receptionist only patients,
      and nobody else may register anyone. */
  lemma WhoMayRegister(callerKind: int, f: CadastroForm, birthValid: bool)
    requires RegistrationComplete(f)
    ensures callerKind !in {Admin, Receptionist} ==> CadastroCheck(callerKind, f, birthValid) == Err(Unauthorized)
    ensures callerKind == Receptionist && f.tipo.value != Patient ==>
      CadastroCheck(callerKind, f, birthValid) == Err(KindNotAllowed)
    ensures callerKind == Admin || (callerKind == Receptionist && f.tipo.value == Patient) ==>
      CadastroCheck(callerKind, f, birthValid) == CadastroCheck(Admin, f, birthValid)
  {
  }

  /** For an authorized caller, the CPF, the phone and the birth date are
      checked in that order and the first failure is the answer. */
  lemma DocumentsInOrder(callerKind: int, f: CadastroForm, birthValid: bool)
    requires RegistrationComplete(f) && (callerKind == Admin || (callerKind == Receptionist && f.tipo.value == Patient))
    ensures !ValidarCpf(f.cpf) ==> CadastroCheck(callerKind, f, birthValid) == Err(InvalidCpf)
    ensures ValidarCpf(f.cpf) && !ValidarTelefone(f.telefone) ==>
      CadastroCheck(callerKind, f, birthValid) == Err(InvalidPhone)
    ensures ValidarCpf(f.cpf) && ValidarTelefone(f.telefone) && !birthValid ==>
      CadastroCheck(callerKind, f, birthValid) == Err(InvalidBirthDate)
  {
  }

  /** A patient's password is derived from the SUS number: whatever `senha`
      the form carries is ignored. */
  lemma PatientPasswordIgnored(callerKind: int, f: CadastroForm, birthValid: bool, senha: Option<string>)
    requires f.tipo == Some(Patient)
    ensures CadastroCheck(callerKind, f, birthValid) == CadastroCheck(callerKind, f.(senha := senha), birthValid)
  {
  }

  /** Once the CPF, phone and birth date pass, a patient must bring a valid
      SUS number, a physician or nurse a valid CRM or COREN, and every
      non-patient a strong password; a weak one is answered with the message
      of the first rule it breaks. */
  lemma DocumentAndPasswordChecks(f: CadastroForm)
    requires RegistrationComplete(f) && ValidarCpf(f.cpf) && ValidarTelefone(f.telefone)
    ensures f.tipo.value == Patient && !Truthy(f.document) ==> CadastroCheck(Admin, f, true) == Err(SusMissing)
    ensures f.tipo.value == Patient && Truthy(f.document) && !ValidarSus(f.document) ==>
      CadastroCheck(Admin, f, true) == Err(SusInvalid)
    ensures NeedsLicence(f.tipo.value) && !Truthy(f.document) ==>
      CadastroCheck(Admin, f, true) == Err(LicenceMissing(f.tipo.value == Physician))
    ensures NeedsLicence(f.tipo.value) && Truthy(f.document) && !ValidarCorenCrm(f.document) ==>
      CadastroCheck(Admin, f, true) == Err(LicenceInvalid(f.tipo.value == Physician))
    ensures f.tipo.value != Patient && (NeedsLicence(f.tipo.value) ==> ValidarCorenCrm(f.document)) ==>
      && (!Given(f.senha) ==> CadastroCheck(Admin, f, true) == Err(PasswordMissing))
      && (Given(f.senha) && ValidarSenha(f.senha.value).Weak? ==>
            CadastroCheck(Admin, f, true) == Err(WeakPassword(ValidarSenha(f.senha.value).message)))
  {
  }

  // ---------------------------------------------------------------------------
  // cadastro_post: the insert

  /** `=` in SQL: a NULL equals nothing. */
  predicate SqlEq(a: Value, b: Value) {
    a != Null && a == b
  }

  /** `SELECT 1 FROM USUARIO WHERE CPF = ? OR EMAIL = ? OR TELEFONE = ? OR
      COREN_CRM_SUS = ?` finds a row. */
  predicate Clashes(users: seq<User>, f: CadastroForm) {
    exists i :: 0 <= i < |users| &&
      (Str(users[i].cpf) == f.cpf || SqlEq(users[i].email, f.email) ||
       Str(users[i].phone) == f.telefone || SqlEq(users[i].document, f.document))
  }

  /** The inserted row: the name upper-cased, no failed attempts, active. */
  function NewUser(f: CadastroForm, password: Credential): User
    requires f.nome.Str? && f.cpf.Str? && f.telefone.Str? && f.tipo.Some?
  {
    User(Upper(f.nome.s), f.email, f.cpf.s, f.document, f.telefone.s, f.sexo, f.nascimento,
         f.tipo.value, password, true, 0)
  }

  /** `cadastro_post`. The caller's kind is read with `fetchone()[0]`, so an
      unknown caller ends in the handler's generic error, as does a name that
      is not a string (`nome.upper()`). */
  function CadastroStep(db: Db, header: Option<string>, verify: Oracle,
                        f: CadastroForm, birthValid: bool): (s: Step)
    ensures s.outcome == Done || s.outcome.Failed?
    ensures s.outcome.Failed? ==> s.db == db
    ensures s.outcome == Done ==>
      && s.db.visits == db.visits && s.db.triages == db.triages && s.db.diagnoses == db.diagnoses
      && |s.db.users| == |db.users| + 1 && s.db.users[..|db.users|] == db.users
      && var u := s.db.users[|db.users|];
      && !Clashes(db.users, f)
      && f.nome.Str? && u.name == Upper(f.nome.s)
      && Str(u.cpf) == f.cpf && Str(u.phone) == f.telefone && u.email == f.email && u.document == f.document
      && u.sex == f.sexo && u.birth == f.nascimento
      && f.tipo.Some? && u.kind == f.tipo.value && u.active && u.failedAttempts == 0
      && Authenticate(header, verify).Ok?
      && var caller := Authenticate(header, verify).value;
      && 0 <= caller < |db.users|
      && CadastroCheck(db.users[caller].kind, f, birthValid) == Ok(u.password)
  {
    match Authenticate(header, verify)
    case Err(e) => Step(db, Failed(e))
    case Ok(id) =>
      if !(0 <= id < |db.users|) then Step(db, Failed(Unexpected))
      else match CadastroCheck(db.users[id].kind, f, birthValid)
        case Err(e) => Step(db, Failed(e))
        case Ok(password) =>
          if Clashes(db.users, f) then Step(db, Failed(AlreadyRegistered))
          else if !f.nome.Str? then Step(db, Failed(Unexpected))
          else Step(db.(users := db.users + [NewUser(f, password)]), Done)
  }

  /** A form sharing its CPF, e-mail, phone or document with a registered
      user is refused with 'Dados já cadastrados.' once it passes the checks. */
  lemma DuplicateRefused(db: Db, header: Option<string>, verify: Oracle, f: CadastroForm, birthValid: bool)
    requires Authenticate(header, verify).Ok?
    requires 0 <= Authenticate(header, verify).value < |db.users|
    requires CadastroCheck(db.users[Authenticate(header, verify).value].kind, f, birthValid).Ok?
    requires Clashes(db.users, f)
    ensures CadastroStep(db, header, verify, f, birthValid) == Step(db, Failed(AlreadyRegistered))
  {
  }

  /** Registration keeps the store consistent: in particular no two users
      share a CPF. */
  lemma CadastroKeepsConsistent(db: Db, header: Option<string>, verify: Oracle, f: CadastroForm, birthValid: bool)
    requires Consistent(db)
    ensures Consistent(CadastroStep(db, header, verify, f, birthValid).db)
  {
    var s := CadastroStep(db, header, verify, f, birthValid);
    if s.outcome == Done {
      var n := |db.users|;
      assert forall i :: 0 <= i < n ==> s.db.users[i] == db.users[i];
      forall i, j | 0 <= i < j < |s.db.users|
        ensures s.db.users[i].cpf != s.db.users[j].cpf
      {
        if j == n {
          assert Str(db.users[i].cpf) != f.cpf;
        }
      }
    }
  }

  /** The new user is the one a lookup by the registered CPF finds, whether
      or not the lookup asks for active users only. */
  lemma RegisteredUserIsFound(db: Db, header: Option<string>, verify: Oracle, f: CadastroForm, birthValid: bool,
                              activeOnly: bool)
    requires CadastroStep(db, header, verify, f, birthValid).outcome == Done
    ensures FindUserByCpf(CadastroStep(db, header, verify, f, birthValid).db.users, f.cpf.s, activeOnly) == Some(|db.users|)
  {
    var s := CadastroStep(db, header, verify, f, birthValid);
    assert forall i :: 0 <= i < |db.users| ==> s.db.users[i] == db.users[i];
    assert forall i :: 0 <= i < |db.users| ==> Str(db.users[i].cpf) != f.cpf;
  }

  /** `cadastro_post` on the shared database. */
  method CadastroPost(store: Database, header: Option<string>, verify: Oracle,
                      f: CadastroForm, birthValid: bool) returns (outcome: Outcome)
    modifies store
    ensures var s := CadastroStep(old(store.State()), header, verify, f, birthValid);
      store.State() == s.db && outcome == s.outcome
    ensures old(store.Valid()) ==> store.Valid()
  {
    if store.Valid() {
      CadastroKeepsConsistent(store.State(), header, verify, f, birthValid);
    }
    var auth := Authenticate(header, verify);
    if auth.Err? {
      return Failed(auth.error);
    }
    var id := auth.value;
    if !(0 <= id < |store.users|) {
      return Failed(Unexpected);
    }
    var check := CadastroCheck(store.users[id].kind, f, birthValid);
    if check.Err? {
      return Failed(check.error);
    }
    if Clashes(store.users, f) {
      return Failed(AlreadyRegistered);
    }
    if !f.nome.Str? {
      return Failed(Unexpected);
    }
    store.users := store.users + [NewUser(f, check.value)];
    outcome := Done;
  }

  // ---------------------------------------------------------------------------
  // get_cadastro

  /** The columns `get_cadastro` answers with. */
  datatype Profile = Profile(
    nome: string, email: Value, cpf: string, telefone: string,
    nascimento: Value, sexo: Value, tipo: int, document: Value)

  function ProfileOf(u: User): Profile {
    Profile(u.name, u.email, u.cpf, u.phone, u.birth, u.sex, u.kind, u.document)
  }

  /** What `get_cadastro` answers once the token names caller `id`: with a
      `cpf` query parameter, staff look up the user holding that CPF; without
      one, the caller reads their own profile. */
  function Lookup(db: Db, id: int, cpfParam: Option<string>): (r: Result<Profile>)
    ensures r.Ok? ==> 0 <= id < |db.users|
    ensures r.Ok? && Given(cpfParam) ==>
      && db.users[id].kind in Staff && ValidarCpf(Str(cpfParam.value))
      && FindUserByCpf(db.users, cpfParam.value, false).Some?
      && r.value == ProfileOf(db.users[FindUserByCpf(db.users, cpfParam.value, false).value])
      && r.value.cpf == cpfParam.value
    ensures r.Ok? && !Given(cpfParam) ==> r.value == ProfileOf(db.users[id])
  {
    if Given(cpfParam) then
      if !ValidarCpf(Str(cpfParam.value)) then Err(InvalidCpf)
      else if !(0 <= id < |db.users|) then Err(Unexpected)
      else if db.users[id].kind !in Staff then Err(SearchUnauthorized)
      else match FindUserByCpf(db.users, cpfParam.value, false)
        case None => Err(UserNotFound)
        case Some(k) => Ok(ProfileOf(db.users[k]))
    else if !(0 <= id < |db.users|) then Err(UserNotFound)
    else Ok(ProfileOf(db.users[id]))
  }

  /** `get_cadastro` as written: the header is only required when no `cpf`
      is given, so a CPF search without an Authorization header reaches
      `remover_bearer(None)` and ends in the generic error. */
  function GetCadastroAsWritten(db: Db, header: Option<string>, verify: Oracle,
                                cpfParam: Option<string>): (r: Result<Profile>)
    ensures r.Ok? ==> header.Some? && verify(RemoverBearer(header.value)).Accepted?
    ensures !Given(header) && !Given(cpfParam) ==> r == Err(MissingToken)
  {
    if !Given(header) && !Given(cpfParam) then Err(MissingToken)
    else if header.None? then Err(Unexpected)
    else match verify(RemoverBearer(header.value))
      case Refused(reason) => Err(BadToken(reason))
      case Accepted(id) => Lookup(db, id, cpfParam)
  }

  /** A CPF search without an Authorization header is not answered with
      'Token de autenticação necessário' but with the generic error. */
  lemma AnonymousSearchFallsThrough(db: Db, verify: Oracle, cpf: string)
    requires cpf != ""
    ensures GetCadastroAsWritten(db, None, verify, Some(cpf)) == Err(Unexpected)
  {
  }

  /** `get_cadastro` with the token required on every request, as the rest
      of the handler (which always validates the token) needs. */
  function GetCadastro(db: Db, header: Option<string>, verify: Oracle, cpfParam: Option<string>): (r: Result<Profile>)
    ensures !Given(header) ==> r == Err(MissingToken)
    ensures r.Ok? ==> Given(header) && verify(RemoverBearer(header.value)).Accepted?
    ensures Given(header) ==> r == GetCadastroAsWritten(db, header, verify, cpfParam)
  {
    if !Given(header) then Err(MissingToken)
    else match verify(RemoverBearer(header.value))
      case Refused(reason) => Err(BadToken(reason))
      case Accepted(id) => Lookup(db, id, cpfParam)
  }

  /** A caller who is not staff only ever sees their own profile. */
  lemma NonStaffSeesOnlyOwnProfile(db: Db, header: Option<string>, verify: Oracle, cpfParam: Option<string>)
    requires GetCadastro(db, header, verify, cpfParam).Ok?
    requires db.users[verify(RemoverBearer(header.value)).userId].kind !in Staff
    ensures GetCadastro(db, header, verify, cpfParam).value ==
      ProfileOf(db.users[verify(RemoverBearer(header.value)).userId])
  {
  }

  /** A search by a valid CPF from a non-staff caller is refused with
      'Busca não autorizada.'. */
  lemma SearchNeedsStaff(db: Db, header: string, verify: Oracle, cpf: string)
    requires header != "" && cpf != "" && ValidarCpf(Str(cpf)) && verify(RemoverBearer(header)).Accepted?
    requires 0 <= verify(RemoverBearer(header)).userId < |db.users|
    requires db.users[verify(RemoverBearer(header)).userId].kind !in Staff
    ensures GetCadastro(db, Some(header), verify, Some(cpf)) == Err(SearchUnauthorized)
  {
  }
}
