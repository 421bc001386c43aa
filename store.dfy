/** The Firebird database shared by every handler, as an in-memory store.
    Each table is a sequence of rows in insertion order; a row's identity
    (ID_USUARIO, ID_CONSULTA) is its position, as an auto-increment key gives.
    The module also holds the handlers' common prologue (token and role
    check), their typed outcomes, the store invariants and the CONSULTA x
    TRIAGEM join that both read views run. */
module Store {
  import opened Common
  import opened Utils

  // USUARIO.TIPO_USUARIO
  const Admin := 1
  const Physician := 2
  const Nurse := 3
  const Receptionist := 4
  const Patient := 5

  /** Hospital staff: admin, physician, nurse, receptionist. */
  const Staff: set<int> := {Admin, Physician, Nurse, Receptionist}

  // CONSULTA.SITUACAO
  const Arrived := 1         // Entrada
  const InTriage := 2        // Triagem
  const Waiting := 3         // Em espera
  const InConsultation := 4  // Consulta
  const Discharged := 5      // Alta

  /** A bcrypt hash, represented by the password it was generated from:
      `check_password_hash(h, p)` holds exactly when `p` is that password. */
  datatype Credential = Hashed(secret: string)

  /** A USUARIO row. */
  datatype User = User(
    name: string, email: Value, cpf: string, document: Value, phone: string,
    sex: Value, birth: Value, kind: int, password: Credential,
    active: bool, failedAttempts: int)

  /** A CONSULTA row; times are whole minutes. */
  datatype Visit = Visit(
    patient: nat, stage: int, arrival: int,
    triageStart: Option<int>, diagnosisStart: Option<int>, receptionist: nat)

  /** The clinical fields `update_triagem` reads from its request. */
  datatype TriageForm = TriageForm(
    complaint: Value, temperature: Value, pressure: Value, heartRate: Value,
    saturation: Value, painLevel: Value, allergy: Value, medication: Value,
    risk: Option<int>)

  /** A TRIAGEM row. */
  datatype TriageRecord = TriageRecord(visit: nat, form: TriageForm, nurse: nat)

  /** A DIAGNOSTICO row. */
  datatype DiagnosisRecord = DiagnosisRecord(visit: nat, diagnosis: Value, prescription: Value, physician: nat)

  datatype Db = Db(
    users: seq<User>, visits: seq<Visit>,
    triages: seq<TriageRecord>, diagnoses: seq<DiagnosisRecord>)

  /** The error messages the handlers answer with, one constructor each. */
  datatype Error =
    | MissingToken              // 'Token de autenticação necessário'
    | BadToken(reason: string)  // the token check's own message
    | UserNotFound              // 'Usuário não encontrado.'
    | UserNotFoundOrInactive    // 'Usuário não encontrado ou inativo.'
    | Unauthorized              // 'Usuário não autorizado.'
    | RequestUnauthorized       // 'Requisição não autorizada.'
    | IncompleteData            // 'Dados incompletos.'
    | PatientNotFound           // 'Paciente não encontrado.'
    | PatientNotFoundOrInactive // 'Paciente não encontrado ou inativo.'
    | VisitInProgress           // 'Paciente já possui consulta em andamento.'
    | NoVisitFound              // 'Nenhuma consulta encontrada.'
    | TriageAlreadyRecorded     // 'Triagem já cadastrada.'
    | DiagnosisAlreadyRecorded  // 'Diagnóstico já cadastrado.'
    | InvalidCpf                // 'CPF inválido.'
    | UserInactive              // 'Usuário inativo.'
    | WrongPassword             // 'Senha incorreta.'
    | KindNotAllowed            // 'Cadastro de tipo de usuário não autorizado.'
    | InvalidPhone              // 'Telefone inválido.'
    | InvalidBirthDate          // 'Data de nascimento inválida.'
    | SusMissing                // 'Informe o número do SUS.'
    | SusInvalid                // 'Número do SUS inválido.'
    | LicenceMissing(crm: bool) // 'Informe o CRM.' / 'Informe o COREN.'
    | LicenceInvalid(crm: bool) // 'CRM inválido.' / 'COREN inválido.'
    | PasswordMissing           // 'Informe a senha.'
    | WeakPassword(message: string)
    | AlreadyRegistered         // 'Dados já cadastrados.'
    | SearchUnauthorized        // 'Busca não autorizada.'
    | Unexpected                // an exception caught by the handler

  datatype Result<T> = Ok(value: T) | Err(error: Error)

  /** What a state-changing handler answers: success, a login (the user the
      token is issued for and their kind), or an error. */
  datatype Outcome = Done | LoggedIn(user: nat, kind: int) | Failed(error: Error)

  /** The store after a handler ran, and its answer. */
  datatype Step = Step(db: Db, outcome: Outcome)

  // ---------------------------------------------------------------------------
  // Invariants

  /** A patient never has two visits that are both not discharged. */
  predicate OneActiveVisitPerPatient(visits: seq<Visit>) {
    forall i, j :: 0 <= i < j < |visits| && visits[i].patient == visits[j].patient ==>
      visits[i].stage == Discharged || visits[j].stage == Discharged
  }

  predicate OneTriagePerVisit(triages: seq<TriageRecord>) {
    forall i, j :: 0 <= i < j < |triages| ==> triages[i].visit != triages[j].visit
  }

  predicate OneDiagnosisPerVisit(diagnoses: seq<DiagnosisRecord>) {
    forall i, j :: 0 <= i < j < |diagnoses| ==> diagnoses[i].visit != diagnoses[j].visit
  }

  /** A triaged visit is waiting, in consultation or discharged; a diagnosed
      visit is discharged. */
  predicate RecordsFollowStages(db: Db) {
    (forall i :: 0 <= i < |db.triages| ==>
      db.triages[i].visit < |db.visits| && Waiting <= db.visits[db.triages[i].visit].stage <= Discharged) &&
    (forall i :: 0 <= i < |db.diagnoses| ==>
      db.diagnoses[i].visit < |db.visits| && db.visits[db.diagnoses[i].visit].stage == Discharged)
  }

  predicate UniqueCpf(users: seq<User>) {
    forall i, j :: 0 <= i < j < |users| ==> users[i].cpf != users[j].cpf
  }

  predicate Consistent(db: Db) {
    && OneActiveVisitPerPatient(db.visits)
    && OneTriagePerVisit(db.triages)
    && OneDiagnosisPerVisit(db.diagnoses)
    && RecordsFollowStages(db)
    && UniqueCpf(db.users)
  }

  // ---------------------------------------------------------------------------
  // Lookups

  /** `SELECT ID_USUARIO FROM USUARIO WHERE CPF = ? [AND ATIVO = 1]`. */
  function FindUserByCpf(users: seq<User>, cpf: string, activeOnly: bool): Option<nat> {
    FirstIndex(users, (u: User) => u.cpf == cpf && (activeOnly ==> u.active))
  }

  /** `SELECT ID_CONSULTA FROM CONSULTA WHERE ID_USUARIO = ? AND SITUACAO = ?`. */
  function FindVisit(visits: seq<Visit>, patient: nat, stage: int): Option<nat> {
    FirstIndex(visits, (v: Visit) => v.patient == patient && v.stage == stage)
  }

  /** `SELECT 1 FROM CONSULTA WHERE ID_USUARIO = ? AND SITUACAO != 5`. */
  predicate HasActiveVisit(visits: seq<Visit>, patient: nat) {
    exists i :: 0 <= i < |visits| && visits[i].patient == patient && visits[i].stage != Discharged
  }

  /** `SELECT 1 FROM TRIAGEM WHERE ID_CONSULTA = ?`. */
  predicate HasTriage(triages: seq<TriageRecord>, visit: nat) {
    exists i :: 0 <= i < |triages| && triages[i].visit == visit
  }

  /** `SELECT 1 FROM DIAGNOSTICO WHERE ID_CONSULTA = ?`. */
  predicate HasDiagnosis(diagnoses: seq<DiagnosisRecord>, visit: nat) {
    exists i :: 0 <= i < |diagnoses| && diagnoses[i].visit == visit
  }

  /** The visit a handler acts on: the first visit at `stage` of the first
      user holding `cpf` (only active users when `activeOnly`). */
  function Target(db: Db, cpf: string, activeOnly: bool, stage: int): (k: Option<nat>)
    ensures k.Some? ==> k.value < |db.visits| && db.visits[k.value].stage == stage
    ensures k.Some? ==>
      && FindUserByCpf(db.users, cpf, activeOnly).Some?
      && db.visits[k.value].patient == FindUserByCpf(db.users, cpf, activeOnly).value
    ensures FindUserByCpf(db.users, cpf, activeOnly).None? ==> k.None?
    ensures FindUserByCpf(db.users, cpf, activeOnly).Some? ==>
      var p := FindUserByCpf(db.users, cpf, activeOnly).value;
      && (k.None? <==> forall i :: 0 <= i < |db.visits| ==> !(db.visits[i].patient == p && db.visits[i].stage == stage))
      && (k.Some? ==> forall i :: 0 <= i < k.value ==> !(db.visits[i].patient == p && db.visits[i].stage == stage))
  {
    match FindUserByCpf(db.users, cpf, activeOnly)
    case None => None
    case Some(p) => FindVisit(db.visits, p, stage)
  }

  /** `after` is `before` with visit `k` moved from stage `from` to the next
      stage; its patient, arrival and receptionist are kept and every other
      visit is left as it was. */
  predicate AdvancedOneStage(before: seq<Visit>, after: seq<Visit>, k: nat, from: int) {
    && |after| == |before| && k < |before|
    && before[k].stage == from && after[k].stage == from + 1
    && after[k].patient == before[k].patient
    && after[k].arrival == before[k].arrival
    && after[k].receptionist == before[k].receptionist
    && (forall j :: 0 <= j < |before| && j != k ==> after[j] == before[j])
  }

  /** With unique CPFs, the user found by CPF is the one holding it. */
  lemma FindUserByCpfUnique(users: seq<User>, i: nat, activeOnly: bool)
    requires UniqueCpf(users) && i < |users| && (activeOnly ==> users[i].active)
    ensures FindUserByCpf(users, users[i].cpf, activeOnly) == Some(i)
  {
  }

  /** Rewriting a user without touching its CPF does not change who is
      found by CPF, when active users are not singled out. */
  lemma FindUserByCpfAfterUpdate(users: seq<User>, i: nat, u: User, cpf: string)
    requires i < |users| && u.cpf == users[i].cpf
    ensures FindUserByCpf(users[i := u], cpf, false) == FindUserByCpf(users, cpf, false)
  {
    var p := (w: User) => w.cpf == cpf && (false ==> w.active);
    var before, after := FindUserByCpf(users, cpf, false), FindUserByCpf(users[i := u], cpf, false);
    assert forall j :: 0 <= j < |users| ==> p(users[i := u][j]) == p(users[j]);
    if before.Some? && after.Some? {
      assert !(before.value < after.value) && !(after.value < before.value);
    }
  }

  // ---------------------------------------------------------------------------
  // The handlers' prologue

  /** `if not token` → 401; `remover_bearer`; `validar_token`. */
  function Authenticate(header: Option<string>, verify: Oracle): (r: Result<int>)
    ensures !Given(header) ==> r == Err(MissingToken)
    ensures r.Ok? <==> Given(header) && verify(RemoverBearer(header.value)).Accepted?
    ensures r.Ok? ==> r.value == verify(RemoverBearer(header.value)).userId
  {
    if !Given(header) then Err(MissingToken)
    else match verify(RemoverBearer(header.value))
      case Accepted(id) => Ok(id)
      case Refused(reason) => Err(BadToken(reason))
  }

  /** Authentication, then `SELECT TIPO_USUARIO ... WHERE ID_USUARIO = ?
      [AND ATIVO = 1]`, then the role check; the caller's id on success. */
  function Authorize(users: seq<User>, header: Option<string>, verify: Oracle,
                     activeOnly: bool, allowed: set<int>, denied: Error): (r: Result<nat>)
    ensures r.Ok? <==>
      Authenticate(header, verify).Ok? &&
      var id := Authenticate(header, verify).value;
      0 <= id < |users| && users[id].kind in allowed && (activeOnly ==> users[id].active)
    ensures r.Ok? ==> r.value as int == Authenticate(header, verify).value
    ensures Authenticate(header, verify).Err? ==> r == Err(Authenticate(header, verify).error)
  {
    match Authenticate(header, verify)
    case Err(e) => Err(e)
    case Ok(id) =>
      if !(0 <= id < |users|) || (activeOnly && !users[id].active) then
        Err(if activeOnly then UserNotFoundOrInactive else UserNotFound)
      else if users[id].kind !in allowed then Err(denied)
      else Ok(id as nat)
  }

  // ---------------------------------------------------------------------------
  // CONSULTA c LEFT JOIN TRIAGEM t ON t.ID_CONSULTA = c.ID_CONSULTA

  /** One row of the join: a visit with the risk of one of its triages, or
      with no risk when it has none. */
  datatype JoinRow = JoinRow(visitId: nat, visit: Visit, risk: Option<int>)

  function TriagesOf(triages: seq<TriageRecord>, visit: nat): seq<TriageRecord> {
    Filter(triages, (t: TriageRecord) => t.visit == visit)
  }

  function RowsOf(k: nat, v: Visit, triages: seq<TriageRecord>): (rows: seq<JoinRow>)
    ensures |rows| >= 1
    ensures forall i :: 0 <= i < |rows| ==> rows[i].visitId == k && rows[i].visit == v
  {
    var ts := TriagesOf(triages, k);
    if ts == [] then [JoinRow(k, v, None)]
    else seq(|ts|, i requires 0 <= i < |ts| => JoinRow(k, v, ts[i].form.risk))
  }

  function Join(visits: seq<Visit>, triages: seq<TriageRecord>): seq<JoinRow>
    decreases |visits|
  {
    if visits == [] then []
    else
      var last := |visits| - 1;
      Join(visits[..last], triages) + RowsOf(last, visits[last], triages)
  }

  /** The risk the join attaches to a visit that has at most one triage. */
  function RiskOf(triages: seq<TriageRecord>, visit: nat): Option<int> {
    var ts := TriagesOf(triages, visit);
    if ts == [] then None else ts[0].form.risk
  }

  lemma {:induction false} AtMostOneTriageOf(triages: seq<TriageRecord>, visit: nat)
    requires OneTriagePerVisit(triages)
    ensures |TriagesOf(triages, visit)| <= 1
  {
    if triages != [] {
      AtMostOneTriageOf(triages[1..], visit);
      if triages[0].visit == visit {
        NoTriageOf(triages[1..], visit);
      }
    }
  }

  lemma {:induction false} NoTriageOf(triages: seq<TriageRecord>, visit: nat)
    requires forall i :: 0 <= i < |triages| ==> triages[i].visit != visit
    ensures TriagesOf(triages, visit) == []
  {
    if triages != [] {
      NoTriageOf(triages[1..], visit);
    }
  }

  /** With at most one triage per visit the join has exactly one row per
      visit, in visit order. */
  lemma {:induction false} JoinOneRowPerVisit(visits: seq<Visit>, triages: seq<TriageRecord>)
    requires OneTriagePerVisit(triages)
    ensures |Join(visits, triages)| == |visits|
    ensures forall k :: 0 <= k < |visits| ==>
      Join(visits, triages)[k] == JoinRow(k, visits[k], RiskOf(triages, k))
    decreases |visits|
  {
    if visits != [] {
      var last := |visits| - 1;
      var prefix := visits[..last];
      var rows := Join(prefix, triages);
      JoinOneRowPerVisit(prefix, triages);
      JoinLast(visits, triages);
      forall k | 0 <= k < last
        ensures Join(visits, triages)[k] == JoinRow(k, visits[k], RiskOf(triages, k))
      {
        assert Join(visits, triages)[k] == rows[k];
        assert prefix[k] == visits[k];
      }
    }
  }

  /** The last visit contributes exactly one row to the join when it has at
      most one triage. */
  lemma JoinLast(visits: seq<Visit>, triages: seq<TriageRecord>)
    requires OneTriagePerVisit(triages) && visits != []
    ensures var last := |visits| - 1;
      Join(visits, triages) == Join(visits[..last], triages) + [JoinRow(last, visits[last], RiskOf(triages, last))]
  {
    var last := |visits| - 1;
    AtMostOneTriageOf(triages, last);
    var ts := TriagesOf(triages, last);
    var rows := RowsOf(last, visits[last], triages);
    if ts != [] {
      assert |rows| == |ts| == 1;
    }
    assert rows == [JoinRow(last, visits[last], RiskOf(triages, last))];
  }

  // ---------------------------------------------------------------------------
  // The database object

  /** The connection the handlers share: the four tables, updated in place. */
  class Database {
    var users: seq<User>
    var visits: seq<Visit>
    var triages: seq<TriageRecord>
    var diagnoses: seq<DiagnosisRecord>

    function State(): Db
      reads this
    {
      Db(users, visits, triages, diagnoses)
    }

    ghost predicate Valid()
      reads this
    {
      Consistent(State())
    }

    constructor (admins: seq<User>)
      requires UniqueCpf(admins)
      ensures State() == Db(admins, [], [], []) && Valid()
    {
      users, visits, triages, diagnoses := admins, [], [], [];
    }
  }
}
