/** diagnostico_view.py: a physician (or an admin) calls a waiting patient in
    (`start_diagnostico`) and then records the diagnosis and prescription
    (`update_diagnostico`). Unlike triage, both the caller and the patient
    must be active accounts. */
module DiagnosticoView {
  import opened Common
  import opened Utils
  import opened Store

  /** Who may diagnose: an admin or a physician. */
  const DiagnosisStaff: set<int> := {Admin, Physician}

  // ---------------------------------------------------------------------------
  // start_diagnostico

  /** `start_diagnostico`: the active patient's waiting visit moves to
      consultation and the diagnosis start is stamped with the current time. */
  function StartDiagnosticoStep(db: Db, header: Option<string>, verify: Oracle,
                                cpf: Option<string>, now: int): (s: Step)
    ensures s.outcome == Done || s.outcome.Failed?
    ensures s.outcome.Failed? ==> s.db == db
    ensures s.outcome == Done ==>
      && Authorize(db.users, header, verify, true, DiagnosisStaff, Unauthorized).Ok?
      && Given(cpf) && Target(db, cpf.value, true, Waiting).Some?
      && var k := Target(db, cpf.value, true, Waiting).value;
      && db.users[db.visits[k].patient].active
      && AdvancedOneStage(db.visits, s.db.visits, k, Waiting)
      && s.db.visits[k].diagnosisStart == Some(now)
      && s.db.visits[k].triageStart == db.visits[k].triageStart
      && s.db.users == db.users && s.db.triages == db.triages && s.db.diagnoses == db.diagnoses
  {
    match Authorize(db.users, header, verify, true, DiagnosisStaff, Unauthorized)
    case Err(e) => Step(db, Failed(e))
    case Ok(_) =>
      if !Given(cpf) then Step(db, Failed(IncompleteData))
      else match FindUserByCpf(db.users, cpf.value, true)
        case None => Step(db, Failed(PatientNotFoundOrInactive))
        case Some(p) =>
          match FindVisit(db.visits, p, Waiting)
          case None => Step(db, Failed(NoVisitFound))
          case Some(k) =>
            Step(db.(visits := db.visits[k := db.visits[k].(stage := InConsultation, diagnosisStart := Some(now))]), Done)
  }

  /** A patient whose account is inactive (or unknown) cannot be called in. */
  lemma StartDiagnosticoNeedsActivePatient(db: Db, header: Option<string>, verify: Oracle,
                                           cpf: string, now: int)
    requires Authorize(db.users, header, verify, true, DiagnosisStaff, Unauthorized).Ok? && cpf != ""
    requires forall i :: 0 <= i < |db.users| && db.users[i].cpf == cpf ==> !db.users[i].active
    ensures StartDiagnosticoStep(db, header, verify, Some(cpf), now) == Step(db, Failed(PatientNotFoundOrInactive))
  {
  }

  lemma StartDiagnosticoKeepsConsistent(db: Db, header: Option<string>, verify: Oracle,
                                        cpf: Option<string>, now: int)
    requires Consistent(db)
    ensures Consistent(StartDiagnosticoStep(db, header, verify, cpf, now).db)
  {
    var s := StartDiagnosticoStep(db, header, verify, cpf, now);
    if s.outcome == Done {
      var k := Target(db, cpf.value, true, Waiting).value;
      assert !HasDiagnosis(db.diagnoses, k);
    }
  }

  method StartDiagnostico(store: Database, header: Option<string>, verify: Oracle,
                          cpf: Option<string>, now: int) returns (outcome: Outcome)
    modifies store
    ensures var s := StartDiagnosticoStep(old(store.State()), header, verify, cpf, now);
      store.State() == s.db && outcome == s.outcome
    ensures old(store.Valid()) ==> store.Valid()
  {
    if store.Valid() {
      StartDiagnosticoKeepsConsistent(store.State(), header, verify, cpf, now);
    }
    var auth := Authorize(store.users, header, verify, true, DiagnosisStaff, Unauthorized);
    if auth.Err? {
      return Failed(auth.error);
    }
    if !Given(cpf) {
      return Failed(IncompleteData);
    }
    var patient := FindUserByCpf(store.users, cpf.value, true);
    if patient.None? {
      return Failed(PatientNotFoundOrInactive);
    }
    var visit := FindVisit(store.visits, patient.value, Waiting);
    if visit.None? {
      return Failed(NoVisitFound);
    }
    var k := visit.value;
    store.visits := store.visits[k := store.visits[k].(stage := InConsultation, diagnosisStart := Some(now))];
    outcome := Done;
  }

  // ---------------------------------------------------------------------------
  // update_diagnostico

  /** `update_diagnostico`: the diagnosis of the patient's visit in
      consultation is recorded and the visit is discharged. When that visit
      already has a diagnosis nothing is recorded, but the visit is still
      discharged and the handler answers 'Diagnóstico já cadastrado.'. */
  function UpdateDiagnosticoStep(db: Db, header: Option<string>, verify: Oracle,
                                 diagnostico: Value, receita: Value, cpf: Option<string>): (s: Step)
    ensures s.outcome == Done || s.outcome.Failed?
    ensures s.outcome.Failed? && s.outcome != Failed(DiagnosisAlreadyRecorded) ==> s.db == db
    ensures s.outcome == Done || s.outcome == Failed(DiagnosisAlreadyRecorded) ==>
      && Authorize(db.users, header, verify, true, DiagnosisStaff, Unauthorized).Ok?
      && Truthy(diagnostico) && Truthy(receita) && Given(cpf)
      && Target(db, cpf.value, true, InConsultation).Some?
      && var k := Target(db, cpf.value, true, InConsultation).value;
      && AdvancedOneStage(db.visits, s.db.visits, k, InConsultation)
      && s.db.visits[k].triageStart == db.visits[k].triageStart
      && s.db.visits[k].diagnosisStart == db.visits[k].diagnosisStart
      && s.db.users == db.users && s.db.triages == db.triages
      && (s.outcome == Done <==> !HasDiagnosis(db.diagnoses, k))
      && (s.outcome == Done ==>
            s.db.diagnoses == db.diagnoses +
              [DiagnosisRecord(k, diagnostico, receita,
                 Authorize(db.users, header, verify, true, DiagnosisStaff, Unauthorized).value)])
      && (s.outcome != Done ==> s.db.diagnoses == db.diagnoses)
  {
    match Authorize(db.users, header, verify, true, DiagnosisStaff, Unauthorized)
    case Err(e) => Step(db, Failed(e))
    case Ok(caller) =>
      if !Truthy(diagnostico) || !Truthy(receita) || !Given(cpf) then Step(db, Failed(IncompleteData))
      else match FindUserByCpf(db.users, cpf.value, true)
        case None => Step(db, Failed(PatientNotFoundOrInactive))
        case Some(p) =>
          match FindVisit(db.visits, p, InConsultation)
          case None => Step(db, Failed(NoVisitFound))
          case Some(k) =>
            var moved := db.visits[k := db.visits[k].(stage := Discharged)];
            if HasDiagnosis(db.diagnoses, k) then Step(db.(visits := moved), Failed(DiagnosisAlreadyRecorded))
            else Step(db.(visits := moved, diagnoses := db.diagnoses + [DiagnosisRecord(k, diagnostico, receita, caller)]), Done)
  }

  /** A patient without a visit in consultation gets 'Nenhuma consulta
      encontrada.' and nothing changes. */
  lemma UpdateDiagnosticoNeedsConsultation(db: Db, header: Option<string>, verify: Oracle,
                                           diagnostico: Value, receita: Value, cpf: string)
    requires Authorize(db.users, header, verify, true, DiagnosisStaff, Unauthorized).Ok?
    requires Truthy(diagnostico) && Truthy(receita) && cpf != ""
    requires FindUserByCpf(db.users, cpf, true).Some?
    requires forall i :: 0 <= i < |db.visits| ==>
      db.visits[i].patient == FindUserByCpf(db.users, cpf, true).value ==> db.visits[i].stage != InConsultation
    ensures UpdateDiagnosticoStep(db, header, verify, diagnostico, receita, Some(cpf)) == Step(db, Failed(NoVisitFound))
  {
  }

  /** A visit never gets a second diagnosis record, whatever the stages say. */
  lemma UpdateDiagnosticoNeverDuplicates(db: Db, header: Option<string>, verify: Oracle,
                                         diagnostico: Value, receita: Value, cpf: Option<string>)
    requires OneDiagnosisPerVisit(db.diagnoses)
    ensures OneDiagnosisPerVisit(UpdateDiagnosticoStep(db, header, verify, diagnostico, receita, cpf).db.diagnoses)
  {
  }

  /** In a consistent store a visit in consultation has no diagnosis yet, so
      the 'Diagnóstico já cadastrado.' branch is never taken. */
  lemma DiagnosisRepairUnreachable(db: Db, header: Option<string>, verify: Oracle,
                                   diagnostico: Value, receita: Value, cpf: Option<string>)
    requires Consistent(db)
    ensures UpdateDiagnosticoStep(db, header, verify, diagnostico, receita, cpf).outcome != Failed(DiagnosisAlreadyRecorded)
  {
    if Authorize(db.users, header, verify, true, DiagnosisStaff, Unauthorized).Ok? &&
       Truthy(diagnostico) && Truthy(receita) && Given(cpf) {
      var k := Target(db, cpf.value, true, InConsultation);
      if k.Some? {
        assert !HasDiagnosis(db.diagnoses, k.value);
      }
    }
  }

  lemma UpdateDiagnosticoKeepsConsistent(db: Db, header: Option<string>, verify: Oracle,
                                         diagnostico: Value, receita: Value, cpf: Option<string>)
    requires Consistent(db)
    ensures Consistent(UpdateDiagnosticoStep(db, header, verify, diagnostico, receita, cpf).db)
  {
    var s := UpdateDiagnosticoStep(db, header, verify, diagnostico, receita, cpf);
    DiagnosisRepairUnreachable(db, header, verify, diagnostico, receita, cpf);
    if s.outcome == Done {
      assert forall i :: 0 <= i < |db.diagnoses| ==> s.db.diagnoses[i] == db.diagnoses[i];
    }
  }

  method UpdateDiagnostico(store: Database, header: Option<string>, verify: Oracle,
                           diagnostico: Value, receita: Value, cpf: Option<string>) returns (outcome: Outcome)
    modifies store
    ensures var s := UpdateDiagnosticoStep(old(store.State()), header, verify, diagnostico, receita, cpf);
      store.State() == s.db && outcome == s.outcome
    ensures old(store.Valid()) ==> store.Valid()
  {
    if store.Valid() {
      UpdateDiagnosticoKeepsConsistent(store.State(), header, verify, diagnostico, receita, cpf);
    }
    var auth := Authorize(store.users, header, verify, true, DiagnosisStaff, Unauthorized);
    if auth.Err? {
      return Failed(auth.error);
    }
    if !Truthy(diagnostico) || !Truthy(receita) || !Given(cpf) {
      return Failed(IncompleteData);
    }
    var patient := FindUserByCpf(store.users, cpf.value, true);
    if patient.None? {
      return Failed(PatientNotFoundOrInactive);
    }
    var visit := FindVisit(store.visits, patient.value, InConsultation);
    if visit.None? {
      return Failed(NoVisitFound);
    }
    var k := visit.value;
    if HasDiagnosis(store.diagnoses, k) {
      store.visits := store.visits[k := store.visits[k].(stage := Discharged)];
      return Failed(DiagnosisAlreadyRecorded);
    }
    store.diagnoses := store.diagnoses + [DiagnosisRecord(k, diagnostico, receita, auth.value)];
    store.visits := store.visits[k := store.visits[k].(stage := Discharged)];
    outcome := Done;
  }

  /** Only active admins and physicians can move a visit through
      consultation: an inactive caller is told so, any other kind of caller is
      refused, and nothing changes. */
  lemma OnlyActiveDiagnosisStaff(db: Db, header: Option<string>, verify: Oracle, id: int,
                                 diagnostico: Value, receita: Value, cpf: Option<string>, now: int)
    requires Authenticate(header, verify) == Ok(id) && 0 <= id < |db.users|
    requires !db.users[id].active || db.users[id].kind !in DiagnosisStaff
    ensures var e := if db.users[id].active then Unauthorized else UserNotFoundOrInactive;
      && StartDiagnosticoStep(db, header, verify, cpf, now) == Step(db, Failed(e))
      && UpdateDiagnosticoStep(db, header, verify, diagnostico, receita, cpf) == Step(db, Failed(e))
  {
  }
}
