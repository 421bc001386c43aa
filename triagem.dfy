/** triagem_view.py: a nurse (or an admin) calls an arrived patient to triage
    (`start_triagem`) and then records the triage (`update_triagem`). */
module TriagemView {
  import opened Common
  import opened Utils
  import opened Store

  /** Who may triage: an admin or a nurse. */
  const TriageStaff: set<int> := {Admin, Nurse}

  // ---------------------------------------------------------------------------
  // start_triagem

  /** `start_triagem`: the patient's arrived visit moves to triage and the
      triage start is stamped with the current time. */
  function StartTriagemStep(db: Db, header: Option<string>, verify: Oracle,
                            cpf: Option<string>, now: int): (s: Step)
    ensures s.outcome == Done || s.outcome.Failed?
    ensures s.outcome.Failed? ==> s.db == db
    ensures s.outcome == Done ==>
      && Authorize(db.users, header, verify, false, TriageStaff, Unauthorized).Ok?
      && Given(cpf) && Target(db, cpf.value, false, Arrived).Some?
      && var k := Target(db, cpf.value, false, Arrived).value;
      && AdvancedOneStage(db.visits, s.db.visits, k, Arrived)
      && s.db.visits[k].triageStart == Some(now)
      && s.db.visits[k].diagnosisStart == db.visits[k].diagnosisStart
      && s.db.users == db.users && s.db.triages == db.triages && s.db.diagnoses == db.diagnoses
  {
    match Authorize(db.users, header, verify, false, TriageStaff, Unauthorized)
    case Err(e) => Step(db, Failed(e))
    case Ok(_) =>
      if !Given(cpf) then Step(db, Failed(IncompleteData))
      else match FindUserByCpf(db.users, cpf.value, false)
        case None => Step(db, Failed(PatientNotFound))
        case Some(p) =>
          match FindVisit(db.visits, p, Arrived)
          case None => Step(db, Failed(NoVisitFound))
          case Some(k) =>
            Step(db.(visits := db.visits[k := db.visits[k].(stage := InTriage, triageStart := Some(now))]), Done)
  }

  /** A patient without an arrived visit gets 'Nenhuma consulta encontrada.'
      and nothing changes. */
  lemma StartTriagemNeedsArrival(db: Db, header: Option<string>, verify: Oracle, cpf: string, now: int)
    requires Authorize(db.users, header, verify, false, TriageStaff, Unauthorized).Ok? && cpf != ""
    requires FindUserByCpf(db.users, cpf, false).Some?
    requires forall i :: 0 <= i < |db.visits| ==>
      db.visits[i].patient == FindUserByCpf(db.users, cpf, false).value ==> db.visits[i].stage != Arrived
    ensures StartTriagemStep(db, header, verify, Some(cpf), now) == Step(db, Failed(NoVisitFound))
  {
  }

  lemma StartTriagemKeepsConsistent(db: Db, header: Option<string>, verify: Oracle,
                                    cpf: Option<string>, now: int)
    requires Consistent(db)
    ensures Consistent(StartTriagemStep(db, header, verify, cpf, now).db)
  {
    var s := StartTriagemStep(db, header, verify, cpf, now);
    if s.outcome == Done {
      var k := Target(db, cpf.value, false, Arrived).value;
      assert !HasTriage(db.triages, k);
      assert !HasDiagnosis(db.diagnoses, k);
    }
  }

  method StartTriagem(store: Database, header: Option<string>, verify: Oracle,
                      cpf: Option<string>, now: int) returns (outcome: Outcome)
    modifies store
    ensures var s := StartTriagemStep(old(store.State()), header, verify, cpf, now);
      store.State() == s.db && outcome == s.outcome
    ensures old(store.Valid()) ==> store.Valid()
  {
    if store.Valid() {
      StartTriagemKeepsConsistent(store.State(), header, verify, cpf, now);
    }
    var auth := Authorize(store.users, header, verify, false, TriageStaff, Unauthorized);
    if auth.Err? {
      return Failed(auth.error);
    }
    if !Given(cpf) {
      return Failed(IncompleteData);
    }
    var patient := FindUserByCpf(store.users, cpf.value, false);
    if patient.None? {
      return Failed(PatientNotFound);
    }
    var visit := FindVisit(store.visits, patient.value, Arrived);
    if visit.None? {
      return Failed(NoVisitFound);
    }
    var k := visit.value;
    store.visits := store.visits[k := store.visits[k].(stage := InTriage, triageStart := Some(now))];
    outcome := Done;
  }

  // ---------------------------------------------------------------------------
  // update_triagem

  /** Every clinical field of the request is present and truthy. */
  predicate TriageComplete(f: TriageForm) {
    && Truthy(f.complaint) && Truthy(f.temperature) && Truthy(f.pressure)
    && Truthy(f.heartRate) && Truthy(f.saturation) && Truthy(f.painLevel)
    && Truthy(f.allergy) && Truthy(f.medication) && GivenNumber(f.risk)
  }

  /** `update_triagem`: the triage of the patient's visit in triage is
      recorded and the visit moves on to waiting. When that visit already has
      a triage nothing is recorded, but the visit is still moved on and the
      handler answers 'Triagem já cadastrada.'. */
  function UpdateTriagemStep(db: Db, header: Option<string>, verify: Oracle,
                             form: TriageForm, cpf: Option<string>): (s: Step)
    ensures s.outcome == Done || s.outcome.Failed?
    ensures s.outcome.Failed? && s.outcome != Failed(TriageAlreadyRecorded) ==> s.db == db
    ensures s.outcome == Done || s.outcome == Failed(TriageAlreadyRecorded) ==>
      && Authorize(db.users, header, verify, false, TriageStaff, Unauthorized).Ok?
      && TriageComplete(form) && Given(cpf) && Target(db, cpf.value, false, InTriage).Some?
      && var k := Target(db, cpf.value, false, InTriage).value;
      && AdvancedOneStage(db.visits, s.db.visits, k, InTriage)
      && s.db.visits[k].triageStart == db.visits[k].triageStart
      && s.db.visits[k].diagnosisStart == db.visits[k].diagnosisStart
      && s.db.users == db.users && s.db.diagnoses == db.diagnoses
      && (s.outcome == Done <==> !HasTriage(db.triages, k))
      && (s.outcome == Done ==>
            s.db.triages == db.triages +
              [TriageRecord(k, form, Authorize(db.users, header, verify, false, TriageStaff, Unauthorized).value)])
      && (s.outcome != Done ==> s.db.triages == db.triages)
  {
    match Authorize(db.users, header, verify, false, TriageStaff, Unauthorized)
    case Err(e) => Step(db, Failed(e))
    case Ok(caller) =>
      if !TriageComplete(form) || !Given(cpf) then Step(db, Failed(IncompleteData))
      else match FindUserByCpf(db.users, cpf.value, false)
        case None => Step(db, Failed(PatientNotFound))
        case Some(p) =>
          match FindVisit(db.visits, p, InTriage)
          case None => Step(db, Failed(NoVisitFound))
          case Some(k) =>
            var moved := db.visits[k := db.visits[k].(stage := Waiting)];
            if HasTriage(db.triages, k) then Step(db.(visits := moved), Failed(TriageAlreadyRecorded))
            else Step(db.(visits := moved, triages := db.triages + [TriageRecord(k, form, caller)]), Done)
  }

  /** A request missing any clinical field or the CPF is refused with
      'Dados incompletos.' and nothing changes. */
  lemma UpdateTriagemNeedsCompleteForm(db: Db, header: Option<string>, verify: Oracle,
                                       form: TriageForm, cpf: Option<string>)
    requires Authorize(db.users, header, verify, false, TriageStaff, Unauthorized).Ok?
    requires !TriageComplete(form) || !Given(cpf)
    ensures UpdateTriagemStep(db, header, verify, form, cpf) == Step(db, Failed(IncompleteData))
  {
  }

  /** A visit never gets a second triage record, whatever the stages say. */
  lemma UpdateTriagemNeverDuplicates(db: Db, header: Option<string>, verify: Oracle,
                                     form: TriageForm, cpf: Option<string>)
    requires OneTriagePerVisit(db.triages)
    ensures OneTriagePerVisit(UpdateTriagemStep(db, header, verify, form, cpf).db.triages)
  {
  }

  /** In a consistent store a visit in triage has no triage yet, so the
      'Triagem já cadastrada.' branch is never taken. */
  lemma TriageRepairUnreachable(db: Db, header: Option<string>, verify: Oracle,
                                form: TriageForm, cpf: Option<string>)
    requires Consistent(db)
    ensures UpdateTriagemStep(db, header, verify, form, cpf).outcome != Failed(TriageAlreadyRecorded)
  {
    if Authorize(db.users, header, verify, false, TriageStaff, Unauthorized).Ok? && TriageComplete(form) && Given(cpf) {
      var k := Target(db, cpf.value, false, InTriage);
      if k.Some? {
        assert !HasTriage(db.triages, k.value);
      }
    }
  }

  lemma UpdateTriagemKeepsConsistent(db: Db, header: Option<string>, verify: Oracle,
                                     form: TriageForm, cpf: Option<string>)
    requires Consistent(db)
    ensures Consistent(UpdateTriagemStep(db, header, verify, form, cpf).db)
  {
    var s := UpdateTriagemStep(db, header, verify, form, cpf);
    TriageRepairUnreachable(db, header, verify, form, cpf);
    if s.outcome == Done {
      var k := Target(db, cpf.value, false, InTriage).value;
      assert !HasDiagnosis(db.diagnoses, k);
      assert forall i :: 0 <= i < |db.triages| ==> s.db.triages[i] == db.triages[i];
    }
  }

  method UpdateTriagem(store: Database, header: Option<string>, verify: Oracle,
                       form: TriageForm, cpf: Option<string>) returns (outcome: Outcome)
    modifies store
    ensures var s := UpdateTriagemStep(old(store.State()), header, verify, form, cpf);
      store.State() == s.db && outcome == s.outcome
    ensures old(store.Valid()) ==> store.Valid()
  {
    if store.Valid() {
      UpdateTriagemKeepsConsistent(store.State(), header, verify, form, cpf);
    }
    var auth := Authorize(store.users, header, verify, false, TriageStaff, Unauthorized);
    if auth.Err? {
      return Failed(auth.error);
    }
    if !TriageComplete(form) || !Given(cpf) {
      return Failed(IncompleteData);
    }
    var patient := FindUserByCpf(store.users, cpf.value, false);
    if patient.None? {
      return Failed(PatientNotFound);
    }
    var visit := FindVisit(store.visits, patient.value, InTriage);
    if visit.None? {
      return Failed(NoVisitFound);
    }
    var k := visit.value;
    if HasTriage(store.triages, k) {
      store.visits := store.visits[k := store.visits[k].(stage := Waiting)];
      return Failed(TriageAlreadyRecorded);
    }
    store.triages := store.triages + [TriageRecord(k, form, auth.value)];
    store.visits := store.visits[k := store.visits[k].(stage := Waiting)];
    outcome := Done;
  }

  /** Only admins and nurses can move a visit through triage: any other
      caller is refused by both handlers and nothing changes. */
  lemma OnlyTriageStaff(db: Db, header: Option<string>, verify: Oracle, id: int,
                        form: TriageForm, cpf: Option<string>, now: int)
    requires Authenticate(header, verify) == Ok(id) && 0 <= id < |db.users|
    requires db.users[id].kind !in TriageStaff
    ensures StartTriagemStep(db, header, verify, cpf, now) == Step(db, Failed(Unauthorized))
    ensures UpdateTriagemStep(db, header, verify, form, cpf) == Step(db, Failed(Unauthorized))
  {
  }
}
