/** The handlers together: a patient registered at the front desk can go
    through the whole visit (arrival, triage, consultation, discharge) and
    can then be registered again; a newly registered patient can log in with
    the SUS number. */
module Workflow {
  import opened Common
  import opened Utils
  import opened Mask
  import opened Store
  import opened ConsultaView
  import opened TriagemView
  import opened DiagnosticoView
  import opened LoginView
  import opened CadastroView

  /** Visit `n` is patient `p`'s only visit that is not discharged, and it is
      at `stage`. */
  predicate OnlyOpenVisit(db: Db, p: nat, n: nat, stage: int) {
    && n < |db.visits| && db.visits[n].patient == p && db.visits[n].stage == stage
    && forall i :: 0 <= i < |db.visits| && i != n && db.visits[i].patient == p ==>
         db.visits[i].stage == Discharged
  }

  /** The patient's open visit is the one every stage lookup finds. */
  lemma OpenVisitIsFound(db: Db, p: nat, n: nat, stage: int)
    requires OnlyOpenVisit(db, p, n, stage) && stage != Discharged
    ensures FindVisit(db.visits, p, stage) == Some(n)
  {
  }

  /** Moving visit `n` one stage on keeps it the patient's only open visit. */
  lemma AdvancedStaysOnlyOpen(before: Db, after: Db, p: nat, n: nat, from: int)
    requires OnlyOpenVisit(before, p, n, from) && AdvancedOneStage(before.visits, after.visits, n, from)
    ensures OnlyOpenVisit(after, p, n, from + 1)
  {
  }

  /** Arrival: the front desk registers the visit. */
  lemma ArrivalStage(db: Db, desk: Option<string>, verify: Oracle, c: string, p: nat, now: int)
    requires Consistent(db) && c != ""
    requires Authorize(db.users, desk, verify, false, FrontDesk, Unauthorized).Ok?
    requires FindUserByCpf(db.users, c, false) == Some(p) && !HasActiveVisit(db.visits, p)
    ensures var s := AddConsultaStep(db, desk, verify, Some(Arrived), Some(c), now);
      && s.outcome == Done && s.db.users == db.users && Consistent(s.db)
      && OnlyOpenVisit(s.db, p, |db.visits|, Arrived)
  {
    AddConsultaKeepsConsistent(db, desk, verify, Some(Arrived), Some(c), now);
  }

  lemma TriageStages(db: Db, nurse: Option<string>, verify: Oracle, c: string, p: nat, n: nat,
                     form: TriageForm, now: int)
    requires Consistent(db) && c != "" && TriageComplete(form)
    requires Authorize(db.users, nurse, verify, false, TriageStaff, Unauthorized).Ok?
    requires FindUserByCpf(db.users, c, false) == Some(p) && OnlyOpenVisit(db, p, n, Arrived)
    ensures var s1 := StartTriagemStep(db, nurse, verify, Some(c), now);
      var s2 := UpdateTriagemStep(s1.db, nurse, verify, form, Some(c));
      && s1.outcome == Done && s2.outcome == Done
      && s2.db.users == db.users && Consistent(s2.db) && OnlyOpenVisit(s2.db, p, n, Waiting)
      && s2.db.triages == db.triages +
           [TriageRecord(n, form, Authorize(db.users, nurse, verify, false, TriageStaff, Unauthorized).value)]
  {
    OpenVisitIsFound(db, p, n, Arrived);
    var s1 := StartTriagemStep(db, nurse, verify, Some(c), now);
    StartTriagemKeepsConsistent(db, nurse, verify, Some(c), now);
    AdvancedStaysOnlyOpen(db, s1.db, p, n, Arrived);
    OpenVisitIsFound(s1.db, p, n, InTriage);
    TriageRepairUnreachable(s1.db, nurse, verify, form, Some(c));
    var s2 := UpdateTriagemStep(s1.db, nurse, verify, form, Some(c));
    UpdateTriagemKeepsConsistent(s1.db, nurse, verify, form, Some(c));
    AdvancedStaysOnlyOpen(s1.db, s2.db, p, n, InTriage);
  }

  lemma ConsultationStages(db: Db, doctor: Option<string>, verify: Oracle, c: string, p: nat, n: nat,
                           diagnostico: Value, receita: Value, now: int)
    requires Consistent(db) && c != "" && Truthy(diagnostico) && Truthy(receita)
    requires Authorize(db.users, doctor, verify, true, DiagnosisStaff, Unauthorized).Ok?
    requires FindUserByCpf(db.users, c, true) == Some(p) && OnlyOpenVisit(db, p, n, Waiting)
    ensures var s1 := StartDiagnosticoStep(db, doctor, verify, Some(c), now);
      var s2 := UpdateDiagnosticoStep(s1.db, doctor, verify, diagnostico, receita, Some(c));
      && s1.outcome == Done && s2.outcome == Done
      && s2.db.users == db.users && Consistent(s2.db) && s2.db.triages == db.triages
      && n < |s2.db.visits| && s2.db.visits[n].stage == Discharged
      && !HasActiveVisit(s2.db.visits, p)
  {
    OpenVisitIsFound(db, p, n, Waiting);
    var s1 := StartDiagnosticoStep(db, doctor, verify, Some(c), now);
    StartDiagnosticoKeepsConsistent(db, doctor, verify, Some(c), now);
    AdvancedStaysOnlyOpen(db, s1.db, p, n, Waiting);
    OpenVisitIsFound(s1.db, p, n, InConsultation);
    DiagnosisRepairUnreachable(s1.db, doctor, verify, diagnostico, receita, Some(c));
    var s2 := UpdateDiagnosticoStep(s1.db, doctor, verify, diagnostico, receita, Some(c));
    UpdateDiagnosticoKeepsConsistent(s1.db, doctor, verify, diagnostico, receita, Some(c));
    AdvancedStaysOnlyOpen(s1.db, s2.db, p, n, InConsultation);
  }

  /** A whole visit: an active patient with no visit in progress arrives, is
      triaged and is seen by a physician; the visit ends discharged with one
      triage record, the store stays consistent, and the front desk can
      register the patient's next arrival. */
  lemma {:induction false} WholeVisit(db: Db, verify: Oracle,
                                      desk: Option<string>, nurse: Option<string>, doctor: Option<string>,
                                      p: nat, form: TriageForm, diagnostico: Value, receita: Value,
                                      t0: int, t1: int, t2: int, t3: int)
    requires Consistent(db) && p < |db.users| && db.users[p].active && db.users[p].cpf != ""
    requires !HasActiveVisit(db.visits, p)
    requires Authorize(db.users, desk, verify, false, FrontDesk, Unauthorized).Ok?
    requires Authorize(db.users, nurse, verify, false, TriageStaff, Unauthorized).Ok?
    requires Authorize(db.users, doctor, verify, true, DiagnosisStaff, Unauthorized).Ok?
    requires TriageComplete(form) && Truthy(diagnostico) && Truthy(receita)
    ensures var c := Some(db.users[p].cpf);
      var a := AddConsultaStep(db, desk, verify, Some(Arrived), c, t0);
      var b := StartTriagemStep(a.db, nurse, verify, c, t1);
      var t := UpdateTriagemStep(b.db, nurse, verify, form, c);
      var d := StartDiagnosticoStep(t.db, doctor, verify, c, t2);
      var e := UpdateDiagnosticoStep(d.db, doctor, verify, diagnostico, receita, c);
      && a.outcome == Done && b.outcome == Done && t.outcome == Done && d.outcome == Done && e.outcome == Done
      && Consistent(e.db)
      && e.db.visits[|db.visits|].stage == Discharged
      && |e.db.triages| == |db.triages| + 1 && e.db.triages[|db.triages|].visit == |db.visits|
      && AddConsultaStep(e.db, desk, verify, Some(Arrived), c, t3).outcome == Done
  {
    var c := db.users[p].cpf;
    var n := |db.visits|;
    FindUserByCpfUnique(db.users, p, false);
    FindUserByCpfUnique(db.users, p, true);
    ArrivalStage(db, desk, verify, c, p, t0);
    var a := AddConsultaStep(db, desk, verify, Some(Arrived), Some(c), t0);
    TriageStages(a.db, nurse, verify, c, p, n, form, t1);
    var b := StartTriagemStep(a.db, nurse, verify, Some(c), t1);
    var t := UpdateTriagemStep(b.db, nurse, verify, form, Some(c));
    ConsultationStages(t.db, doctor, verify, c, p, n, diagnostico, receita, t2);
  }

  /** A patient registered at the front desk can log in at once, with the
      SUS number as password, and is told their kind. */
  lemma RegisteredPatientCanLogIn(db: Db, header: Option<string>, verify: Oracle, f: CadastroForm, birthValid: bool)
    requires CadastroStep(db, header, verify, f, birthValid).outcome == Done
    requires f.tipo == Some(Patient)
    ensures var s := CadastroStep(db, header, verify, f, birthValid);
      LoginStep(s.db, Some(f.cpf.s), Some(f.document.s)).outcome == LoggedIn(|db.users|, Patient)
  {
    var s := CadastroStep(db, header, verify, f, birthValid);
    RegisteredUserIsFound(db, header, verify, f, birthValid, false);
    assert |Digits(f.cpf.s)| == 11;
    assert |Digits(f.document.s)| == 15;
  }
}
