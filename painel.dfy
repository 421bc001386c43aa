/** load_painel_view.py: the dashboard counters. An admin sees how many
    visits there have been and how many distinct patients they were for;
    other staff see how many visits are in progress and how many of those
    were triaged as urgent. */
module LoadPainelView {
  import opened Common
  import opened Utils
  import opened Store

  datatype Painel =
    | AdminPainel(totalPacientes: nat, totalConsultas: nat)
    | StaffPainel(totalPacientes: nat, casosUrgentes: nat)

  /** `COUNT(DISTINCT ID_USUARIO) FROM CONSULTA`: the patients with a visit. */
  function Patients(visits: seq<Visit>): set<nat> {
    set i | 0 <= i < |visits| :: visits[i].patient
  }

  predicate ActiveVisit(v: Visit) {
    v.stage != Discharged
  }

  /** `WHERE SITUACAO != 5` on a row of the join. */
  predicate ActiveRow(r: JoinRow) {
    ActiveVisit(r.visit)
  }

  /** `CASE WHEN t.CLASSIFICACAO_RISCO IN (4,5) THEN 1 ELSE 0 END`. */
  predicate UrgentRow(r: JoinRow) {
    r.risk == Some(4) || r.risk == Some(5)
  }

  /** `load_painel`: an active staff member gets the counters for their role. */
  function LoadPainel(db: Db, header: Option<string>, verify: Oracle): (r: Result<Painel>)
    ensures r.Ok? <==> Authorize(db.users, header, verify, true, Staff, RequestUnauthorized).Ok?
    ensures r.Err? ==> r.error == Authorize(db.users, header, verify, true, Staff, RequestUnauthorized).error
    ensures r.Ok? ==>
      (r.value.AdminPainel? <==> db.users[Authorize(db.users, header, verify, true, Staff, RequestUnauthorized).value].kind == Admin)
    ensures r.Ok? && r.value.AdminPainel? ==>
      r.value.totalConsultas == |db.visits| && r.value.totalPacientes == |Patients(db.visits)|
    ensures r.Ok? && r.value.StaffPainel? ==>
      && r.value.totalPacientes == |Filter(Join(db.visits, db.triages), ActiveRow)|
      && r.value.casosUrgentes == |Filter(Filter(Join(db.visits, db.triages), ActiveRow), UrgentRow)|
  {
    match Authorize(db.users, header, verify, true, Staff, RequestUnauthorized)
    case Err(e) => Err(e)
    case Ok(caller) =>
      if db.users[caller].kind == Admin then
        Ok(AdminPainel(|Patients(db.visits)|, |db.visits|))
      else
        var active := Filter(Join(db.visits, db.triages), ActiveRow);
        Ok(StaffPainel(|active|, |Filter(active, UrgentRow)|))
  }

  /** There are never more distinct patients than visits. */
  lemma {:induction false} PatientsAtMostVisits(visits: seq<Visit>)
    ensures |Patients(visits)| <= |visits|
  {
    if visits != [] {
      var last := |visits| - 1;
      PatientsAtMostVisits(visits[..last]);
      assert Patients(visits) == Patients(visits[..last]) + {visits[last].patient};
    }
  }

  /** With one triage per visit the staff total counts each visit in
      progress exactly once. */
  lemma {:induction false} StaffTotalCountsActiveVisits(visits: seq<Visit>, triages: seq<TriageRecord>)
    requires OneTriagePerVisit(triages)
    ensures |Filter(Join(visits, triages), ActiveRow)| == |Filter(visits, ActiveVisit)|
  {
    if visits != [] {
      var last := |visits| - 1;
      var prefix := visits[..last];
      StaffTotalCountsActiveVisits(prefix, triages);
      JoinLast(visits, triages);
      FilterSnoc(Join(prefix, triages), JoinRow(last, visits[last], RiskOf(triages, last)), ActiveRow);
      assert visits == prefix + [visits[last]];
      FilterSnoc(prefix, visits[last], ActiveVisit);
    }
  }

  /** The patients with a visit in progress. */
  function ActivePatients(visits: seq<Visit>): set<nat> {
    set i | 0 <= i < |visits| && ActiveVisit(visits[i]) :: visits[i].patient
  }

  lemma ActivePatientsLast(visits: seq<Visit>)
    requires visits != []
    ensures var last := |visits| - 1;
      ActivePatients(visits) ==
        ActivePatients(visits[..last]) + (if ActiveVisit(visits[last]) then {visits[last].patient} else {})
  {
    var last := |visits| - 1;
    var prefix := visits[..last];
    var rhs := ActivePatients(prefix) + (if ActiveVisit(visits[last]) then {visits[last].patient} else {});
    forall x | x in ActivePatients(visits)
      ensures x in rhs
    {
      var i :| 0 <= i < |visits| && ActiveVisit(visits[i]) && visits[i].patient == x;
      if i < last {
        assert prefix[i] == visits[i];
      }
    }
    forall x | x in ActivePatients(prefix)
      ensures x in ActivePatients(visits)
    {
      var i :| 0 <= i < |prefix| && ActiveVisit(prefix[i]) && prefix[i].patient == x;
      assert visits[i] == prefix[i];
    }
  }

  lemma PrefixKeepsOneActive(visits: seq<Visit>)
    requires OneActiveVisitPerPatient(visits) && visits != []
    ensures OneActiveVisitPerPatient(visits[..|visits| - 1])
  {
    var prefix := visits[..|visits| - 1];
    forall i, j | 0 <= i < j < |prefix| && prefix[i].patient == prefix[j].patient
      ensures prefix[i].stage == Discharged || prefix[j].stage == Discharged
    {
      assert prefix[i] == visits[i] && prefix[j] == visits[j];
    }
  }

  /** A last visit in progress belongs to a patient with no earlier visit in
      progress. */
  lemma LastIsNewPatient(visits: seq<Visit>)
    requires OneActiveVisitPerPatient(visits) && visits != [] && ActiveVisit(visits[|visits| - 1])
    ensures visits[|visits| - 1].patient !in ActivePatients(visits[..|visits| - 1])
  {
    var last := |visits| - 1;
    var prefix := visits[..last];
    forall i | 0 <= i < |prefix| && ActiveVisit(prefix[i])
      ensures prefix[i].patient != visits[last].patient
    {
      assert visits[i] == prefix[i];
    }
  }

  /** While no patient has two visits in progress, counting the visits in
      progress counts the patients being attended. */
  lemma {:induction false} ActiveVisitsArePatients(visits: seq<Visit>)
    requires OneActiveVisitPerPatient(visits)
    ensures |Filter(visits, ActiveVisit)| == |ActivePatients(visits)|
  {
    if visits != [] {
      var last := |visits| - 1;
      var prefix := visits[..last];
      PrefixKeepsOneActive(visits);
      ActiveVisitsArePatients(prefix);
      assert visits == prefix + [visits[last]];
      FilterSnoc(prefix, visits[last], ActiveVisit);
      ActivePatientsLast(visits);
      if ActiveVisit(visits[last]) {
        LastIsNewPatient(visits);
      }
    }
  }

  /** The dashboard's invariants: distinct patients never exceed visits,
      urgent cases never exceed the visits in progress, and in a consistent
      store the staff total is the number of patients being attended. */
  lemma PainelBounds(db: Db, header: Option<string>, verify: Oracle)
    requires LoadPainel(db, header, verify).Ok?
    ensures var p := LoadPainel(db, header, verify).value;
      && (p.AdminPainel? ==> p.totalPacientes <= p.totalConsultas)
      && (p.StaffPainel? ==> p.casosUrgentes <= p.totalPacientes <= |Join(db.visits, db.triages)|)
      && (p.StaffPainel? && Consistent(db) ==> p.totalPacientes == |ActivePatients(db.visits)|)
  {
    var p := LoadPainel(db, header, verify).value;
    if p.AdminPainel? {
      PatientsAtMostVisits(db.visits);
    } else if Consistent(db) {
      StaffTotalCountsActiveVisits(db.visits, db.triages);
      ActiveVisitsArePatients(db.visits);
    }
  }

  /** An empty store shows zero on every counter. */
  lemma EmptyStoreShowsZeros(db: Db, header: Option<string>, verify: Oracle)
    requires db.visits == [] && LoadPainel(db, header, verify).Ok?
    ensures LoadPainel(db, header, verify).value in {AdminPainel(0, 0), StaffPainel(0, 0)}
  {
    assert Patients(db.visits) == {};
  }
}
