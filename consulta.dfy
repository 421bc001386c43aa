/** consulta_view.py: registering a patient's arrival (`add_consulta`) and the
    staff listing of every visit (`get_consultas`). */
module ConsultaView {
  import opened Common
  import opened Utils
  import opened Store

  // ---------------------------------------------------------------------------
  // add_consulta

  /** Who may register an arrival: an admin or a receptionist. */
  const FrontDesk: set<int> := {Admin, Receptionist}

  /** `add_consulta` as a transition of the store: a receptionist or an admin
      registers a visit for the patient holding `cpf`, at the stage the caller
      sends, unless that patient already has a visit that is not discharged. */
  function AddConsultaStep(db: Db, header: Option<string>, verify: Oracle,
                           situacao: Option<int>, cpf: Option<string>, now: int): (s: Step)
    ensures s.outcome == Done || s.outcome.Failed?
    ensures s.outcome.Failed? ==> s.db == db
    ensures s.outcome == Done ==>
      && Given(cpf) && GivenNumber(situacao)
      && s.db.users == db.users && s.db.triages == db.triages && s.db.diagnoses == db.diagnoses
      && |s.db.visits| == |db.visits| + 1 && s.db.visits[..|db.visits|] == db.visits
      && var v := s.db.visits[|db.visits|];
      && FindUserByCpf(db.users, cpf.value, false) == Some(v.patient)
      && v.patient < |db.users| && db.users[v.patient].cpf == cpf.value
      && v.stage == situacao.value && v.arrival == now
      && v.triageStart.None? && v.diagnosisStart.None?
      && Authorize(db.users, header, verify, false, FrontDesk, Unauthorized) == Ok(v.receptionist)
      && v.receptionist < |db.users| && db.users[v.receptionist].kind in FrontDesk
      && !HasActiveVisit(db.visits, v.patient)
  {
    match Authorize(db.users, header, verify, false, FrontDesk, Unauthorized)
    case Err(e) => Step(db, Failed(e))
    case Ok(caller) =>
      if !GivenNumber(situacao) || !Given(cpf) then Step(db, Failed(IncompleteData))
      else match FindUserByCpf(db.users, cpf.value, false)
        case None => Step(db, Failed(PatientNotFound))
        case Some(p) =>
          if HasActiveVisit(db.visits, p) then Step(db, Failed(VisitInProgress))
          else Step(db.(visits := db.visits + [Visit(p, situacao.value, now, None, None, caller)]), Done)
  }

  /** Each refusal, in the order the handler checks them. */
  lemma AddConsultaRefusals(db: Db, header: Option<string>, verify: Oracle,
                            situacao: Option<int>, cpf: Option<string>, now: int)
    ensures var s := AddConsultaStep(db, header, verify, situacao, cpf, now);
      && (Authorize(db.users, header, verify, false, FrontDesk, Unauthorized).Err? ==>
            s == Step(db, Failed(Authorize(db.users, header, verify, false, FrontDesk, Unauthorized).error)))
      && (Authorize(db.users, header, verify, false, FrontDesk, Unauthorized).Ok? ==>
            && (!GivenNumber(situacao) || !Given(cpf) ==> s == Step(db, Failed(IncompleteData)))
            && (GivenNumber(situacao) && Given(cpf) && FindUserByCpf(db.users, cpf.value, false).None? ==>
                  s == Step(db, Failed(PatientNotFound)))
            && (GivenNumber(situacao) && Given(cpf) && FindUserByCpf(db.users, cpf.value, false).Some? &&
                HasActiveVisit(db.visits, FindUserByCpf(db.users, cpf.value, false).value) ==>
                  s == Step(db, Failed(VisitInProgress))))
  {
  }

  /** A caller who is not an admin or a receptionist changes nothing. */
  lemma AddConsultaOnlyFrontDesk(db: Db, header: Option<string>, verify: Oracle,
                                 situacao: Option<int>, cpf: Option<string>, now: int, id: int)
    requires Authenticate(header, verify) == Ok(id) && 0 <= id < |db.users|
    requires db.users[id].kind !in FrontDesk
    ensures AddConsultaStep(db, header, verify, situacao, cpf, now) == Step(db, Failed(Unauthorized))
  {
  }

  /** Registering an arrival keeps the store consistent; in particular no
      patient ever has two visits that are not discharged. */
  lemma AddConsultaKeepsConsistent(db: Db, header: Option<string>, verify: Oracle,
                                   situacao: Option<int>, cpf: Option<string>, now: int)
    requires Consistent(db)
    ensures Consistent(AddConsultaStep(db, header, verify, situacao, cpf, now).db)
  {
    var s := AddConsultaStep(db, header, verify, situacao, cpf, now);
    if s.outcome == Done {
      var n := |db.visits|;
      assert forall i :: 0 <= i < n ==> s.db.visits[i] == db.visits[i];
      forall i, j | 0 <= i < j < |s.db.visits| && s.db.visits[i].patient == s.db.visits[j].patient
        ensures s.db.visits[i].stage == Discharged || s.db.visits[j].stage == Discharged
      {
        if j == n {
          assert !(db.visits[i].patient == s.db.visits[n].patient && db.visits[i].stage != Discharged);
        }
      }
    }
  }

  /** Once a patient's arrival is registered at a stage other than discharge,
      a second registration for the same CPF is refused. */
  lemma {:induction false} SecondArrivalRefused(db: Db, header: Option<string>, verify: Oracle,
                                                situacao: Option<int>, cpf: Option<string>, now: int,
                                                situacao2: Option<int>, now2: int)
    requires AddConsultaStep(db, header, verify, situacao, cpf, now).outcome == Done
    requires situacao.value != Discharged && GivenNumber(situacao2)
    ensures var db1 := AddConsultaStep(db, header, verify, situacao, cpf, now).db;
      AddConsultaStep(db1, header, verify, situacao2, cpf, now2) == Step(db1, Failed(VisitInProgress))
  {
    var db1 := AddConsultaStep(db, header, verify, situacao, cpf, now).db;
    var n := |db.visits|;
    var p := FindUserByCpf(db.users, cpf.value, false).value;
    assert db1.visits[n].patient == p;
    assert HasActiveVisit(db1.visits, p);
  }

  /** `add_consulta` on the shared database. */
  method AddConsulta(store: Database, header: Option<string>, verify: Oracle,
                     situacao: Option<int>, cpf: Option<string>, now: int) returns (outcome: Outcome)
    modifies store
    ensures var s := AddConsultaStep(old(store.State()), header, verify, situacao, cpf, now);
      store.State() == s.db && outcome == s.outcome
    ensures old(store.Valid()) ==> store.Valid()
  {
    if store.Valid() {
      AddConsultaKeepsConsistent(store.State(), header, verify, situacao, cpf, now);
    }
    var auth := Authorize(store.users, header, verify, false, FrontDesk, Unauthorized);
    if auth.Err? {
      return Failed(auth.error);
    }
    if !GivenNumber(situacao) || !Given(cpf) {
      return Failed(IncompleteData);
    }
    var patient := FindUserByCpf(store.users, cpf.value, false);
    if patient.None? {
      return Failed(PatientNotFound);
    }
    if HasActiveVisit(store.visits, patient.value) {
      return Failed(VisitInProgress);
    }
    store.visits := store.visits + [Visit(patient.value, situacao.value, now, None, None, auth.value)];
    outcome := Done;
  }

  // ---------------------------------------------------------------------------
  // get_consultas

  const StageLabels: seq<string> := ["Entrada", "Triagem", "Em espera", "Consulta", "Alta"]
  const RiskLabels: seq<string> :=
    ["Azul (Leve)", "Verde (Pouco urgente)", "Amarelo (Urgente)",
     "Laranja (Muito urgente)", "Vermelho (Risco de vida)"]

  /** `CASE c.SITUACAO`: the five stages by name, anything else as ''. */
  function StageLabel(stage: int): (shown: string)
    ensures shown != "" <==> Arrived <= stage <= Discharged
  {
    if Arrived <= stage <= Discharged then StageLabels[stage - 1] else ""
  }

  /** `CASE TR.CLASSIFICACAO_RISCO`, then `strip() if ... else None`: the
      five risk colours, and no label (`None`) for a missing or unknown risk.
      The source answers `''` there, not `None`: Firebird pads the `ELSE ''`
      branch of the CASE to the width of the longest colour, the padded
      blanks are truthy, and `strip()` turns them into `''`. `None` is what
      the same code would answer for an unpadded empty label; the model keeps
      that reading, so this one value differs from the source's reply. */
  function RiskLabel(risk: Option<int>): (shown: Option<string>)
    ensures shown.Some? <==> risk.Some? && 1 <= risk.value <= 5
    ensures shown.Some? ==> shown.value != ""
  {
    if risk.Some? && 1 <= risk.value <= 5 then Some(RiskLabels[risk.value - 1]) else None
  }

  /** `CASE pa.SEXO`: 1 and 2 by name, anything else (or no patient) as ''. */
  function SexLabel(sex: Option<Value>): (shown: string)
    ensures shown != "" <==> sex == Some(Num(1)) || sex == Some(Num(2))
  {
    if sex == Some(Num(1)) then "Masculino"
    else if sex == Some(Num(2)) then "Feminino"
    else ""
  }

  /** The labels lose nothing: distinct stages and distinct risks are shown
      differently. */
  lemma LabelsIdentifyCodes(a: int, b: int)
    ensures StageLabel(a) != "" && StageLabel(a) == StageLabel(b) ==> a == b
    ensures RiskLabel(Some(a)).Some? && RiskLabel(Some(a)) == RiskLabel(Some(b)) ==> a == b
  {
    if StageLabel(a) != "" && StageLabel(a) == StageLabel(b) {
      assert StageLabels[a - 1] == StageLabels[b - 1];
    }
    if RiskLabel(Some(a)).Some? && RiskLabel(Some(a)) == RiskLabel(Some(b)) {
      assert RiskLabels[a - 1] == RiskLabels[b - 1];
    }
  }

  /** One element of the `consultas` list. */
  datatype Entry = Entry(
    arrival: int, situacao: string, nome: Option<string>, sexo: string,
    classificacaoRisco: Option<string>, tempoDecorrido: int)

  /** `LEFT JOIN USUARIO pa`: the patient's row, if there is one. */
  function PatientOf(users: seq<User>, v: Visit): Option<User> {
    if v.patient < |users| then Some(users[v.patient]) else None
  }

  /** The entry built from one row of the join; the elapsed time is
      `DATEDIFF(MINUTE, DATA_ENTRADA, CURRENT_TIMESTAMP)`. */
  function ToEntry(users: seq<User>, row: JoinRow, now: int): Entry {
    var patient := PatientOf(users, row.visit);
    Entry(row.visit.arrival, StageLabel(row.visit.stage),
          if patient.Some? then Some(patient.value.name) else None,
          SexLabel(if patient.Some? then Some(patient.value.sex) else None),
          RiskLabel(row.risk), now - row.visit.arrival)
  }

  predicate SortedByArrival(rows: seq<JoinRow>) {
    forall i, j :: 0 <= i < j < |rows| ==> rows[i].visit.arrival <= rows[j].visit.arrival
  }

  /** A row no later than the head of an ordered listing can go in front. */
  lemma ConsSorted(x: JoinRow, rows: seq<JoinRow>)
    requires SortedByArrival(rows) && (rows != [] ==> x.visit.arrival <= rows[0].visit.arrival)
    ensures SortedByArrival([x] + rows)
  {
    var out := [x] + rows;
    forall i, j | 0 <= i < j < |out|
      ensures out[i].visit.arrival <= out[j].visit.arrival
    {
      if i == 0 && j > 1 {
        assert out[j] == rows[j - 1];
      }
    }
  }

  function InsertByArrival(r: JoinRow, rows: seq<JoinRow>): (out: seq<JoinRow>)
    requires SortedByArrival(rows)
    ensures |out| == |rows| + 1 && SortedByArrival(out)
    ensures multiset(out) == multiset(rows) + multiset{r}
    ensures out[0] == r || (rows != [] && out[0] == rows[0])
  {
    if rows == [] || r.visit.arrival <= rows[0].visit.arrival then
      ConsSorted(r, rows);
      [r] + rows
    else
      assert rows == [rows[0]] + rows[1..];
      var rest := InsertByArrival(r, rows[1..]);
      ConsSorted(rows[0], rest);
      [rows[0]] + rest
  }

  /** `ORDER BY c.DATA_ENTRADA`: the rows in non-decreasing arrival order
      (rows that arrived together keep their join order). */
  function SortByArrival(rows: seq<JoinRow>): (out: seq<JoinRow>)
    ensures SortedByArrival(out)
    ensures multiset(out) == multiset(rows)
    ensures |out| == |rows|
  {
    if rows == [] then []
    else
      assert rows == [rows[0]] + rows[1..];
      InsertByArrival(rows[0], SortByArrival(rows[1..]))
  }

  /** With one triage per visit, every visit appears in the listing's rows,
      and there are exactly as many rows as visits. */
  lemma ListingHasEveryVisit(visits: seq<Visit>, triages: seq<TriageRecord>)
    requires OneTriagePerVisit(triages)
    ensures |SortByArrival(Join(visits, triages))| == |visits|
    ensures forall k :: 0 <= k < |visits| ==>
      JoinRow(k, visits[k], RiskOf(triages, k)) in SortByArrival(Join(visits, triages))
  {
    var join := Join(visits, triages);
    var sorted := SortByArrival(join);
    JoinOneRowPerVisit(visits, triages);
    forall k | 0 <= k < |visits|
      ensures JoinRow(k, visits[k], RiskOf(triages, k)) in sorted
    {
      assert join[k] in multiset(join);
    }
  }

  /** With one triage per visit the listing has one row per visit. */
  lemma ListingLength(visits: seq<Visit>, triages: seq<TriageRecord>)
    requires OneTriagePerVisit(triages)
    ensures |SortByArrival(Join(visits, triages))| == |visits|
  {
    JoinOneRowPerVisit(visits, triages);
  }

  /** The `consultas` list built from `rows`, one entry per row, in order. */
  function Entries(users: seq<User>, rows: seq<JoinRow>, now: int): (entries: seq<Entry>)
    ensures |entries| == |rows|
    ensures forall i :: 0 <= i < |rows| ==> entries[i] == ToEntry(users, rows[i], now)
  {
    seq(|rows|, i requires 0 <= i < |rows| => ToEntry(users, rows[i], now))
  }

  /** Building one more row's entry extends the list by that entry. */
  lemma EntriesSnoc(users: seq<User>, rows: seq<JoinRow>, i: nat, now: int)
    requires i < |rows|
    ensures Entries(users, rows[..i + 1], now) == Entries(users, rows[..i], now) + [ToEntry(users, rows[i], now)]
  {
    var longer, shorter := Entries(users, rows[..i + 1], now), Entries(users, rows[..i], now);
    forall k | 0 <= k < i
      ensures longer[k] == shorter[k]
    {
      assert rows[..i + 1][k] == rows[..i][k];
    }
  }

  /** Entries built row by row from arrival-ordered rows are in arrival
      order, and each shows the minutes since its arrival. */
  lemma EntriesFollowRows(users: seq<User>, rows: seq<JoinRow>, entries: seq<Entry>, now: int)
    requires SortedByArrival(rows) && |entries| == |rows|
    requires forall i :: 0 <= i < |rows| ==> entries[i] == ToEntry(users, rows[i], now)
    ensures forall i, j :: 0 <= i < j < |entries| ==> entries[i].arrival <= entries[j].arrival
    ensures forall i :: 0 <= i < |entries| ==> entries[i].tempoDecorrido == now - entries[i].arrival
  {
  }

  /** `get_consultas`: the listing an admin or a receptionist sees, built
      one entry per joined row, in arrival order. */
  method GetConsultas(store: Database, header: Option<string>, verify: Oracle, now: int)
    returns (r: Result<seq<Entry>>)
    ensures r.Err? <==> Authorize(store.users, header, verify, false, FrontDesk, Unauthorized).Err?
    ensures r.Err? ==> r.error == Authorize(store.users, header, verify, false, FrontDesk, Unauthorized).error
    ensures r.Ok? ==>
      var rows := SortByArrival(Join(store.visits, store.triages));
      && |r.value| == |rows|
      && forall i :: 0 <= i < |r.value| ==> r.value[i] == ToEntry(store.users, rows[i], now)
    ensures r.Ok? ==> forall i, j :: 0 <= i < j < |r.value| ==> r.value[i].arrival <= r.value[j].arrival
    ensures r.Ok? ==> forall i :: 0 <= i < |r.value| ==> r.value[i].tempoDecorrido == now - r.value[i].arrival
    ensures r.Ok? && OneTriagePerVisit(store.triages) ==> |r.value| == |store.visits|
  {
    var auth := Authorize(store.users, header, verify, false, FrontDesk, Unauthorized);
    if auth.Err? {
      return Err(auth.error);
    }
    var users, visits, triages := store.users, store.visits, store.triages;
    var rows := SortByArrival(Join(visits, triages));
    var consultas: seq<Entry> := [];
    for i := 0 to |rows|
      invariant consultas == Entries(users, rows[..i], now)
    {
      EntriesSnoc(users, rows, i, now);
      consultas := consultas + [ToEntry(users, rows[i], now)];
    }
    assert rows[..|rows|] == rows;
    EntriesFollowRows(users, rows, consultas, now);
    if OneTriagePerVisit(triages) {
      ListingLength(visits, triages);
    }
    r := Ok(consultas);
  }
}
