/** login_view.py: checking a CPF and password, with a per-account count of
    wrong passwords that locks a non-admin account at the third. Issuing the
    JWT itself is not modelled: a successful login reports the user the token
    is issued for. */
module LoginView {
  import opened Common
  import opened Store

  /** Wrong passwords in a row that deactivate an account. */
  const LockoutThreshold := 3

  /** Every account's counter is below the threshold. */
  predicate CountersBelowThreshold(users: seq<User>) {
    forall i :: 0 <= i < |users| ==> 0 <= users[i].failedAttempts < LockoutThreshold
  }

  /** `after` differs from `before` at most in the failed-attempt counters and
      active flags of its accounts. */
  predicate OnlyLoginFieldsChanged(before: seq<User>, after: seq<User>) {
    |after| == |before| &&
    forall i :: 0 <= i < |before| ==>
      after[i] == before[i].(failedAttempts := after[i].failedAttempts, active := after[i].active)
  }

  /** A wrong password on an active non-admin account: one more strike, and
      at the threshold the counter restarts and the account is deactivated. */
  function Strike(u: User): (v: User)
    ensures v == u.(failedAttempts := v.failedAttempts, active := v.active)
    ensures !v.active <==> u.failedAttempts + 1 >= LockoutThreshold
    ensures v.active ==> v.failedAttempts == u.failedAttempts + 1
    ensures !v.active ==> v.failedAttempts == 0
  {
    var tentativa := u.failedAttempts + 1;
    if tentativa >= LockoutThreshold then u.(failedAttempts := 0, active := false)
    else u.(failedAttempts := tentativa, active := true)
  }

  /** `login`. */
  function LoginStep(db: Db, cpf: Option<string>, senha: Option<string>): (s: Step)
    ensures s.db.visits == db.visits && s.db.triages == db.triages && s.db.diagnoses == db.diagnoses
    ensures OnlyLoginFieldsChanged(db.users, s.db.users)
    ensures s.outcome.Done? || s.outcome.LoggedIn? || s.outcome.Failed?
    ensures s.outcome.Failed? && s.outcome != Failed(WrongPassword) ==> s.db == db
    ensures s.outcome.LoggedIn? ==>
      && Given(cpf) && Given(senha) && |cpf.value| >= 11
      && FindUserByCpf(db.users, cpf.value, false) == Some(s.outcome.user)
      && var u := db.users[s.outcome.user];
      && u.active && u.password == Hashed(senha.value) && s.outcome.kind == u.kind
      && s.db.users == db.users[s.outcome.user := u.(failedAttempts := 0)]
    ensures s.outcome == Failed(WrongPassword) ==>
      && Given(cpf) && Given(senha) && |cpf.value| >= 11
      && FindUserByCpf(db.users, cpf.value, false).Some?
      && var id := FindUserByCpf(db.users, cpf.value, false).value;
      && var u := db.users[id];
      && u.active && u.password != Hashed(senha.value)
      && s.db.users == (if u.kind == Admin then db.users else db.users[id := Strike(u)])
    ensures !s.outcome.Done?
  {
    if !Given(cpf) || !Given(senha) then Step(db, Failed(IncompleteData))
    else if |cpf.value| < 11 then Step(db, Failed(InvalidCpf))
    else match FindUserByCpf(db.users, cpf.value, false)
      case None => Step(db, Failed(UserNotFound))
      case Some(id) =>
        var u := db.users[id];
        if !u.active then Step(db, Failed(UserInactive))
        else if u.password != Hashed(senha.value) then
          if u.kind == Admin then Step(db, Failed(WrongPassword))
          else Step(db.(users := db.users[id := Strike(u)]), Failed(WrongPassword))
        else Step(db.(users := db.users[id := u.(failedAttempts := 0)]), LoggedIn(id, u.kind))
  }

  /** Incomplete data, a short CPF, an unknown CPF and an inactive account are
      all refused before the password is looked at, and change nothing. */
  lemma LoginRefusals(db: Db, cpf: Option<string>, senha: Option<string>)
    ensures var s := LoginStep(db, cpf, senha);
      && (!Given(cpf) || !Given(senha) ==> s == Step(db, Failed(IncompleteData)))
      && (Given(cpf) && Given(senha) && |cpf.value| < 11 ==> s == Step(db, Failed(InvalidCpf)))
      && (Given(cpf) && Given(senha) && |cpf.value| >= 11 ==>
            && (FindUserByCpf(db.users, cpf.value, false).None? ==> s == Step(db, Failed(UserNotFound)))
            && (FindUserByCpf(db.users, cpf.value, false).Some? &&
                !db.users[FindUserByCpf(db.users, cpf.value, false).value].active ==>
                  s == Step(db, Failed(UserInactive))))
  {
  }

  /** A wrong password for an admin account changes nothing. */
  lemma AdminNeverLockedOut(db: Db, cpf: string, senha: string, i: nat)
    requires |cpf| >= 11 && senha != "" && FindUserByCpf(db.users, cpf, false) == Some(i)
    requires db.users[i].active && db.users[i].kind == Admin && db.users[i].password != Hashed(senha)
    ensures LoginStep(db, Some(cpf), Some(senha)) == Step(db, Failed(WrongPassword))
  {
  }

  /** The counters never reach the threshold: a login attempt keeps every
      counter between 0 and 2. */
  lemma LoginKeepsCountersBelowThreshold(db: Db, cpf: Option<string>, senha: Option<string>)
    requires CountersBelowThreshold(db.users)
    ensures CountersBelowThreshold(LoginStep(db, cpf, senha).db.users)
  {
    var s := LoginStep(db, cpf, senha);
    if s.db != db {
      var id := FindUserByCpf(db.users, cpf.value, false).value;
      assert forall j :: 0 <= j < |db.users| && j != id ==> s.db.users[j] == db.users[j];
    }
  }

  lemma LoginKeepsConsistent(db: Db, cpf: Option<string>, senha: Option<string>)
    requires Consistent(db)
    ensures Consistent(LoginStep(db, cpf, senha).db)
  {
    var s := LoginStep(db, cpf, senha);
    assert forall i :: 0 <= i < |db.users| ==> s.db.users[i].cpf == db.users[i].cpf;
  }

  /** Three wrong passwords in a row deactivate a non-admin account whose
      counter was at zero, and from then on even the right password is
      refused with 'Usuário inativo.'. */
  lemma {:induction false} ThreeStrikesLockOut(db: Db, cpf: string, wrong: string, right: string, i: nat)
    requires |cpf| >= 11 && wrong != "" && right != ""
    requires FindUserByCpf(db.users, cpf, false) == Some(i)
    requires db.users[i].active && db.users[i].kind != Admin && db.users[i].failedAttempts == 0
    requires db.users[i].password != Hashed(wrong)
    ensures var db1 := LoginStep(db, Some(cpf), Some(wrong)).db;
      var db2 := LoginStep(db1, Some(cpf), Some(wrong)).db;
      var s3 := LoginStep(db2, Some(cpf), Some(wrong));
      && s3.outcome == Failed(WrongPassword)
      && !s3.db.users[i].active && s3.db.users[i].failedAttempts == 0
      && LoginStep(s3.db, Some(cpf), Some(right)) == Step(s3.db, Failed(UserInactive))
  {
    var u := db.users[i];
    var db1 := LoginStep(db, Some(cpf), Some(wrong)).db;
    assert db1.users == db.users[i := u.(failedAttempts := 1)];
    FindUserByCpfAfterUpdate(db.users, i, u.(failedAttempts := 1), cpf);
    var db2 := LoginStep(db1, Some(cpf), Some(wrong)).db;
    assert db2.users == db.users[i := u.(failedAttempts := 2)];
    FindUserByCpfAfterUpdate(db.users, i, u.(failedAttempts := 2), cpf);
    var s3 := LoginStep(db2, Some(cpf), Some(wrong));
    assert s3.db.users == db.users[i := u.(failedAttempts := 0, active := false)];
    FindUserByCpfAfterUpdate(db.users, i, u.(failedAttempts := 0, active := false), cpf);
  }

  /** A right password logs in, restarts the counter and leaves every other
      account as it was. */
  lemma RightPasswordResetsCounter(db: Db, cpf: string, senha: string, i: nat)
    requires |cpf| >= 11 && senha != "" && FindUserByCpf(db.users, cpf, false) == Some(i)
    requires db.users[i].active && db.users[i].password == Hashed(senha)
    ensures var s := LoginStep(db, Some(cpf), Some(senha));
      && s.outcome == LoggedIn(i, db.users[i].kind)
      && s.db.users[i].failedAttempts == 0 && s.db.users[i].active
      && forall j :: 0 <= j < |db.users| && j != i ==> s.db.users[j] == db.users[j]
  {
  }

  /** `login` on the shared database. */
  method Login(store: Database, cpf: Option<string>, senha: Option<string>) returns (outcome: Outcome)
    modifies store
    ensures var s := LoginStep(old(store.State()), cpf, senha);
      store.State() == s.db && outcome == s.outcome
    ensures old(store.Valid()) ==> store.Valid()
  {
    if store.Valid() {
      LoginKeepsConsistent(store.State(), cpf, senha);
    }
    if !Given(cpf) || !Given(senha) {
      return Failed(IncompleteData);
    }
    if |cpf.value| < 11 {
      return Failed(InvalidCpf);
    }
    var found := FindUserByCpf(store.users, cpf.value, false);
    if found.None? {
      return Failed(UserNotFound);
    }
    var id := found.value;
    var u := store.users[id];
    if !u.active {
      return Failed(UserInactive);
    }
    if u.password != Hashed(senha.value) {
      if u.kind != Admin {
        var tentativa := u.failedAttempts + 1;
        var ativo := true;
        if tentativa >= LockoutThreshold {
          tentativa := 0;
          ativo := false;
        }
        store.users := store.users[id := u.(failedAttempts := tentativa, active := ativo)];
      }
      return Failed(WrongPassword);
    }
    store.users := store.users[id := u.(failedAttempts := 0)];
    outcome := LoggedIn(id, u.kind);
  }
}
