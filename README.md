# SistemaSFHP API: a verified model of the patient flow

SistemaSFHP is the back end of a hospital's emergency flow. A receptionist
registers a patient's arrival (`add_consulta`). A nurse calls the patient to
triage and records it with a risk colour (`start_triagem`, `update_triagem`).
A physician calls the patient in, records the diagnosis and prescription,
and discharges the visit (`start_diagnostico`, `update_diagnostico`). Staff
see the visit listing (`get_consultas`) and a dashboard (`load_painel`).

Users are registered through a set of validators (`cadastro_post`):

- CPF check digits;
- CNS (SUS card) check digits;
- the CRM/COREN licence pattern;
- the phone digit count;
- the password rule.

They log in with CPF and password, and three wrong passwords lock the
account (`login`). `get_cadastro` reads a profile. The report helpers format
missing values and phone numbers.

## How it is modelled

- **Database.** The Firebird database is a `Store.Database` object. It holds
  four tables (USUARIO, CONSULTA, TRIAGEM, DIAGNOSTICO), each a sequence of
  rows, updated in place by the handlers.
  - A row's id is its position in the table.
  - `fetchone()` is the first matching row.
  - `Store.Db` is the value of the four tables.
- **Handlers.** Each handler is a function `XStep(db, request...)` giving the
  new tables and the answer (`Done`, `LoggedIn` or `Failed(error)`).
  - Every error message is its own `Store.Error` constructor.
  - A method `X(store, request...)` performs the same steps on the `Database`.
    It is proved to leave exactly the function's tables behind.
- **Store invariant.** `Store.Consistent` is the invariant the handlers keep
  together:
  - a patient has at most one visit that is not discharged;
  - a visit has at most one triage and at most one diagnosis;
  - a triaged visit is waiting or later, and a diagnosed visit is discharged;
  - no two users share a CPF.
- **Parameters.** Token decoding is an oracle parameter (`Utils.Oracle`).
  The clock is a `now` parameter. A bcrypt hash is the password it was made
  from (`Store.Credential`).
- **Request values.** Most JSON values a handler reads are `Common.Value`,
  with Python truthiness. Some values are modelled as strings or absent
  (`Option<string>`), with an empty string counting as not given:
  - the `cpf` of `login`, `add_consulta` and the triage and diagnosis
    handlers;
  - the `senha` of `login` and `cadastro_post`.

## Model

| member | source | states |
|---|---|---|
| Utils.RemoverBearer | components/utils.py:5-9 | the result is the header with nothing or exactly `Bearer ` removed from its front, and it is shorter exactly when the header starts with `Bearer ` |
| Utils.BearerRoundTrip | components/utils.py:5-9 | prefixing a token with `Bearer ` and stripping gives the token back |
| Utils.StripsOnlyOnePrefix | components/utils.py:5-9 | only one prefix is removed: `Bearer Bearer t` becomes `Bearer t` |
| Mask.ValidarSenha | components/mask.py:4-17 | a password is strong iff it has 8+ characters, a listed symbol, an ASCII capital and a digit; otherwise the message of the first broken rule, in the order length, symbol, capital, digit |
| Mask.CheckDigit | components/mask.py:35-38 | the modulo-11 check digit is 0..9, is 0 when the remainder is below 2, and otherwise makes the sum a multiple of 11 |
| Mask.ValidarCpf | components/mask.py:19-45 | an accepted CPF is a string with 11 digits that are not all alike |
| Mask.CpfAcceptsIffCheckDigits | components/mask.py:19-45 | a CPF is accepted iff its 11 digits are not all alike and end with the two check digits computed from the first nine |
| Mask.CheckDigitUnique | components/mask.py:35-38 | the computed check digit is the only digit that is 0 for a remainder below 2 and otherwise brings the weighted sum to a multiple of 11 |
| Mask.CpfAcceptsIffSumsClose | components/mask.py:19-45 | a CPF is accepted iff its 11 digits are not all alike and the 10th and 11th digits each close the modulo-11 sum of the digits before them (weights 10..2 and 11..2) |
| Mask.CpfRoundTrip | components/mask.py:35-45 | any nine-digit base followed by its computed check digits is accepted, unless all eleven digits are equal |
| Mask.SameDigitsSameVerdict | components/mask.py:24-28 | two strings with the same digits get the same CPF verdict: only the digits are judged |
| Mask.CpfIgnoresMask | components/mask.py:24-28 | writing a CPF as `ddd.ddd.ddd-dd` does not change the verdict |
| Mask.ValidarSus | components/mask.py:47-86 | an accepted CNS is a string with 15 digits, not all alike, starting with 1, 2, 7, 8 or 9 |
| Mask.SusLeadingDigitRule | components/mask.py:60-86 | a 15-digit CNS starting with 7, 8 or 9 is accepted, one starting with 1 or 2 is accepted iff it ends with its computed check digits, any other is refused |
| Mask.SusRoundTrip | components/mask.py:63-76 | a definitive 13-digit base followed by its computed check digits is accepted, unless all fifteen digits are equal |
| Mask.ValidarCorenCrm | components/mask.py:88-94 | only a string can be accepted as a licence number |
| Mask.CorenCrmMatchesPattern | components/mask.py:88-94 | the licence check accepts exactly the strings matching `^\d{6,8}(-[A-Z]{2})?$`, a final newline allowed before `$` |
| Mask.ValidarTelefone | components/mask.py:96-106 | a phone is accepted iff it is a string with 10 or 11 digits |
| Relatorios.FormatNone | relatorios.py:18-19 | `None`, "none", "None" and "" become "Não informado", other values are unchanged, and the result is never a placeholder |
| Relatorios.PhoneLayoutDigits | relatorios.py:26-29 | the `(DD) NNNNN-NNNN` / `(DD) NNNN-NNNN` layouts keep exactly the digits they were given |
| Relatorios.FormatPhone | relatorios.py:21-31 | `None` stays `None`; the result keeps the phone's digits; 10 or 11 digits are laid out as `(DD) NNNN-NNNN` / `(DD) NNNNN-NNNN`; a value without 10 or 11 digits is returned as its string form |
| Relatorios.PhoneLayoutSlices | relatorios.py:26-29 | eleven digits `d` become `(d[0:2]) d[2:7]-d[7:]`, ten become `(d[0:2]) d[2:6]-d[6:]` |
| Relatorios.FormatPhoneIdempotent | relatorios.py:21-31 | formatting an already formatted phone changes nothing |
| Relatorios.FormattedPhoneStaysValid | relatorios.py:21-31 | a phone accepted at registration stays accepted, with the same digits, after formatting |
| Store.Authenticate | consulta_view.py:9-31 | a missing or empty header gives 'Token de autenticação necessário'; otherwise the caller is the token's user id exactly when the stripped token is accepted |
| Store.Authorize | consulta_view.py:35-59 | the caller passes iff authenticated, present (and active where required) and of an allowed kind; an authentication error passes through unchanged |
| Store.Target | triagem_view.py:72-102 | the visit a handler acts on is at the requested stage and belongs to the first user holding the CPF; it is found exactly when that user has a visit at the stage, and it is the first such visit; no holder means no visit |
| Store.FindUserByCpfUnique | triagem_view.py:72-78 | with unique CPFs, a lookup by a user's CPF finds that user |
| Store.FindUserByCpfAfterUpdate | login_view.py:78-84 | rewriting a user's counters does not change who a CPF lookup finds |
| Store.AtMostOneTriageOf | consulta_view.py:206-207 | with one triage per visit, the join matches at most one triage to a visit |
| Store.JoinOneRowPerVisit | consulta_view.py:205-207 | with one triage per visit, the LEFT JOIN has exactly one row per visit, carrying that visit's risk |
| Store.JoinLast | load_painel_view.py:85-86 | the last visit contributes exactly one row to the join |
| ConsultaView.AddConsultaStep | consulta_view.py:7-122 | failures change nothing; success appends one visit for the CPF's patient at the sent stage and time, the first user holding the CPF, registered by the authorised caller as receptionist, for a patient with no visit in progress |
| ConsultaView.AddConsultaRefusals | consulta_view.py:20-101 | the token, incomplete data, unknown patient and visit-in-progress refusals, in the handler's order, each leaving the store unchanged |
| ConsultaView.AddConsultaOnlyFrontDesk | consulta_view.py:53-59 | a caller who is neither admin nor receptionist is refused and nothing changes |
| ConsultaView.AddConsultaKeepsConsistent | consulta_view.py:89-108 | registering an arrival keeps the store invariant |
| ConsultaView.SecondArrivalRefused | consulta_view.py:89-101 | after one arrival at a stage other than discharge, a second arrival for the same CPF is refused with 'Paciente já possui consulta em andamento.' |
| ConsultaView.AddConsulta | consulta_view.py:7-122 | the database ends as `AddConsultaStep` says and keeps its invariant |
| ConsultaView.StageLabel | consulta_view.py:181-188 | a stage gets a non-empty label exactly when it is 1..5 |
| ConsultaView.RiskLabel | consulta_view.py:196-203 | a risk gets a (non-empty) colour exactly when it is 1..5; otherwise no label |
| ConsultaView.SexLabel | consulta_view.py:190-194 | only sex codes 1 and 2 get a non-empty label |
| ConsultaView.LabelsIdentifyCodes | consulta_view.py:181-203 | distinct stages, and distinct risks, never share a label |
| ConsultaView.InsertByArrival | consulta_view.py:208 | inserting into an arrival-ordered listing keeps it ordered and adds exactly the one row |
| ConsultaView.SortByArrival | consulta_view.py:208 | the rows come out in non-decreasing arrival order and are a permutation of the input |
| ConsultaView.ListingHasEveryVisit | consulta_view.py:179-209 | with one triage per visit, every visit is listed, once, with its risk |
| ConsultaView.GetConsultas | consulta_view.py:125-236 | refused exactly when the caller is not an admin or receptionist; otherwise one entry per joined row in arrival order, each with elapsed time now minus arrival, and one entry per visit under the invariant |
| TriagemView.StartTriagemStep | triagem_view.py:7-125 | failures change nothing; success moves the patient's arrived visit to triage and stamps its start, leaving every other visit and table as it was |
| TriagemView.StartTriagemNeedsArrival | triagem_view.py:90-102 | a patient with no arrived visit gets 'Nenhuma consulta encontrada.' and nothing changes |
| TriagemView.StartTriagemKeepsConsistent | triagem_view.py:106-114 | starting a triage keeps the store invariant |
| TriagemView.StartTriagem | triagem_view.py:7-125 | the database ends as `StartTriagemStep` says and keeps its invariant |
| TriagemView.UpdateTriagemStep | triagem_view.py:128-292 | the visit in triage moves to waiting; the triage is recorded with its nurse iff the visit had none, otherwise 'Triagem já cadastrada.'; other failures change nothing |
| TriagemView.UpdateTriagemNeedsCompleteForm | triagem_view.py:185-204 | a request missing any clinical field or the CPF gets 'Dados incompletos.' and nothing changes |
| TriagemView.UpdateTriagemNeverDuplicates | triagem_view.py:241-278 | a visit never gets a second triage record |
| TriagemView.TriageRepairUnreachable | triagem_view.py:241-261 | in a consistent store the 'Triagem já cadastrada.' branch is never taken |
| TriagemView.UpdateTriagemKeepsConsistent | triagem_view.py:264-281 | recording a triage keeps the store invariant |
| TriagemView.UpdateTriagem | triagem_view.py:128-292 | the database ends as `UpdateTriagemStep` says and keeps its invariant |
| TriagemView.OnlyTriageStaff | triagem_view.py:53-59 | any caller other than an admin or a nurse is refused by both triage handlers and nothing changes |
| DiagnosticoView.StartDiagnosticoStep | diagnostico_view.py:7-126 | failures change nothing; success moves the active patient's waiting visit to consultation and stamps its start |
| DiagnosticoView.StartDiagnosticoNeedsActivePatient | diagnostico_view.py:73-85 | a CPF held only by inactive users gets 'Paciente não encontrado ou inativo.' |
| DiagnosticoView.StartDiagnosticoKeepsConsistent | diagnostico_view.py:107-115 | starting a consultation keeps the store invariant |
| DiagnosticoView.StartDiagnostico | diagnostico_view.py:7-126 | the database ends as `StartDiagnosticoStep` says and keeps its invariant |
| DiagnosticoView.UpdateDiagnosticoStep | diagnostico_view.py:129-282 | the visit in consultation is discharged; the diagnosis is recorded with its physician iff the visit had none, otherwise 'Diagnóstico já cadastrado.'; other failures change nothing |
| DiagnosticoView.UpdateDiagnosticoNeedsConsultation | diagnostico_view.py:217-229 | a patient with no visit in consultation gets 'Nenhuma consulta encontrada.' and nothing changes |
| DiagnosticoView.UpdateDiagnosticoNeverDuplicates | diagnostico_view.py:234-268 | a visit never gets a second diagnosis record |
| DiagnosticoView.DiagnosisRepairUnreachable | diagnostico_view.py:234-254 | in a consistent store the 'Diagnóstico já cadastrado.' branch is never taken |
| DiagnosticoView.UpdateDiagnosticoKeepsConsistent | diagnostico_view.py:257-271 | recording a diagnosis keeps the store invariant |
| DiagnosticoView.UpdateDiagnostico | diagnostico_view.py:129-282 | the database ends as `UpdateDiagnosticoStep` says and keeps its invariant |
| DiagnosticoView.OnlyActiveDiagnosisStaff | diagnostico_view.py:35-60 | an inactive caller gets 'Usuário não encontrado ou inativo.', an active non-physician 'Usuário não autorizado.', from both handlers, and nothing changes |
| LoadPainelView.LoadPainel | load_painel_view.py:6-103 | only active staff get a dashboard; the admin one counts visits and distinct patients, the others count join rows in progress and those with risk 4 or 5 |
| LoadPainelView.PatientsAtMostVisits | load_painel_view.py:58-64 | distinct patients never outnumber visits |
| LoadPainelView.StaffTotalCountsActiveVisits | load_painel_view.py:81-89 | with one triage per visit the staff total counts each visit in progress once |
| LoadPainelView.ActiveVisitsArePatients | load_painel_view.py:81-89 | with one open visit per patient, visits in progress and patients being attended are as many |
| LoadPainelView.PainelBounds | load_painel_view.py:58-103 | admin patients ≤ visits; urgent cases ≤ staff total ≤ join rows; in a consistent store the staff total is the number of patients being attended |
| LoadPainelView.EmptyStoreShowsZeros | load_painel_view.py:58-103 | with no visits every counter is zero |
| LoginView.Strike | login_view.py:68-75 | a wrong password adds one to the counter; at three the counter restarts and the account is deactivated; nothing else in the row changes |
| LoginView.LoginStep | login_view.py:12-107 | only counters and active flags ever change; a login is for the first user with the CPF, active, with the right password, whose counter is reset; a wrong password leaves an admin's account as it was and gives the found non-admin account one strike (`Strike`), changing no other account; other refusals change nothing |
| LoginView.LoginRefusals | login_view.py:20-60 | incomplete data, a CPF shorter than 11, an unknown CPF and an inactive account are refused in that order and change nothing |
| LoginView.AdminNeverLockedOut | login_view.py:66-68 | a wrong password for an admin changes nothing |
| LoginView.LoginKeepsCountersBelowThreshold | login_view.py:69-84 | every counter stays below three |
| LoginView.LoginKeepsConsistent | login_view.py:63-97 | a login attempt keeps the store invariant |
| LoginView.ThreeStrikesLockOut | login_view.py:57-88 | three wrong passwords deactivate a non-admin account, after which even the right password gets 'Usuário inativo.' |
| LoginView.RightPasswordResetsCounter | login_view.py:91-106 | the right password logs in with the user's kind, resets the counter and changes no other account |
| LoginView.Login | login_view.py:12-115 | the database ends as `LoginStep` says and keeps its invariant |
| CadastroView.UpperChar | cadastro_view.py:173 | an ASCII or Latin-1 lower-case letter becomes the capital 32 code points below it, every other character is kept, and no result is a lower-case letter |
| CadastroView.Upper | cadastro_view.py:173 | `nome.upper()` keeps the length, replaces each lower-case letter by its capital in place, keeps every other character, and leaves no lower-case letter |
| CadastroView.UpperIdempotent | cadastro_view.py:173 | upper-casing twice is upper-casing once |
| CadastroView.CadastroCheck | cadastro_view.py:57-150 | an accepted form is complete, from an admin (or a receptionist registering a patient), with valid CPF, phone and birth date, a valid SUS (patients, whose password is the SUS number) or licence (physicians, nurses), and otherwise a strong password |
| CadastroView.CompletenessFirst | cadastro_view.py:57-60 | an incomplete form gets 'Dados incompletos.' whoever sends it |
| CadastroView.WhoMayRegister | cadastro_view.py:63-73 | only admins and receptionists may register; receptionists only patients; an allowed receptionist is checked exactly like an admin |
| CadastroView.DocumentsInOrder | cadastro_view.py:76-96 | CPF, phone and birth date are checked in that order, and the first failure is the answer |
| CadastroView.PatientPasswordIgnored | cadastro_view.py:99-115 | a patient's `senha` plays no part in the verdict |
| CadastroView.DocumentAndPasswordChecks | cadastro_view.py:99-150 | a missing or invalid SUS, CRM/COREN or password gets its own message, and a weak password gets the message of the first rule it breaks |
| CadastroView.CadastroStep | cadastro_view.py:8-190 | failures change nothing; success appends one active user, with the upper-cased name, the form's CPF, phone, e-mail, document, sex and birth date, and no failed attempts, whose form passed the caller's checks and clashes with no registered CPF, e-mail, phone or document |
| CadastroView.DuplicateRefused | cadastro_view.py:153-166 | a form sharing CPF, e-mail, phone or document with a user gets 'Dados já cadastrados.' |
| CadastroView.CadastroKeepsConsistent | cadastro_view.py:153-176 | registration keeps the store invariant, in particular unique CPFs |
| CadastroView.RegisteredUserIsFound | cadastro_view.py:169-176 | a lookup by the registered CPF finds the new user |
| CadastroView.CadastroPost | cadastro_view.py:8-190 | the database ends as `CadastroStep` says and keeps its invariant |
| CadastroView.Lookup | cadastro_view.py:223-288 | a CPF search needs a valid CPF and a staff caller and returns the holder's profile; without a CPF the caller's own profile |
| CadastroView.GetCadastroAsWritten | cadastro_view.py:200-216 | a request without token and without CPF gets 'Token de autenticação necessário'; any answer needs an accepted token |
| CadastroView.AnonymousSearchFallsThrough | cadastro_view.py:200-207 | a CPF search without an Authorization header ends in the generic error instead of the missing-token answer |
| CadastroView.GetCadastro | cadastro_view.py:193-299 | without a token the answer is always 'Token de autenticação necessário'; with one it agrees with the handler as written |
| CadastroView.NonStaffSeesOnlyOwnProfile | cadastro_view.py:239-261 | a caller who is not staff only ever sees their own profile |
| CadastroView.SearchNeedsStaff | cadastro_view.py:239-245 | a search by a valid CPF from a non-staff caller gets 'Busca não autorizada.' |
| Workflow.OpenVisitIsFound | triagem_view.py:90-96 | a patient's only open visit is the one each stage lookup finds |
| Workflow.AdvancedStaysOnlyOpen | triagem_view.py:108-112 | moving a visit one stage on keeps it the patient's only open visit |
| Workflow.ArrivalStage | consulta_view.py:89-111 | a patient with no visit in progress is registered, and the new visit is their only open one |
| Workflow.TriageStages | triagem_view.py:90-281 | after arrival, both triage handlers succeed, one triage is recorded and the visit is waiting |
| Workflow.ConsultationStages | diagnostico_view.py:91-271 | a waiting visit of an active patient is called in and discharged, leaving no visit in progress |
| Workflow.WholeVisit | consulta_view.py:89-111 | arrival, triage and consultation all succeed, the store stays consistent, the visit ends discharged with one triage, and the patient can arrive again |
| Workflow.RegisteredPatientCanLogIn | cadastro_view.py:99-115 | a newly registered patient logs in with the SUS number and is told they are a patient |

## Left out

- HTTP:
  - Flask routing, the CORS set-up and `main.py` are not modelled.
  - JSON parsing and response bodies are not modelled.
  - HTTP status codes are not modelled. A handler's answer is its error constructor or its result.
- Firebird: cursors, commits and connection handling are not modelled. Each handler runs atomically on the in-memory tables, and there is no concurrency.
- `validar_token` and `generate_token`: JWT encoding, signing and expiry are an oracle parameter (`Utils.Oracle`). Only the verdict is modelled.
- bcrypt: `generate_password_hash` and `check_password_hash` are modelled by `Store.Credential`. A hash matches exactly the password it was made from; salts are not modelled.
- `validar_nascimento` is imported by `cadastro_view.py` but not defined in `components/mask.py`. The birth-date verdict is the parameter `birthValid`.
- The PDF reports (`criar_pdf_receita_paciente`, `criar_pdf_receita_enfermagem`, the FPDF classes), `remove_acentos` and `format_date` are not modelled. They are rendering and date parsing.
- `get_all_users` and `editar_user` in `cadastro_view.py` are not modelled. They lie outside the patient flow.
- Dates: `get_consultas` formats dates with `strftime`, and its `idade` column is not modelled. Times are whole minutes supplied as `now`.
- Exceptions: the text of a caught exception is `Store.Error.Unexpected`. Examples are an unknown caller id reaching `fetchone()[0]`, or a name that is not a string reaching `upper()`.
- JSON types:
  - `situacao`, `tipo_usuario` and `classificacao_risco` are integers or absent; other JSON types are not modelled.
  - The clinical text fields are `Common.Value`.
  - `cpf` and `senha` sent as JSON values other than strings are not modelled. The model has no such input. In `login`, a numeric `cpf` makes `len(cpf)` (login_view.py:26) raise a TypeError before the `try`, so Flask answers with an uncaught server error. `LoginView.LoginStep` has no outcome for that.
  - A NULL `TENTATIVA_ERRO` is not modelled.
- The `logout` flag that some refusals carry is not modelled.
- CadastroView.UpperChar: covers ASCII and Latin-1 letters only. Python's `str.upper` also maps `ß`, `ÿ`, `µ` and letters outside Latin-1, which the model keeps unchanged.
- Common.IsDigit: `\d` and `\D` (in the CPF, SUS, licence and phone validators) are taken as ASCII digits. Python's `re` on `str` also treats other Unicode decimal digits as digits.
- ConsultaView.SortByArrival: keeps visits that arrived at the same time in join order. `ORDER BY c.DATA_ENTRADA` leaves their order to the database.
- ConsultaView.GetConsultas: `strip()` of the Firebird CHAR padding on the labels is not modelled. The labels are the unpadded strings.
- ConsultaView.RiskLabel: a visit with no triage gets no risk label (`None`). The source answers `''` there, because the padded `ELSE ''` is truthy and `strip()` empties it.

## Findings

| source | as written | input that shows it | evidently intended | confidence | as-written member | corrected member |
|---|---|---|---|---|---|---|
| cadastro_view.py:200-207 | the token is only required when no `cpf` query parameter is given, then `remover_bearer(token)` is called regardless | `GET /cadastro?cpf=<any CPF>` without an Authorization header: `remover_bearer(None)` raises, and the handler answers with the exception text instead of 'Token de autenticação necessário' | every request without a token is refused with 'Token de autenticação necessário', since the rest of the handler always validates the token | medium, not executed | CadastroView.AnonymousSearchFallsThrough | CadastroView.GetCadastro |
