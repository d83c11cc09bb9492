# School administration dashboard — verified model of its client-side logic

The dashboard of the "Colégio Militar" school system is a React application. Almost every page
fetches a list from the REST API, shows it in a table and posts a form. This project models, in
Dafny, the three parts of the client that have behaviour of their own.

- **The generic table** (`Table.tsx`). It has a sort configuration that a click on a column header
  toggles. `sortedData` is a copy of the rows, sorted by one field with a comparator that returns 0
  on ties; `Array.prototype.sort` is stable, as section 23.1.3.30 of ECMA-262 (2023) requires.
  `filteredData` runs after the sort and keeps a row when some search key holds a string containing
  the term (both sides lower-cased) or a number whose decimal text contains the term.
  - Modules `Table` (with the `TableState` class), `JsStrings` (`toLowerCase`, `includes`, integer
    `toString` and its inverse, `split(c)[0]`), `JsArrays` (`filter` and subsequences) and
    `TableExamples`.
  - The sort is proved twice. `SortRows` is a stable insertion sort on sequences. `SortInPlace` sorts
    an `array` in place and is proved equal to `SortRows`. `TableState.SortedData` copies the array
    before sorting, so `data` is never written.
- **The form schemas and defaults** (the twelve `*Form.tsx` files).
  - Module `Zod` models the part of zod the schemas use. A schema is a list of field rules. Parsing
    gives either the parsed data (only the schema's keys, with defaults filled in) or a map from
    field to the message shown under it. zod's own messages are modelled for a missing value
    (`Required`) and for a value of the wrong type (`Expected string, received number`).
  - Each form file has a module. It holds the schema with its exact messages and proves four things:
    each field's rule, "valid exactly when every rule holds", what is submitted, and what editing an
    existing record does. The edit-mode `defaultValues` are a projection of the
    record (`Zod.Prefill`). The uniform-issue form cuts its date at the first `T`. The two director
    forms differ in their defaults, but `DiretorFormPage.AgreesWithSharedForm` proves they give the
    same verdicts.
- **The session and the two auth gates** (`authService.ts`, `ProtectedRoute.tsx`, `Login.tsx`).
  - Local storage is a `map` field of the `AuthService.Session` class, and `window.location.href` is
    a field beside it.
  - `login` has the hard-coded `admin`/`admin123` branch; otherwise it goes through `postData`, whose
    network outcome is a parameter (`Reply`).
  - `validateToken` accepts the mock token without asking the server. For any other token the
    server's answer is a boolean parameter, and a refusal logs out.
  - `ProtectedRoute.Route` models the guard's `loading`/`isValid` state, and `ProtectedRoute.Guard` is
    what it finally shows. `LoginPage.Page` models the login page's state around the `await`.

Behaviour of the code worth knowing:
- No request carries the stored token: the axios instance in `src/services/api.ts` has no
  interceptor.
- No 401 response logs the user out, except inside `validateToken`, whose `catch` logs out on any
  failure.
- `login` never rejects, because `postData` turns every failed request into a response. So the
  login page's "Erro ao conectar ao servidor" branch is unreachable from `login`; the model keeps it
  as the `Threw` outcome.
- `Login` stores the session whenever the response carries a token. The page, however, navigates
  only on status 200. A 2xx answer with another status and a token therefore stores a session while
  the page reports bad credentials (`LoginPage.StoredWithoutNavigation`).
- A foreign-key select is accepted for any number of at least 1; the schemas do not require an
  integer.

## Model

| member | source | states |
|---|---|---|
| Table.Toggle | src/components/ui/Table.tsx:33-39 | the new key is the clicked one; the direction is descending exactly when that key was already sorted ascending |
| Table.ToggleTwiceFlips | src/components/ui/Table.tsx:33-39 | a second click on the same column always flips the direction |
| Table.TableState.constructor | src/components/ui/Table.tsx:25-30 | no sort key, ascending, empty search term |
| Table.TableState.HandleSort | src/components/ui/Table.tsx:33-39 | the new sort configuration is the toggle of the old one; the search term is unchanged |
| Table.TableState.SetSearchTerm | src/components/ui/Table.tsx:30 | sets the term and leaves the sort configuration alone |
| Table.CellLessStrictTotal | src/components/ui/Table.tsx:51-52 | `<` on field values is irreflexive, transitive and total on distinct values |
| Table.StrLessTransitive | src/components/ui/Table.tsx:51-52 | string order is transitive |
| Table.StrLessTotal | src/components/ui/Table.tsx:51-52 | of two distinct strings one is less than the other |
| Table.StrLessIrreflexive | src/components/ui/Table.tsx:51-52 | no string is less than itself |
| Table.Compare | src/components/ui/Table.tsx:45-55 | the comparator returns -1, 0 or 1, and 0 exactly for equal values |
| Table.DescendingNegatesAscending | src/components/ui/Table.tsx:54 | the descending comparator is the negation of the ascending one |
| Table.CompareAntisymmetric | src/components/ui/Table.tsx:49-54 | swapping the arguments negates the comparison |
| Table.CompareTransitive | src/components/ui/Table.tsx:49-54 | the comparator orders transitively in both directions |
| Table.Insert | src/components/ui/Table.tsx:45 | inserting one row lengthens the sequence by one (its order and stability are InsertSorted and InsertStable) |
| Table.SortRows | src/components/ui/Table.tsx:45 | the stable sort keeps the number of rows (its full contract is SortRowsCorrect) |
| Table.InsertPermutes | src/components/ui/Table.tsx:45 | insertion adds exactly the inserted row to the multiset of rows |
| Table.InsertSorted | src/components/ui/Table.tsx:45-55 | inserting into a sorted sequence keeps it sorted |
| Table.InsertStable | src/components/ui/Table.tsx:49 | rows with any given key value keep their relative order across an insertion |
| Table.SortRowsCorrect | src/components/ui/Table.tsx:45-55 | the result is a permutation, sorted by the comparator, and the rows of each key value appear in input order |
| Table.SortedDescendingIsNonIncreasing | src/components/ui/Table.tsx:54 | sorted descending means no row is followed by one with a larger value |
| Table.InsertInPlace | src/components/ui/Table.tsx:45 | the in-place step leaves the array equal to the functional insertion of element i into the sorted prefix |
| Table.SortInPlace | src/components/ui/Table.tsx:45-55 | the in-place sort leaves the array equal to the reference stable sort of its old contents |
| Table.TableState.SortedData | src/components/ui/Table.tsx:42-56 | with no (or an empty) key the same array is returned; otherwise a fresh array holding the sorted copy |
| Table.SortedViewCorrect | src/components/ui/Table.tsx:42-56 | with a key, the sorted view is a sorted, stable permutation of the data |
| Table.RowMatchesIff | src/components/ui/Table.tsx:63-72 | `some` over the search keys holds exactly when one key's value matches |
| Table.OtherKindsNeverMatch | src/components/ui/Table.tsx:71 | values that are neither strings nor numbers never match |
| Table.SearchKeepsExactlyMatches | src/components/ui/Table.tsx:59-74 | search is bypassed for an empty term, an unsearchable table or no keys; otherwise it keeps, in order, every copy of exactly the matching rows |
| Table.TableState.DisplayedRows | src/components/ui/Table.tsx:42-74 | the displayed rows are the search applied to the sorted view |
| Table.DisplayedIsSubsequenceOfSorted | src/components/ui/Table.tsx:59-74 | the displayed rows are a subsequence of the sorted rows; an untouched table shows `data` itself |
| JsArrays.FilterIsSubsequence | src/components/ui/Table.tsx:62 | `filter` yields an order-preserving subsequence |
| JsArrays.FilterCount | src/components/ui/Table.tsx:62 | `filter` keeps all copies of an element that passes and none of one that fails |
| JsArrays.FilterConcat | src/components/ui/Table.tsx:62 | `filter` distributes over concatenation |
| JsArrays.FilterAll | src/components/ui/Table.tsx:62 | filtering with a predicate every element satisfies changes nothing |
| JsStrings.LowerChar | src/components/ui/Table.tsx:66 | each modelled capital maps to its small letter, every other character to itself, and the result is never a capital |
| JsStrings.LowerIdempotent | src/components/ui/Table.tsx:66 | lower-casing twice equals lower-casing once |
| JsStrings.IncludesIff | src/components/ui/Table.tsx:66 | `includes` holds exactly when the term occurs at some index |
| JsStrings.IncludesEmpty | src/components/ui/Table.tsx:66 | the empty term is included in every string |
| JsStrings.NatToString | src/components/ui/Table.tsx:69 | the decimal text is non-empty, all digits, without a leading zero |
| JsStrings.IntToString | src/components/ui/Table.tsx:69 | a minus sign exactly for negative numbers, digits otherwise |
| JsStrings.IntToStringRoundTrip | src/components/ui/Table.tsx:69 | reading the decimal text back gives the number |
| JsStrings.IntToStringInjective | src/components/ui/Table.tsx:69 | distinct numbers have distinct decimal texts |
| TableExamples.SortByNome | src/components/ui/Table.tsx:33-55 | B, A, C sorts to A, B, C on the first click and to C, B, A on the second |
| TableExamples.TiesKeepOrder | src/components/ui/Table.tsx:49 | two rows with equal `nome` stay in input order in both directions |
| TableExamples.SearchMar | src/components/ui/Table.tsx:59-74 | "mar" over `nome` and `matricula` keeps Maria and drops Carlos |
| Zod.CheckMatchesAccepts | src/pages/alunos/AlunoForm.tsx:8-14 | a field check succeeds exactly on the values its rule accepts, and returns them unchanged unless it fills a default |
| Zod.ParseValidIff | src/pages/alunos/AlunoForm.tsx:8-14 | a candidate is valid exactly when every field passes its rule |
| Zod.NoErrorsIffValid | src/pages/alunos/AlunoForm.tsx:8-14 | a candidate is valid exactly when no schema field shows a message |
| Zod.InvalidHasErrors | src/pages/alunos/AlunoForm.tsx:8-14 | a rejected candidate carries at least one message |
| Zod.ErrorsOnlyForSchemaFields | src/pages/alunos/AlunoForm.tsx:8-14 | only schema fields carry messages |
| Zod.FieldError | src/pages/alunos/AlunoForm.tsx:8-14 | each field shows exactly its own check's message, whatever the other fields hold |
| Zod.ParsedData | src/pages/alunos/AlunoForm.tsx:8-14 | accepted data has exactly the schema's keys, each holding its check's result |
| Zod.SubmittedKeepsValues | src/components/forms/DiretorForm.tsx:8-14 | accepted data keeps every supplied value unchanged |
| Zod.SubmittedIsStripped | src/pages/alunos/AlunoForm.tsx:8-14 | without defaults, accepted data is the candidate restricted to the schema's keys |
| Zod.ParseIgnoresOtherFields | src/pages/alunos/AlunoForm.tsx:8-14 | candidates that agree on the schema's fields get the same verdict |
| Zod.ProjectionKeepsVerdict | src/pages/alunos/AlunoForm.tsx:54-62 | projecting a record onto a superset of the schema's keys keeps its verdict |
| Zod.Project | src/pages/alunos/AlunoForm.tsx:55-61 | the projection has the listed keys the record has, with the record's values |
| Zod.Prefill | src/pages/alunos/AlunoForm.tsx:54-62 | no record gives no defaults (`undefined`); a record gives its projection |
| Zod.StringMinField | src/pages/alunos/AlunoForm.tsx:9 | a `min(n)` string field has no message exactly for text of length at least n; short text shows the rule's message, a missing value `Required` |
| Zod.StringEmailField | src/components/forms/DiretorForm.tsx:12 | an email field has no message exactly for text the email predicate accepts |
| Zod.NumberMinField | src/pages/alunos/AlunoForm.tsx:12 | a `min(lo)` number field has no message exactly for numbers of at least lo |
| Zod.NumberRangeField | src/pages/notas/NotaForm.tsx:8-10 | a min/max number field has no message exactly inside the closed range, with the lower message below and the upper above |
| Zod.EnumField | src/pages/fardamentos/FardamentoForm.tsx:17-22 | an enum field has no message exactly for one of its options; any problem shows the error map's message |
| Zod.BooleanDefaultField | src/components/forms/DiretorForm.tsx:13 | a defaulted boolean is refused only for a non-boolean, and an omitted one parses as the default |
| AlunoForm.SchemaShape | src/pages/alunos/AlunoForm.tsx:8-14 | the schema has five distinct fields |
| AlunoForm.NomeRule | src/pages/alunos/AlunoForm.tsx:9 | `nome` passes exactly with at least 3 characters, otherwise shows its message |
| AlunoForm.DataNascAndSexoRules | src/pages/alunos/AlunoForm.tsx:10-11 | `data_nasc` and `sexo` pass exactly as non-empty text, so any non-empty `sexo` passes |
| AlunoForm.ForeignKeyRules | src/pages/alunos/AlunoForm.tsx:12-13 | class and guardian must be numbers of at least 1, with their messages |
| AlunoForm.ValidIff | src/pages/alunos/AlunoForm.tsx:8-14 | valid exactly when all five rules hold |
| AlunoForm.ErrorsOnlyUnderFields | src/pages/alunos/AlunoForm.tsx:8-14 | no message appears under any other key |
| AlunoForm.SubmittedData | src/pages/alunos/AlunoForm.tsx:8-14 | the submitted data is the five fields as entered |
| AlunoForm.EditKeepsVerdict | src/pages/alunos/AlunoForm.tsx:54-62 | creating has no defaults; editing prefills the five fields and gets the record's own verdict |
| DisciplinaForm.SchemaShape | src/pages/disciplinas/DisciplinaForm.tsx:13-18 | the schema has four distinct fields |
| DisciplinaForm.TextRules | src/pages/disciplinas/DisciplinaForm.tsx:14-17 | `nome` needs at least 3 and `descricao` at least 10 characters |
| DisciplinaForm.NumberRules | src/pages/disciplinas/DisciplinaForm.tsx:15-16 | `id_nota` and `carga_horaria` need numbers of at least 1, with their messages |
| DisciplinaForm.ValidIff | src/pages/disciplinas/DisciplinaForm.tsx:13-18 | valid exactly when all four rules hold |
| DisciplinaForm.SubmittedData | src/pages/disciplinas/DisciplinaForm.tsx:13-18 | the submitted data is the four fields as entered |
| DisciplinaForm.EditKeepsVerdict | src/pages/disciplinas/DisciplinaForm.tsx:53-61 | creating has no defaults; editing prefills the four fields and gets the record's own verdict |
| FardaAlunoForm.SchemaShape | src/pages/farda-alunos/FardaAlunoForm.tsx:19-23 | the schema has three distinct fields |
| FardaAlunoForm.FieldRules | src/pages/farda-alunos/FardaAlunoForm.tsx:20-22 | both ids need numbers of at least 1 and the date non-empty text, with their messages |
| FardaAlunoForm.ValidIff | src/pages/farda-alunos/FardaAlunoForm.tsx:19-23 | valid exactly when all three rules hold |
| FardaAlunoForm.SubmittedData | src/pages/farda-alunos/FardaAlunoForm.tsx:19-23 | the submitted data is the three fields as entered |
| FardaAlunoForm.DefaultValues | src/pages/farda-alunos/FardaAlunoForm.tsx:63-69 | creating has no defaults; editing copies both ids and the date before the first `T`, and throws when the date is not text |
| JsStrings.BeforeFirst | src/pages/farda-alunos/FardaAlunoForm.tsx:67 | `split('T')[0]` is a prefix without `T`, ending right before the first `T` if there is one |
| JsStrings.BeforeFirstWithoutSeparator | src/pages/farda-alunos/FardaAlunoForm.tsx:67 | without a `T` the whole string is kept |
| JsStrings.BeforeFirstOfJoin | src/pages/farda-alunos/FardaAlunoForm.tsx:67 | splitting `d + "T" + t` gives `d` when `d` has no `T` |
| FardaAlunoForm.TimestampBecomesDate | src/pages/farda-alunos/FardaAlunoForm.tsx:67 | an ISO timestamp is cut to its date part |
| FardaAlunoForm.EditVerdict | src/pages/farda-alunos/FardaAlunoForm.tsx:63-69 | an edited record is accepted exactly when both ids pass and the date part is non-empty |
| ProfessorForm.SchemaShape | src/pages/professores/ProfessorForm.tsx:8-12 | the schema has three distinct fields |
| ProfessorForm.FieldRules | src/pages/professores/ProfessorForm.tsx:9-11 | `nome` at least 3 characters; class and director numbers of at least 1, with their messages |
| ProfessorForm.ValidIff | src/pages/professores/ProfessorForm.tsx:8-12 | valid exactly when all three rules hold |
| ProfessorForm.SubmittedData | src/pages/professores/ProfessorForm.tsx:8-12 | the submitted data is the three fields as entered |
| ProfessorForm.EditKeepsVerdict | src/pages/professores/ProfessorForm.tsx:52-58 | editing prefills the three fields and gets the record's own verdict |
| DiretorFormShared.SchemaShape | src/components/forms/DiretorForm.tsx:8-14 | the schema has five distinct fields |
| DiretorFormShared.FieldRules | src/components/forms/DiretorForm.tsx:9-13 | lengths 3, 2 and 10, an accepted email, and `ativo` refused only when not a boolean, with the messages |
| DiretorFormShared.ValidIff | src/components/forms/DiretorForm.tsx:8-14 | valid exactly when all five rules hold |
| DiretorFormShared.SubmittedData | src/components/forms/DiretorForm.tsx:8-14 | the submitted data is the five fields as entered, with `ativo` true when omitted |
| DiretorFormShared.DefaultValues | src/components/forms/DiretorForm.tsx:35-43 | creating gives exactly `{ ativo: true }`; editing copies the five fields |
| DiretorFormShared.EditKeepsVerdict | src/components/forms/DiretorForm.tsx:35-43 | editing gets the record's own verdict |
| DiretorFormShared.NewDirectorNeedsInput | src/components/forms/DiretorForm.tsx:35-43 | parsing the create defaults `{ ativo: true }` alone is refused, with `Required` under the four text fields and nothing under `ativo` |
| DiretorFormShared.UntouchedNewDirectorRefused | src/components/forms/DiretorForm.tsx:58-108 | a new director's form submitted untouched, its registered text inputs empty, shows each text field's own message and nothing under `ativo` |
| DiretorFormPage.DefaultValues | src/pages/diretores/DiretorForm.tsx:30-32 | editing uses the whole record; creating gives exactly `{ ativo: true }` |
| DiretorFormPage.AgreesWithSharedForm | src/pages/diretores/DiretorForm.tsx:7-32 | the two director forms judge every candidate alike and their defaults get the same verdict |
| DiretorFormPage.ValidIff | src/pages/diretores/DiretorForm.tsx:7-13 | valid exactly when all five rules hold |
| ResponsavelForm.SchemaShape | src/pages/responsaveis/ResponsavelForm.tsx:7-11 | the schema has three distinct fields |
| ResponsavelForm.FieldRules | src/pages/responsaveis/ResponsavelForm.tsx:8-10 | minimum lengths 3, 10 and 2, with their messages |
| ResponsavelForm.ValidIff | src/pages/responsaveis/ResponsavelForm.tsx:7-11 | valid exactly when all three rules hold |
| ResponsavelForm.SubmittedData | src/pages/responsaveis/ResponsavelForm.tsx:7-11 | the submitted data is the three fields as entered |
| ResponsavelForm.EditKeepsVerdict | src/pages/responsaveis/ResponsavelForm.tsx:32-38 | editing prefills the three fields and gets the record's own verdict |
| FardamentoForm.SchemaShape | src/pages/fardamentos/FardamentoForm.tsx:16-23 | the schema has two distinct fields |
| FardamentoForm.FieldRules | src/pages/fardamentos/FardamentoForm.tsx:7-23 | `tipo` and `tamanho` pass exactly for one of their four options, matched exactly; otherwise the error map's message |
| FardamentoForm.ValidIff | src/pages/fardamentos/FardamentoForm.tsx:16-23 | valid exactly when both fields hold an option |
| FardamentoForm.PlaceholderRefused | src/pages/fardamentos/FardamentoForm.tsx:63 | the empty "Selecione..." choice is refused for both fields |
| FardamentoForm.SubmittedData | src/pages/fardamentos/FardamentoForm.tsx:16-23 | the submitted data is the two fields as entered |
| FardamentoForm.EditKeepsVerdict | src/pages/fardamentos/FardamentoForm.tsx:44-49 | editing copies both fields unchecked and gets the record's own verdict |
| FardamentoForm.StoredOutsideOptionsRefused | src/pages/fardamentos/FardamentoForm.tsx:44-49 | a stored value outside the options is loaded and then refused with the form's message |
| PesoForm.SchemaShape | src/pages/pesos/PesoForm.tsx:7-11 | the schema has three distinct fields |
| PesoForm.FieldRules | src/pages/pesos/PesoForm.tsx:8-10 | non-empty description, weight in [0, 2], value in [0, 200], with separate messages below and above |
| PesoForm.ValidIff | src/pages/pesos/PesoForm.tsx:7-11 | valid exactly when all three rules hold |
| PesoForm.SubmittedData | src/pages/pesos/PesoForm.tsx:7-11 | the submitted data is the three fields as entered |
| PesoForm.EditKeepsVerdict | src/pages/pesos/PesoForm.tsx:32-38 | editing prefills the three fields and gets the record's own verdict |
| ClubeForm.SchemaShape | src/pages/clubes/ClubeForm.tsx:7-10 | the schema has two distinct fields |
| ClubeForm.FieldRules | src/pages/clubes/ClubeForm.tsx:8-9 | `nome` at least 3 and `descricao` at least 10 characters, with their messages |
| ClubeForm.ValidIff | src/pages/clubes/ClubeForm.tsx:7-10 | valid exactly when both rules hold |
| ClubeForm.SubmittedData | src/pages/clubes/ClubeForm.tsx:7-10 | the submitted data is the two fields as entered |
| ClubeForm.EditKeepsVerdict | src/pages/clubes/ClubeForm.tsx:31-36 | editing prefills both fields and gets the record's own verdict |
| NotaForm.SchemaShape | src/pages/notas/NotaForm.tsx:7-11 | the schema has the one field `valor` |
| NotaForm.ValidIff | src/pages/notas/NotaForm.tsx:8-10 | valid exactly for a grade in [0, 10], both bounds included, with separate messages below 0 and above 10 |
| NotaForm.SubmittedData | src/pages/notas/NotaForm.tsx:7-11 | the submitted data is the grade alone |
| NotaForm.EditKeepsVerdict | src/pages/notas/NotaForm.tsx:32-36 | editing prefills only `valor` and gets the record's own verdict |
| TurmaForm.SchemaShape | src/pages/turmas/TurmaForm.tsx:7-9 | the schema has exactly the one field `ano_escolar` |
| TurmaForm.ValidIff | src/pages/turmas/TurmaForm.tsx:8 | valid exactly for non-empty text; empty text shows the form's message, a missing value `Required` |
| TurmaForm.SubmittedData | src/pages/turmas/TurmaForm.tsx:7-9 | the submitted data is the school year alone |
| TurmaForm.EditKeepsVerdict | src/pages/turmas/TurmaForm.tsx:30-34 | editing prefills `ano_escolar` and gets the record's own verdict |
| AuthService.PostData | src/services/api.ts:53-67 | a success passes status and body through; a failure yields no token, the server's non-zero status or else 500, and the server's non-empty message or else `Erro ao enviar dados` |
| AuthService.StoreSession | src/services/authService.ts:33-36 | writes `authToken` and `user` and no other key |
| AuthService.ClearSession | src/services/authService.ts:42-44 | removes `authToken` and `user` and no other key |
| AuthService.StoreThenRead | src/services/authService.ts:49-60 | after storing, the user reads back and the client is authenticated exactly for a non-empty token |
| AuthService.ClearThenRead | src/services/authService.ts:42-60 | after clearing, no user and no authentication; clearing is idempotent |
| AuthService.LoginStoresExactlyTokenBearers | src/services/authService.ts:28-38 | a response with a token leaves the client authenticated as its user; one without leaves storage exactly as it was |
| AuthService.MockCredentialsAlwaysLogIn | src/services/authService.ts:17-25 | `admin`/`admin123` gives status 200 and stores the mock user and token, whatever the network would do |
| AuthService.MockLoginLogoutRoundTrip | src/services/authService.ts:19-60 | after a mock login the mock user is current and authenticated; after logout nothing is |
| AuthService.FailedLoginStoresNothing | src/services/authService.ts:28-38 | a failed request leaves storage unchanged and returns an error |
| AuthService.MockTokenNeedsNoServer | src/services/authService.ts:66-69 | the mock token validates without the server and keeps the session |
| AuthService.RefusedTokenLogsOut | src/services/authService.ts:63-77 | validation fails exactly for a non-mock token the server refuses, and then nothing is authenticated |
| AuthService.Session.constructor | src/services/authService.ts:49-60 | starts from the given local storage, the one `getCurrentUser` and `isAuthenticated` read, before any redirect |
| AuthService.Session.Login | src/services/authService.ts:14-39 | calls the API exactly for non-mock credentials, returns the login response, and stores the session exactly when that response carries a token |
| AuthService.Session.Logout | src/services/authService.ts:42-46 | clears both keys and redirects to `/login` |
| AuthService.Session.GetCurrentUser | src/services/authService.ts:49-55 | in a valid session a user is returned exactly when one is stored under `user`, and it is the stored one |
| AuthService.Session.ValidateToken | src/services/authService.ts:63-77 | asks the server exactly for a non-mock token; the answer is the verdict; a refusal clears the session and redirects |
| ProtectedRoute.RenderDecision | src/pages/ProtectedRoute.tsx:25-36 | spinner exactly while loading; the page exactly when authenticated and valid; otherwise a redirect to `/login` |
| ProtectedRoute.Route.constructor | src/pages/ProtectedRoute.tsx:6-7 | starts loading and not valid |
| ProtectedRoute.Route.CheckAuth | src/pages/ProtectedRoute.tsx:9-23 | validates exactly an authenticated session, sets `isValid` to the verdict, redirects to `/login` exactly when the token was refused, and always stops loading |
| ProtectedRoute.GuardAdmitsIff | src/pages/ProtectedRoute.tsx:9-36 | the page is shown exactly for a truthy token that is the mock one or that the server accepts; otherwise a redirect |
| ProtectedRoute.NoTokenNoPage | src/pages/ProtectedRoute.tsx:11-17 | without a token the guard redirects |
| ProtectedRoute.Mount | src/pages/ProtectedRoute.tsx:5-37 | first a spinner, then exactly the guard's decision for the storage found on mount |
| LoginPage.SubmitError | src/pages/Login.tsx:28-32 | the message is never empty: the response's own error, else `Credenciais inválidas`, and the connection message when `login` threw |
| LoginPage.FailedRequestShowsItsMessage | src/pages/Login.tsx:26-29 | a failed request does not navigate and shows the message `postData` produced |
| LoginPage.NavigationImpliesStoredSession | src/pages/Login.tsx:26-27 | whenever the page navigates, the token is stored and the stored user is the response's |
| LoginPage.StoredWithoutNavigation | src/pages/Login.tsx:26-29 | a 201 answer with a token stores a session while the page shows `Credenciais inválidas` |
| LoginPage.Page.constructor | src/pages/Login.tsx:7-10 | empty inputs and message, not loading, no navigation |
| LoginPage.Page.SetCredentials | src/pages/Login.tsx:82-101 | the input handlers set the two fields and nothing else |
| LoginPage.Page.StartSubmit | src/pages/Login.tsx:15-21 | an empty field sets `Preencha todos os campos` and keeps `loading`; otherwise loading starts and the message clears |
| LoginPage.Page.FinishSubmit | src/pages/Login.tsx:23-35 | navigates to `/` exactly on status 200 with a token, otherwise shows the submit error; loading always ends |
| LoginPage.Page.HandleSubmit | src/pages/Login.tsx:13-36 | an empty field sends nothing; otherwise `login` runs once, its session rule applies, and the page ends as `FinishSubmit` gives; the inputs and the browser location are left alone |

## Left out

- The JavaScript `<` between values of different types (a number and a string, `null`, `undefined`) coerces them. The model orders kinds instead, null < booleans < numbers < strings < undefined, so that the comparator is consistent.
- Table numbers are integers below 2^53 in magnitude. `Number.prototype.toString` on fractions, `NaN` and infinities is not modelled. Neither are integers beyond 2^53, where distinct integers can be one double (a tie for `===` in the comparator, kept in input order).
- NatToString: gives plain decimal digits for every natural number, whereas JavaScript writes numbers of at least 1e21 in exponent notation ("1e+21"), so a search term such as "e" or "000" matches such a cell differently.
- IntToString: the same gap as NatToString, for negative numbers of magnitude at least 1e21.
- Strings are sequences of characters, not UTF-16 code units. String order is code-point order.
- JsStrings.LowerChar: `toLowerCase` is modelled for ASCII and the Latin-1 capitals only, not for the rest of Unicode.
- Row identity (`keyExtractor`), column accessors and the rendering of cells are presentation.
- React memoisation and state-update timing are not modelled; each table method updates its state at once.
- zod's email regular expression is a parameter (`isEmail`) of the director forms. `NaN` from `valueAsNumber` on an empty select is absent, because form numbers are reals.
- zod reports every issue of a field, and the forms show one. The model keeps one message per field: the first failing check, or the error map's message.
- The DOM side of react-hook-form is not modelled: each form's candidate is the values handed to the schema. A registered text input the user never touched is submitted as `""`, not left out; `DiretorFormShared.UntouchedNewDirectorRefused` states that case for the director form.
- The `Promise.all` loading of select options in the forms is asynchronous I/O and is not modelled.
- `JSON.stringify`/`JSON.parse` of the stored user are abstract: a stored user is a `Json` value. `getCurrentUser` on a `user` entry this code did not write is not modelled (`Session.Valid` keeps such entries out).
- The login and validation requests, the axios instance and the remaining HTTP wrappers are abstract outcomes (`Reply` and `serverAccepts`). The CRUD pages are not part of this model.
- React Router's `navigate` and `<Navigate>` are recorded as a path, and `window.location.href` as a field; no page is loaded.
