# UniCourses application logic in Dafny

UniCourses is a course-enrolment web application: students browse the
active courses and enrol in them, teachers manage the modules and the
content of the courses assigned to them, and administrators manage the
catalogue. The front end is React on top of a hosted Postgres backend
(Supabase), reached through a query builder and an authentication client.

This project models the application's own logic, not the backend or the
rendering:

- **Services** (`authService.ts`, `studentService.ts`, `teacherService.ts`)
  become pure functions. Each backend reply they await is a parameter
  (`Reply<T>`, an optional error plus optional data). A table they filter or
  sort is a sequence of rows. A thrown `Error` is the `Thrown` case of a
  `Result`. Where a path skips a query, the result also records whether that
  query was made.
- **The authentication context** (`AuthContext.tsx`) is a class with the two
  state cells. Its transitions are functions on a state snapshot, and the
  invariant "a role implies signed in" is proved for every state reached by
  a sequence of whole calls. Calls that overlap at `checkSession`'s profile
  lookup can break it (see "## Findings").
  The two route guards are functions of that snapshot.
- **Screens** that keep state in `useState` cells become classes. Each cell
  is a field and each handler is a method whose `modifies` names the cells it
  sets. Handlers with several exits are specified by a function on a state
  snapshot, and lemmas state each exit. The backend enrolment table is a
  class whose set of rows an insert changes.
- **Pure helpers** of the screens become functions with lemmas: search
  filters, count labels, the password policy, the e-mail pattern and the
  interest toggles. So do the id encoder (`btoa` with the padding removed,
  and `atob`), proved to round-trip.

Shared modules: `Common` (Option, Result, Reply, toasts, JavaScript
truthiness of optional strings), `Text` (ASCII lower-casing, substring search,
trim, decimal rendering, `split`/`join`), `Seqs` (filter, subsequence,
remove-all, find, sum, insertion sort) and `Tables` (module and content rows).

## Model

| member | source | states |
|---|---|---|
| IdEncoder.SextetRoundTrip | src/utils/idEncoder.ts:2 | each of the 64 base64 digits decodes back to its value |
| IdEncoder.Btoa | src/utils/idEncoder.ts:2 | `btoa` throws exactly when some character is above U+00FF |
| IdEncoder.EncodeIdIsUnpaddedBase64 | src/utils/idEncoder.ts:1-3 | `encodeId` of a byte string is its base64 text without padding, and throws on any other string |
| IdEncoder.StripEqualsPadding | src/utils/idEncoder.ts:2 | removing every `=` from the padded encoding gives the unpadded encoding |
| IdEncoder.EncodeIdShape | src/utils/idEncoder.ts:1-3 | an encoded id never contains `=` and has length ceil(4n/3) |
| IdEncoder.EncodeUnpaddedInAlphabet | src/utils/idEncoder.ts:2 | every character of the encoding is a base64 digit |
| IdEncoder.Atob | src/utils/idEncoder.ts:6 | a successful `atob` yields a byte string |
| IdEncoder.DecodeEncode | src/utils/idEncoder.ts:1-7 | decoding the unpadded encoding gives back the original bytes |
| IdEncoder.DecodeIdEncodeId | src/utils/idEncoder.ts:1-7 | `decodeId(encodeId(id)) == id` for every byte-string id |
| AuthContext.Initial | src/context/AuthContext.tsx:23-24 | the provider starts signed out with no role |
| AuthContext.LoginSetsBothFields | src/context/AuthContext.tsx:26-29 | `login(rol)` signs in and sets the role to `rol` |
| AuthContext.LogoutResets | src/context/AuthContext.tsx:31-35 | a completed `logout` returns to the initial state; a rejected `signOut` changes nothing |
| AuthContext.CheckSessionOutcome | src/context/AuthContext.tsx:38-59 | no session changes nothing; a session signs in, and the role is set only when the profile has a truthy `rol` |
| AuthContext.ApplyPreservesInvariant | src/context/AuthContext.tsx:26-59 | each of login, logout and the session check keeps "a role implies signed in" |
| AuthContext.RunPreservesInvariant | src/context/AuthContext.tsx:26-59 | any sequence of those calls keeps the invariant |
| AuthContext.ReachableStatesKeepInvariant | src/context/AuthContext.tsx:23-59 | every state reached from the initial one by a sequence of whole, non-overlapping calls holds a role only when signed in |
| AuthContext.CheckSessionIdempotent | src/context/AuthContext.tsx:38-59 | checking the session twice with the same answers equals checking once |
| AuthContext.HalvesMakeWholeCall | src/context/AuthContext.tsx:43-54 | the part of `checkSession` before the profile lookup followed by the part after it is the whole session check, in the code as written and in the corrected version |
| AuthContext.LogoutDuringLookupBreaksInvariant | src/context/AuthContext.tsx:31-54 | as written, a logout completing while the profile lookup is pending, followed by a truthy `rol`, leaves a role with nobody signed in |
| AuthContext.FixedStepsKeepInvariant | src/context/AuthContext.tsx:31-54 | with the role set after the lookup only while still signed in, every interleaving of the calls keeps "a role implies signed in" |
| AuthContext.LateProfilesKeepSignedOut | src/context/AuthContext.tsx:31-54 | with that correction, lookups answering once the user is signed out change nothing |
| AuthContext.FixedLookupAfterLogoutStaysSignedOut | src/context/AuthContext.tsx:31-54 | with that correction, the logout-during-lookup interleaving ends signed out with no role |
| AuthContext.AuthProvider.constructor | src/context/AuthContext.tsx:23-24 | the provider's cells start in the initial state |
| AuthContext.AuthProvider.Login | src/context/AuthContext.tsx:26-29 | the cells move by the login transition |
| AuthContext.AuthProvider.Logout | src/context/AuthContext.tsx:31-35 | the cells move by the logout transition, and the call throws exactly when `signOut` rejected |
| AuthContext.AuthProvider.CheckSession | src/context/AuthContext.tsx:38-59 | the cells move by the session-check transition |
| RouteGuards.RoleProtectedRoute | src/context/RoleProtectedRoute.tsx:13-17 | signed out goes to /login; signed in with a different or no role goes to /unauthorized; otherwise the children show (each an if-and-only-if) |
| RouteGuards.ProtectedRoute | src/components/ProtectedRoute.tsx:6-9 | the children show exactly when signed in, otherwise /login; never /unauthorized |
| RouteGuards.NoRoleIsUnauthorized | src/context/RoleProtectedRoute.tsx:13-17 | a signed-in user without a role is refused every role-gated route |
| RouteGuards.ProtectedRouteIgnoresRole | src/components/ProtectedRoute.tsx:6-9 | the plain guard's decision does not depend on the role |
| RouteGuards.LogoutRedirectsToLogin | src/context/AuthContext.tsx:31-35 | after a completed logout every guarded route redirects to /login |
| RouteGuards.LogoutSurvivesLateLookups | src/context/AuthContext.tsx:31-54 | with the corrected `checkSession`, a completed logout followed by any late profile lookups leaves the context signed out with no role, and every guarded route redirects to /login |
| RouteGuards.LoginOpensOwnRoleOnly | src/context/RoleProtectedRoute.tsx:13-17 | after `login(rol)` a role-gated route opens exactly when it requires `rol` |
| RouteGuards.RoleGateIsStricter | src/context/RoleProtectedRoute.tsx:13-17 | wherever the role gate shows its children, the plain guard does too |
| AuthService.GetCurrentSessionWithRole | src/services/authService.ts:17-42 | no session gives signed out with no role and no profile query; with a session the user is signed in, and the role is the profile's `rol` exactly when the lookup succeeded with a truthy `rol` |
| AuthService.EnsureRecoverySession | src/services/authService.ts:43-50 | throws "Sesión de recuperación no válida" exactly when there is no session |
| AuthService.OnAuthRecovery | src/services/authService.ts:51-59 | the callback runs exactly on the PASSWORD_RECOVERY event |
| AuthService.UpdatePassword | src/services/authService.ts:62-65 | succeeds exactly when the update succeeded, otherwise throws the prefixed backend message |
| AuthService.LoginWithEmailPassword | src/services/authService.ts:66-88 | a sign-in error throws the fixed message without a profile query; otherwise the role is returned exactly when the profile lookup succeeded |
| AuthService.SignUpWithProfile | src/services/authService.ts:90-121 | a failed sign-up or one without a user throws "Error al registrar usuario: " with the error text and sends no profile row; otherwise a row with the payload's fields, the new id and rol "estudiante" is sent; a failed insert throws "Error al guardar perfil: " with its message; the id is returned exactly when the insert succeeded |
| AuthService.UpdateAuthEmailIfChanged | src/services/authService.ts:132-139 | an update is sent exactly when there is a current address that differs ignoring case, and it throws only when a sent update failed |
| AuthService.CaseOnlyChangeSendsNothing | src/services/authService.ts:132-139 | changing only the letter case of the address sends nothing |
| Enrollment.WithCount | src/components/StudentProfile/Cursos/StudentCourseView.tsx:69-74 | the course keeps every other field and gains the reported count, or 0 when the count is null |
| Enrollment.AvailableFrom | src/components/StudentProfile/Cursos/StudentCourseView.tsx:57-76 | the listing holds exactly the active courses the student is not enrolled in, each with its count |
| Enrollment.AvailableFromAppend | src/components/StudentProfile/Cursos/StudentCourseView.tsx:57-76 | the listing keeps the table's order: a split table lists its parts one after the other |
| Enrollment.AvailableFromOne | src/components/StudentProfile/Cursos/StudentCourseView.tsx:57-76 | one row is listed once, with its count, exactly when it is active and not enrolled, and otherwise not at all |
| Enrollment.Available | src/components/StudentProfile/Cursos/StudentCourseView.tsx:60-67 | a failed course query lists nothing, and every listed course is offered |
| Enrollment.AvailableIsFilter | src/components/StudentProfile/Cursos/StudentCourseView.tsx:65-76 | a catalogue course is listed (with its count) if and only if it is active and not enrolled |
| Enrollment.NothingEnrolledListsAll | src/components/StudentProfile/Cursos/StudentCourseView.tsx:65-76 | with no enrolments and every course active, the whole catalogue is listed |
| Enrollment.EnrollDisabledIff | src/components/StudentProfile/Cursos/StudentCourseView.tsx:211-213 | a course is full exactly when its occupancy reached its maximum, and the button is disabled exactly when it is full or an enrolment runs |
| Enrollment.ListedCourseDisabledIff | src/components/StudentProfile/Cursos/StudentCourseView.tsx:282 | for a listed course the button is disabled exactly when the reported count reached the maximum or an enrolment runs |
| Enrollment.MatriculaTable.constructor | src/components/StudentProfile/Cursos/StudentCourseView.tsx:132-135 | the enrolment table starts with the given rows |
| StudentCourseView.AfterMatricular | src/components/StudentProfile/Cursos/StudentCourseView.tsx:92-159 | a row is inserted only after the existence check passed, the list is refetched exactly when a row was inserted, and the handler ends idle |
| StudentCourseView.NoCourseDoesNothing | src/components/StudentProfile/Cursos/StudentCourseView.tsx:93 | without a course in the dialog the handler changes nothing |
| StudentCourseView.NoUserMakesNoQuery | src/components/StudentProfile/Cursos/StudentCourseView.tsx:100-104 | without a session: an error toast, no query, no insert, and the dialog stays open |
| StudentCourseView.VerifyErrorStops | src/components/StudentProfile/Cursos/StudentCourseView.tsx:114-119 | a verification error other than PGRST116 gives an error toast and no insert; PGRST116 behaves like no error |
| StudentCourseView.ExistingRowWarns | src/components/StudentProfile/Cursos/StudentCourseView.tsx:121-129 | an existing enrolment gives the already-enrolled warning and no insert |
| StudentCourseView.InsertErrorToast | src/components/StudentProfile/Cursos/StudentCourseView.tsx:137-148 | a refused insert is the already-enrolled warning for code 23505 or a "duplicate key" message, and an error toast with the backend message otherwise |
| StudentCourseView.DuplicateKeyMessage | src/components/StudentProfile/Cursos/StudentCourseView.tsx:138 | any message containing "duplicate key" counts as a duplicate, whatever its code |
| StudentCourseView.InsertedIff | src/components/StudentProfile/Cursos/StudentCourseView.tsx:92-159 | a row is inserted exactly when a course is selected, there is a session, verification passed, no row exists and the insert succeeded |
| StudentCourseView.EndsIdle | src/components/StudentProfile/Cursos/StudentCourseView.tsx:102-158 | once a course is selected the handler ends idle, and with a session it always closes the dialog |
| StudentCourseView.CapacityIsNotChecked | src/components/StudentProfile/Cursos/StudentCourseView.tsx:92-159 | the handler does not read capacity or occupancy: changing them never changes whether a row is inserted |
| StudentCourseView.CoursesView.constructor | src/components/StudentProfile/Cursos/StudentCourseView.tsx:22-31 | the screen starts loading with an empty list, no toast and the dialogs closed |
| StudentCourseView.CoursesView.FetchCursos | src/components/StudentProfile/Cursos/StudentCourseView.tsx:40-80 | without a user the list is kept; otherwise it becomes the available listing; loading ends |
| StudentCourseView.CoursesView.OpenDetails | src/components/StudentProfile/Cursos/StudentCourseView.tsx:82-85 | opens the details dialog on that course and changes nothing else |
| StudentCourseView.CoursesView.CloseDetails | src/components/StudentProfile/Cursos/StudentCourseView.tsx:87-90 | closes the details dialog and clears the selection, nothing else |
| StudentCourseView.CoursesView.AskToEnroll | src/components/StudentProfile/Cursos/StudentCourseView.tsx:280 | opens the confirmation dialog on that course, nothing else |
| StudentCourseView.CoursesView.CancelEnroll | src/components/StudentProfile/Cursos/StudentCourseView.tsx:353 | closes the confirmation dialog, nothing else |
| StudentCourseView.CoursesView.HandleMatricular | src/components/StudentProfile/Cursos/StudentCourseView.tsx:92-159 | the screen moves as `AfterMatricular` says, with the existence check answered by the table, and the table gains the (user, course) row exactly when it was inserted |
| StudentCourseView.CoursesView.CloseToast | src/components/StudentProfile/Cursos/StudentCourseView.tsx:195 | clears the toast, nothing else |
| StudentCoursePage.EnrolledCourses | src/pages/Student/StudentCourseView.tsx:72-77 | the enrolled courses in join order, [] when the join returned nothing, and a throw exactly when some row's embedded course is null |
| StudentCoursePage.Ids | src/pages/Student/StudentCourseView.tsx:77 | the id list has one id per enrolled course, in order |
| StudentCoursePage.AfterMatricular | src/pages/Student/StudentCourseView.tsx:113-137 | the handler ends idle, inserts only when it attempted, refetches exactly when it inserted, and changes only the alert besides |
| StudentCoursePage.NoUserNoInsert | src/pages/Student/StudentCourseView.tsx:119-123 | without a session: an alert and no insert |
| StudentCoursePage.SessionAlwaysInserts | src/pages/Student/StudentCourseView.tsx:125-135 | with a session the insert is always attempted, with no existence or capacity check, and the alert reports its outcome |
| StudentCoursePage.CoursesPage.constructor | src/pages/Student/StudentCourseView.tsx:31-36 | the page starts loading with empty lists and no dialog |
| StudentCoursePage.CoursesPage.FetchCursos | src/pages/Student/StudentCourseView.tsx:42-101 | without a user the lists are kept and loading ends; a null embedded course makes the call reject with loading still set and the lists kept; otherwise the enrolled list is the joined courses, the available list is the offered courses, no course is in both, and loading ends |
| StudentCoursePage.CoursesPage.OpenDetails | src/pages/Student/StudentCourseView.tsx:103-106 | opens the dialog on that course, nothing else |
| StudentCoursePage.CoursesPage.CloseDetails | src/pages/Student/StudentCourseView.tsx:108-111 | closes the dialog and clears the selection, nothing else |
| StudentCoursePage.CoursesPage.HandleMatricular | src/pages/Student/StudentCourseView.tsx:113-137 | the page moves as `AfterMatricular` says, and the table gains the row exactly when it was inserted |
| StudentCourseModules.ModulesScreen.constructor | src/components/StudentProfile/Cursos/StudentCourseModules.tsx:18-20 | the screen starts loading with no modules |
| StudentCourseModules.ModulesScreen.LoadModules | src/components/StudentProfile/Cursos/StudentCourseModules.tsx:28-56 | no course id does nothing; not enrolled gives the error toast and a redirect to the course list without fetching; otherwise the modules are the fetched ones or an error toast; loading ends |
| StudentCourseModules.ContentPath | src/components/StudentProfile/Cursos/StudentCourseModules.tsx:58-61 | the content path splits into the course id and the module id under /student/courses |
| StudentService.GetStudentCourseModules | src/services/studentService.ts:64-77 | an error throws the prefixed message; otherwise the visible modules of the course, each row as often as in the table, sorted by `orden` |
| StudentService.GetStudentModuleContent | src/services/studentService.ts:80-93 | an error throws the prefixed message; otherwise the visible content of the module, each row as often as in the table, sorted by `orden` |
| StudentService.IsEnrolledInCourse | src/services/studentService.ts:96-108 | false without a session and false on a lookup error; otherwise true exactly when a row was found |
| StudentService.IsEnrolledMatchesTable | src/services/studentService.ts:96-108 | against a table of (user, course) pairs the test is membership when the lookup succeeds, and false when it fails |
| StudentService.FechaFromFirstMatch | src/services/studentService.ts:55-58 | a course's enrolment date is that of its first enrolment row, and "" when there is none |
| StudentService.GetEnrolledCourses | src/services/studentService.ts:31-61 | no user throws "No autenticado"; no enrolments gives [] without querying courses; otherwise each course row carries its enrolment date, or the course query's error is thrown |
| TeacherService.GetTeacherCourses | src/services/teacherService.ts:48-83 | no user, no profile and a failed course query each throw their message; otherwise the call succeeds and each course carries its student count, 0 when none was reported |
| TeacherService.GetCourseStudents | src/services/teacherService.ts:86-120 | a failed enrolment query throws; no enrolments gives [] without a profile query; a failed profile query throws; otherwise one student per profile with its enrolment date |
| TeacherService.EnrollmentDateFirstMatch | src/services/teacherService.ts:111-117 | a student's enrolment date comes from their first enrolment row |
| TeacherService.GetCourseModules | src/services/teacherService.ts:123-135 | an error throws the prefixed message; otherwise the course's modules, each row as often as in the table, sorted by `orden` |
| TeacherService.GetModuleContent | src/services/teacherService.ts:193-205 | an error throws the prefixed message; otherwise the module's content, each row as often as in the table, sorted by `orden` |
| TeacherService.MaxOrden | src/services/teacherService.ts:144-152 | no maximum exactly when no row belongs to the parent; otherwise an upper bound reached by one of its rows |
| TeacherService.NextOrden | src/services/teacherService.ts:152 | one more than the last `orden` found, and 1 when none was found |
| TeacherService.CreateCourseModule | src/services/teacherService.ts:138-169 | the new visible module has the given course, title, description and id; its `orden` is one more than the lookup's answer, and 1 when the lookup returned no row, which includes a failed lookup; an insert error throws the prefixed message |
| TeacherService.CreatedModuleComesLast | src/services/teacherService.ts:144-164 | when the lookup answers from the module table, the new module's `orden` exceeds every module of its course, and is 1 in a course without modules |
| TeacherService.CreateKeepsOrdenDistinct | src/services/teacherService.ts:144-164 | when the lookup answers from the module table, modules with distinct `orden`s in each course keep them distinct after a creation |
| TeacherService.UnansweredLookupRepeatsOrden | src/services/teacherService.ts:144-152 | a lookup that returns no row although the course has a module at 1 (a failed lookup, or a second create that read the same maximum) gives the new module that same `orden` |
| TeacherService.CreateFileContent | src/services/teacherService.ts:231-270 | the new visible row stores the module, kind, title, description, URL, file name and size; its `orden` is one more than the lookup's answer, or 1; an insert error throws the prefixed message |
| TeacherService.CreateLinkOrTextContent | src/services/teacherService.ts:273-307 | the new visible row stores the module, kind, title and description, the URL exactly when it is truthy, and no file fields; its `orden` is one more than the lookup's answer, or 1; an insert error throws the prefixed message |
| TeacherService.CreatedContentComesLast | src/services/teacherService.ts:240-249 | when the lookup answers from the content table, a created file, link or text item comes after every item of its module, and is the first in an empty module |
| TeacherService.Patched | src/services/teacherService.ts:172-182 | an update changes exactly the fields it names and keeps id, course and `orden` |
| TeacherService.UpdateCourseModule | src/services/teacherService.ts:172-182 | an error throws the prefixed message and changes nothing; otherwise the named module is patched and the others are kept |
| TeacherService.DeleteCourseModule | src/services/teacherService.ts:185-192 | an error throws the prefixed message and changes nothing; otherwise exactly the named module is removed |
| TeacherService.DeleteModuleContent | src/services/teacherService.ts:310-317 | an error throws the prefixed message and changes nothing; otherwise exactly the named content row is removed |
| TeacherService.ToggleContentVisibility | src/services/teacherService.ts:320-329 | an error throws the prefixed message and changes nothing; otherwise only the named row's visibility changes, to the given value |
| TeacherService.FileExt | src/services/teacherService.ts:213 | the extension is the text after the last dot, or the whole name when there is no dot |
| TeacherService.UploadFile | src/services/teacherService.ts:208-228 | the upload throws the prefixed message exactly when storage refused it |
| TeacherService.UploadPathSegments | src/services/teacherService.ts:213-215 | the storage path is course id / module id / stamp_suffix.extension |
| TeacherCoursesPage.ActiveCount | src/components/Teacher/TeacherCoursesPage.tsx:83 | the active count is at most the total, and equals it exactly when every course is active |
| TeacherCoursesPage.ActiveCountOne | src/components/Teacher/TeacherCoursesPage.tsx:83 | one course counts 1 exactly when it is active, else 0 |
| TeacherCoursesPage.ActiveCountAppend | src/components/Teacher/TeacherCoursesPage.tsx:83 | the count is additive over concatenation, so with `ActiveCountOne` it is the number of active courses |
| TeacherCoursesPage.RowCount | src/components/Teacher/TeacherCoursesPage.tsx:152 | a course's student count, 0 when none was reported |
| TeacherCoursesPage.StudentTotalZeroIff | src/components/Teacher/TeacherCoursesPage.tsx:99 | the student total is 0 exactly when every course has no students |
| TeacherCoursesPage.StudentTotalAppend | src/components/Teacher/TeacherCoursesPage.tsx:99 | the total over two lists is the sum of their totals |
| TeacherCoursesPage.RowCountAtMostTotal | src/components/Teacher/TeacherCoursesPage.tsx:99 | no course has more students than the total |
| TeacherCoursesPage.Preview | src/components/Teacher/TeacherCoursesPage.tsx:146-147 | a description of at most 50 characters is shown whole; a longer one shows its first 50 characters and "..." |
| TeacherCoursesPage.EmptyMessage | src/components/Teacher/TeacherCoursesPage.tsx:112-115 | the empty message shows exactly when there are no courses |
| TeacherCoursesPage.StudentsPath | src/components/Teacher/TeacherCoursesPage.tsx:40-44 | the path splits into /teacher/courses/<id>/students |
| TeacherCoursesPage.ModulesPath | src/components/Teacher/TeacherCoursesPage.tsx:46-50 | the path splits into /teacher/courses/<id>/modules |
| TeacherCoursesPage.PathsDiffer | src/components/Teacher/TeacherCoursesPage.tsx:40-50 | the two buttons of a course lead to different paths |
| TeacherCoursesPage.CoursesScreen.constructor | src/components/Teacher/TeacherCoursesPage.tsx:16-18 | the screen starts loading with no courses |
| TeacherCoursesPage.CoursesScreen.LoadCourses | src/components/Teacher/TeacherCoursesPage.tsx:24-38 | the fetched courses replace the list, or an error toast keeps it; loading ends |
| CourseStudentsView.NoCareerMatchesByNameOrEmail | src/components/Teacher/CourseStudentsView.tsx:47-53 | a student without a career matches only by name or e-mail |
| CourseStudentsView.FilteredStudents | src/components/Teacher/CourseStudentsView.tsx:47-53 | exactly the matching students, in order; an empty term keeps all |
| CourseStudentsView.CountLabel | src/components/Teacher/CourseStudentsView.tsx:97-98 | singular for one student, plural otherwise |
| CourseStudentsView.EmptyText | src/components/Teacher/CourseStudentsView.tsx:173-177 | a text shows exactly when nothing is listed: the no-students text for an empty course, the no-match text (with a non-empty term) otherwise |
| CourseStudentsView.StudentsScreen.constructor | src/components/Teacher/CourseStudentsView.tsx:19-22 | the screen starts loading with no students and an empty search |
| CourseStudentsView.StudentsScreen.LoadStudents | src/components/Teacher/CourseStudentsView.tsx:30-45 | no course id does nothing; otherwise the fetched students replace the list or an error toast keeps it; loading ends |
| AdminCourses.FilterByTitle | src/pages/Admin/Admin.tsx:86-88 | exactly the courses whose title contains the term ignoring case, in order; an empty term keeps all |
| AdminCourses.FilteredCourses | src/pages/Admin/Admin.tsx:62-88 | an empty term lists the three fixed courses, and no term lists more |
| ListCourses.CursosFiltrados | src/components/Admin/Cursos/ListaCursos.tsx:93-98 | exactly the courses whose name, description or category contains the search ignoring case, in order; an empty search keeps all |
| ListCourses.CountLabel | src/components/Admin/Cursos/ListaCursos.tsx:143-144 | singular for one course, plural otherwise |
| ListCourses.EmptyMessage | src/components/Admin/Cursos/ListaCursos.tsx:213-218 | the no-results text when a search was typed, the create-first text otherwise |
| ListCourses.CoursesList.constructor | src/components/Admin/Cursos/ListaCursos.tsx:23-39 | the list starts loading, empty, with the delete dialog closed |
| ListCourses.CoursesList.FetchCursos | src/components/Admin/Cursos/ListaCursos.tsx:45-59 | the reply's rows replace the list, or an error toast keeps it; loading ends |
| ListCourses.CoursesList.HandleEliminar | src/components/Admin/Cursos/ListaCursos.tsx:61-86 | without a course in the dialog nothing happens; otherwise its id is deleted, the toast reports the outcome, the list is refetched exactly on success, and the dialog closes |
| Interests.Toggle | src/pages/Auth/RegisterForm.tsx:23-29 | toggling removes a present interest and appends an absent one; afterwards it is present exactly when it was absent |
| Interests.ToggleKeepsOthers | src/pages/Auth/RegisterForm.tsx:23-29 | toggling never changes the other interests |
| Interests.ToggleTwice | src/pages/Auth/RegisterForm.tsx:23-29 | toggling twice restores the set of interests |
| Interests.ToggleAbsentTwice | src/pages/Auth/RegisterForm.tsx:23-29 | toggling an absent interest twice restores the exact list |
| Interests.ToggleKeepsNoDuplicates | src/pages/Auth/RegisterForm.tsx:23-29 | toggling keeps a duplicate-free list duplicate-free |
| Interests.AddUnique | src/components/StudentProfile/EditProfile.tsx:74-83 | adding leaves the list alone when the interest is present and appends it otherwise |
| Interests.AddKeepsNoDuplicates | src/components/StudentProfile/EditProfile.tsx:74-83 | adding keeps a duplicate-free list duplicate-free |
| Interests.RemoveAddedRestores | src/components/StudentProfile/EditProfile.tsx:74-94 | removing a freshly added interest restores the list |
| RegisterForm.FailureMessage | src/pages/Auth/RegisterForm.tsx:55 | the failure message is the body's message, else its error, else the fixed text, and never empty |
| RegisterForm.RegisterMessage | src/pages/Auth/RegisterForm.tsx:31-62 | the connection-error text, the success text, or the failure message |
| RegisterForm.Form.constructor | src/pages/Auth/RegisterForm.tsx:16-20 | the form starts empty |
| RegisterForm.Form.ToggleInterest | src/pages/Auth/RegisterForm.tsx:23-29 | the selection is toggled; the interest is selected exactly when it was not |
| RegisterForm.Form.HandleRegister | src/pages/Auth/RegisterForm.tsx:31-62 | posts the form's fields, shows the reply's message, and navigates to /login exactly on success |
| ResetPassword.ErrorTexts | src/pages/Auth/ResetPassword.tsx:40-46 | one text per broken rule, in order |
| ResetPassword.ValidatePassword | src/pages/Auth/ResetPassword.tsx:40-46 | the three checks in turn push exactly the policy's errors, in rule order |
| ResetPassword.PolicyErrorsCases | src/pages/Auth/ResetPassword.tsx:40-46 | the errors are the texts of the broken rules, in rule order |
| ResetPassword.ErrorIffBroken | src/pages/Auth/ResetPassword.tsx:40-46 | each error text appears exactly when its rule is broken |
| ResetPassword.ErrorsDistinct | src/pages/Auth/ResetPassword.tsx:40-46 | at most three errors, none repeated, and none exactly when every rule holds |
| ResetPassword.ErrorsInRuleOrder | src/pages/Auth/ResetPassword.tsx:40-46 | the errors appear in the order length, upper-case, digit |
| ResetPassword.ChecklistAgreesWithErrors | src/pages/Auth/ResetPassword.tsx:159-166 | a checklist item is ticked exactly when its error is absent |
| ResetPassword.SubmitDisabledIff | src/pages/Auth/ResetPassword.tsx:441 | the button is disabled exactly while loading or when a rule is broken |
| ResetPassword.MountRedirect | src/pages/Auth/ResetPassword.tsx:19-38 | the page redirects to /login exactly when there is no session |
| ResetPassword.MismatchFirst | src/pages/Auth/ResetPassword.tsx:53-56 | different confirmation shows the mismatch message and calls nothing |
| ResetPassword.UpdateCalledIff | src/pages/Auth/ResetPassword.tsx:50-81 | the update is called exactly when the two entries agree and the policy has no errors |
| ResetPassword.CallOutcome | src/pages/Auth/ResetPassword.tsx:63-80 | after a call loading ends, `success` holds exactly when the update resolved, an `Error` shows the prefixed backend message and any other rejection the generic text |
| ResetPassword.ResetForm.constructor | src/pages/Auth/ResetPassword.tsx:11-15 | the form starts empty and idle |
| ResetPassword.ResetForm.HandleResetPassword | src/pages/Auth/ResetPassword.tsx:50-81 | the form moves as `AfterSubmit` says, and reports whether the update was called |
| EditProfile.EmailPatternShape | src/components/StudentProfile/EditProfile.tsx:104 | an accepted address has no white space and exactly one `@`, followed later by a `.` |
| EditProfile.EmailPatternRejects | src/components/StudentProfile/EditProfile.tsx:104 | an address without `@` or with white space is rejected |
| EditProfile.SaveWarning | src/components/StudentProfile/EditProfile.tsx:100-107 | no warning exactly when the trimmed name is non-empty and the trimmed address matches; the name is checked first |
| EditProfile.Payload | src/components/StudentProfile/EditProfile.tsx:113-118 | the bio is `null` exactly when it trims to empty, else the trimmed bio; the interests are sent as they are |
| EditProfile.SentPayloadIsClean | src/components/StudentProfile/EditProfile.tsx:100-118 | what is sent has a non-empty trimmed name and an address of the accepted shape |
| Text.TrimIsSlice | src/components/StudentProfile/EditProfile.tsx:100-118 | `trim()` returns a slice of its input, with only white space cut at either end |
| EditProfile.LoadedEmail | src/components/StudentProfile/EditProfile.tsx:59 | the profile's address, else the sign-in address, else "" |
| EditProfile.LoadedIntereses | src/components/StudentProfile/EditProfile.tsx:61 | the profile's interests when they are an array, else [] |
| EditProfile.EditProfileForm.constructor | src/components/StudentProfile/EditProfile.tsx:21-29 | the editor starts loading with empty fields |
| EditProfile.EditProfileForm.CargarPerfil | src/components/StudentProfile/EditProfile.tsx:35-64 | no user or a failed lookup gives its error toast and keeps the fields; a found profile fills them with their fallbacks; loading ends |
| EditProfile.EditProfileForm.HandleAddInteres | src/components/StudentProfile/EditProfile.tsx:74-83 | a blank entry changes nothing; otherwise the trimmed entry is added once and the input cleared; the list stays duplicate-free |
| EditProfile.EditProfileForm.RemoveInteres | src/components/StudentProfile/EditProfile.tsx:92-94 | every copy of the value is removed and nothing else changes |
| EditProfile.SaveOutcome | src/components/StudentProfile/EditProfile.tsx:96-144 | saving sends the cleaned payload exactly when a profile is loaded and no warning applies; the address change is asked only after the update succeeded, and then as `UpdateAuthEmailIfChanged` decides; a reload happens exactly after a successful update; the toast is the warning, the prefixed error or the success text accordingly; the busy flag ends cleared once something was sent and is untouched otherwise |
| EditProfile.EditProfileForm.SendUpdate | src/components/StudentProfile/EditProfile.tsx:109-143 | once the update was sent, the cells and results move as `SendStep` says: a failed update shows the prefixed backend message and stops; a successful one asks for the address change, shows the success text (over the informational one) and reloads; the busy flag ends cleared |
| EditProfile.EditProfileForm.HandleGuardar | src/components/StudentProfile/EditProfile.tsx:96-144 | the toast and busy flag and the three results move exactly as `Save` says, whose properties `SaveOutcome` states |
| StudentEditProfile.FromLoaded | src/pages/Student/EditProfile.tsx:33-37 | the name is the first truthy of fullname and first name, and missing fields default to empty |
| StudentEditProfile.HandleChange | src/pages/Student/EditProfile.tsx:41-46 | only the named field takes the new value |
| StudentEditProfile.ToggleInterest | src/pages/Student/EditProfile.tsx:48-55 | only the interest list changes, by a toggle |
| StudentEditProfile.Body | src/pages/Student/EditProfile.tsx:65-69 | the body carries the whole record: the record can be rebuilt from it |
| StudentEditProfile.SubmitAlert | src/pages/Student/EditProfile.tsx:72-73 | a truthy reply message is shown as is, a reply without one shows "Perfil actualizado correctamente", a rejection shows the error text; never empty |

## Left out

- The informational toast that `handleGuardar` sets when the address change is rejected is replaced by the success toast in the same run; the model states only the final toast.
- Backend I/O: every query, insert, update, storage upload and authentication call is a parameter holding its reply; the query builder, row-level security and the REST endpoint of the older profile page are not modelled.
- Concurrency: awaits are sequential in the model; `Promise.all` over the per-course counts is the same as running the counts in order, and the race between the existence check and the insert of an enrolment is only covered by the backend's 23505 reply. The only interleaving modelled is a call completing during `checkSession`'s profile lookup (see "## Findings"); the other state cells and handlers are modelled call by call.
- TeacherService.CreateKeepsOrdenDistinct: holds only when the max-`orden` lookup answers from the current table; a failed lookup, whose error the code does not read, or two creates that read the same maximum can repeat an `orden`, as `TeacherService.UnansweredLookupRepeatsOrden` shows.
- Timers: the redirects scheduled with `setTimeout` are recorded as the target path (or a flag), not as delayed navigation.
- `Date.now()` and `Math.random()` in the upload path are the `stamp` and `suffix` parameters; the public URL returned after an upload is not modelled.
- TeacherService.UploadFile: its own contract states only the outcome; the shape of the storage path is stated by `TeacherService.UploadPathSegments`.
- `formatFileSize` and every other floating-point display helper are left out.
- The route table and the layouts (`Routes.tsx`, `App.tsx`, `AdminLayout.tsx`, `StudentLayout.tsx`) only wire components to paths and are not part of this model.
- Thin wrappers around a single backend call are left out: `signOut` (src/services/authService.ts:13-15), `resetPassword` (src/services/authService.ts:124-130), `profileService.ts`, the login and forgot-password forms, and the remaining admin and teacher CRUD screens.
- Text handling is ASCII: lower-casing, `trim` and the `\s` class cover ASCII letters and ASCII white space only; the e-mail regular expression is modelled as the language it accepts.
- Sorting by `orden` is an insertion sort; the order of rows with equal `orden`, which the backend leaves unspecified, is not modelled.
- Console logging and all JSX rendering other than the labels and messages modelled above are left out.
- Module ids in storage paths are natural numbers; course ids of the teacher views are strings, as the routes carry them.
- AdminCourses.FilteredCourses: states only the empty-term case and the bound; which titles match is stated by `AdminCourses.FilterByTitle`.

Where the behaviour described for the application differs from the code, the model follows the code:

- Enrolment does not check capacity; only the disabled button does (`StudentCourseView.CapacityIsNotChecked`).
- A role-gated route compares one role by equality, not membership in a set of roles.
- `logout` resets the context only after `signOut` resolved; a rejection leaves it unchanged.
- When `handleMatricular` finds no session, it leaves the confirmation dialog open.

## Findings

| source | as written | input that shows it | evidently intended | confidence | as-written member | corrected member |
|---|---|---|---|---|---|---|
| src/context/AuthContext.tsx:43-54 | `checkSession` sets `isAuthenticated` before awaiting the profile lookup and sets `role` after it, without looking at what happened meanwhile | a session exists; `logout()` completes while the lookup is pending; the lookup then returns `rol` "docente": the context ends signed out with role "docente" | a role is only held while signed in and a completed logout is not undone: once the lookup answers, set the role only if still signed in | medium, not executed | AuthContext.LogoutDuringLookupBreaksInvariant | AuthContext.FixedStepsKeepInvariant |
