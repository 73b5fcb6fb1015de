# School network dashboard — a Dafny model

The system is a dashboard for a network of schools. Users sign in with one of four roles:

- `admin`
- `coordenador_geral` (the network coordinator)
- `coordenador` (one school's coordinator)
- `professor` (a teacher)

Every page narrows the sample data to what the viewer's role may see:

- a coordinator sees the records of their school;
- a teacher sees the classes listed in their account;
- the two network roles see everything.

A page then filters the result further by search term, class, school, subject or date. On what remains it computes:

- counts;
- attendance rates;
- grade averages;
- approval rates with a fixed cutoff of 7.0;
- per-class, per-subject and per-exam tables.

The sample data is generated from constant tables of schools, classes and teachers. There are ten students per class. Each student has twenty attendance records, four grades and one enrollment.

The model is split into modules:

- **Helpers.** `Wrappers` (`Option`), `Seqs` (filter, count, deduplication, subsequences), `Text` (ASCII lower-casing, substring search, decimal numerals) and `Stats` (`Math.round`, percentages, means, one-decimal rounding, approval).
- **`Auth`.** Roles, the permission table and role labels.
- **`AuthContext`.** A class holding the signed-in user and its persisted copy.
- **`Sidebar`.** The navigation filter.
- **`SampleData`.** Entities, the constant tables and the generators.
- **`Scope`.** Role scoping that several pages share.
- **`Metrics`.** Attendance, averages, approval and the per-class and per-subject tables.
- **`Exams`.** The per-exam tables.
- **One module per page or dashboard.** `Reports`, `GradesPage`, `AttendancePage`, `StudentsPage`, `EnrollmentsPage`, `ClassesPage`, `TeachersPage`, `SchoolsPage`, `CoordinatorDashboard`, `TeacherDashboard`, `GeneralDashboard` and `PerformancePage`.

How the model represents the source:

- **The viewer.** The viewer is an `Option<User>`, because the pages read `user?.role`, and a missing user passes through the unscoped branches.
- **Averages.** Averages are exact `real` values. `Math.round(x)` is `Floor(x + 0.5)`. `toFixed(1)` followed by `parseFloat` is `OneDecimal`, which rounds half-up to one decimal. A `"0.0"` shown for empty input is `0.0`.
- **Randomness and dates.** `Math.random()` and `new Date()` become function parameters. The model constrains them only to the ranges the code relies on.

## Model

| member | source | states |
|---|---|---|
| Auth.HasPermission | lib/auth.ts:88-90 | the answer is exactly the table entry `PERMISSIONS[role][permission]` |
| Auth.PermissionTableTotal | lib/auth.ts:45-86 | the table has an entry for every role and every permission |
| Auth.AdminHoldsAll | lib/auth.ts:46-55 | `admin` holds every permission |
| Auth.ProfessorHoldsNone | lib/auth.ts:76-85 | `professor` holds no permission |
| Auth.OnlyAdminManagesSchoolsAndUsers | lib/auth.ts:45-86 | `canManageSchools` and `canManageUsers` hold exactly for `admin` |
| Auth.DeniedOnlyToProfessor | lib/auth.ts:56-85 | `canViewReports`, `canManageClasses` and `canManageStudents` are denied exactly to `professor` |
| Auth.ViewAllOnlyForNetworkRoles | lib/auth.ts:45-86 | the three view-all permissions hold exactly for `admin` and `coordenador_geral` |
| Auth.RoleKeysDistinct | lib/auth.ts:3 | the four role strings are pairwise distinct |
| Auth.RoleLabel | lib/auth.ts:92-100 | every role has a non-empty label |
| Auth.RoleLabelsDistinct | lib/auth.ts:92-100 | distinct roles get distinct labels |
| Auth.SampleUsersDistinct | lib/auth.ts:15-42 | the sample accounts have pairwise distinct emails and ids |
| Auth.SampleUsersWellFormed | lib/auth.ts:15-42 | the sample coordinator has a school; the sample teacher has a non-empty class list |
| AuthContext.FindByEmail | lib/auth-context.tsx:30 | the first account with the email (no earlier account has it), or none exactly when no account has it |
| AuthContext.FindByEmailFindsOwner | lib/auth-context.tsx:30 | with distinct emails, looking up an account's email finds that account |
| AuthContext.SampleUsersCanSignIn | lib/auth-context.tsx:28-35 | every sample account can sign in with its own email |
| AuthContext.AuthProvider.constructor | lib/auth-context.tsx:16 | a fresh provider has no user and keeps whatever was persisted |
| AuthContext.AuthProvider.Restore | lib/auth-context.tsx:19-26 | a persisted user becomes the signed-in user; with none persisted, nothing changes |
| AuthContext.AuthProvider.Login | lib/auth-context.tsx:28-39 | succeeds iff some sample account has the email; on success the user is that account and the persisted copy equals it; on failure neither changes |
| AuthContext.AuthProvider.Logout | lib/auth-context.tsx:41-44 | the user and the persisted copy are both cleared |
| AuthContext.LoginSurvivesRemount | lib/auth-context.tsx:19-39 | after a successful login, a new provider restored from the persisted copy is signed in with that email; after a failed one it is signed out |
| AuthContext.LogoutIdempotent | lib/auth-context.tsx:41-44 | logging out twice leaves the same state as once |
| AuthContext.PasswordIgnored | lib/auth-context.tsx:28-39 | the password never changes login's result |
| Sidebar.VisibleItems | components/dashboard-sidebar.tsx:90-110 | the visible items are exactly the nav items the role's rule `Visible` admits, in nav order |
| Sidebar.SidebarItems | components/dashboard-sidebar.tsx:87 | no user, no sidebar; otherwise the user's role filter |
| Sidebar.DashboardAlwaysFirst | components/dashboard-sidebar.tsx:92 | the Dashboard item is visible, first, for every role |
| Sidebar.NetworkRolesSeeAll | components/dashboard-sidebar.tsx:96-98 | `admin` and `coordenador_geral` see all nine items |
| Sidebar.CoordinatorSees | components/dashboard-sidebar.tsx:99-101 | a coordinator sees everything, except Escolas when the school id is absent or empty |
| Sidebar.TeacherSees | components/dashboard-sidebar.tsx:102-106 | a teacher sees exactly Dashboard, Turmas, Alunos, Frequência and Notas |
| Sidebar.UnknownRoleSeesHomeOnly | components/dashboard-sidebar.tsx:107-108 | an unrecognised role sees only Dashboard |
| SampleData.ClassIds | lib/sample-data.ts:12-20 | the ids of the classes, in order; an id is listed iff some class has it |
| SampleData.GenerateStudents | lib/sample-data.ts:208-218 | ten students per class, in class order |
| SampleData.StudentAt | lib/sample-data.ts:209-214 | the student `MakeStudent` builds at class index j, position i has id `student-(10j+i+1)` and that class's id |
| SampleData.StudentIdAt | lib/sample-data.ts:209-214 | the k-th student's id is `student-(k+1)` and their class is class number k/10 |
| SampleData.StudentIdsDistinct | lib/sample-data.ts:210 | generated student ids are pairwise distinct |
| SampleData.StudentsActive | lib/sample-data.ts:215-216 | every generated student is active and enrolled on 2024-02-01 |
| SampleData.StudentsInKnownClasses | lib/sample-data.ts:214 | every generated student's class is one of the classes |
| SampleData.StudentsPerClassCount | lib/sample-data.ts:208-218 | the students with a given class id number ten per class carrying that id |
| SampleData.TenStudentsPerClass | lib/sample-data.ts:208-218 | with distinct class ids, each class has exactly ten students |
| SampleData.GenerateAttendance | lib/sample-data.ts:221-233 | twenty records per student |
| SampleData.AttendanceAt | lib/sample-data.ts:222-231 | record i of student k (built by `AttendanceMaker`) belongs to that student, carries their class, is dated on day i and is present iff the draw exceeds 0.1 |
| SampleData.AttendanceCarriesClass | lib/sample-data.ts:226-227 | every record carries its student's id and class id |
| SampleData.GradeValue | lib/sample-data.ts:242 | a draw in [0,1) gives an integer grade in [6,9] |
| SampleData.GenerateGrades | lib/sample-data.ts:236-246 | four grades per student |
| SampleData.GradeAt | lib/sample-data.ts:237-244 | grade i of student k (built by `GradeMaker`) is for the i-th of Matemática, Português, Ciências, História, with the student's ids, the drawn value, maximum 10 and period "1º Bimestre" |
| SampleData.GradeValuesInRange | lib/sample-data.ts:242-243 | with draws in [0,1), every grade value is in [6,9] and its maximum is 10 |
| SampleData.GradesCarryClass | lib/sample-data.ts:239-240 | every grade carries its student's id and class id |
| SampleData.GenerateEnrollments | lib/sample-data.ts:249-255 | one enrollment per student (`MakeEnrollment`), in order, with the student's ids and date, active |
| SampleData.EnrollmentsOneToOne | lib/sample-data.ts:249-255 | with distinct student ids, enrollments name distinct students |
| SampleData.StaticIdsDistinct | lib/sample-data.ts:78-205 | school, class and teacher ids are pairwise distinct |
| SampleData.ClassReferencesResolve | lib/sample-data.ts:98-205 | every class names an existing school and an existing teacher of that school |
| SampleData.TeacherReferencesResolve | lib/sample-data.ts:156-205 | every teacher names an existing school |
| SampleData.TransfersStayInSchool | lib/sample-data.ts:258-277 | every sample transfer moves a student between two existing classes of the same school |
| Scope.WithOptionalKey | app/dashboard/reports/page.tsx:24 | keeps, in order, the records whose key equals the id; an absent id keeps nothing |
| Scope.CoordinatorScoped | app/dashboard/enrollments/page.tsx:24-30 | a coordinator keeps the records of their school; every other viewer keeps all |
| Scope.ClassesListed | app/dashboard/grades/page.tsx:22-23 | the classes whose id the account lists, in order; none without a list |
| Scope.AvailableClasses | app/dashboard/grades/page.tsx:19-24 | a coordinator's school's classes, a teacher's listed classes, or all classes |
| Scope.InClasses | app/dashboard/reports/page.tsx:32 | exactly the records whose class is one of the given classes, in order |
| Scope.InNoClasses | app/dashboard/reports/page.tsx:32 | with no classes, nothing is kept |
| Scope.ClassStudents | app/dashboard/grades/page.tsx:27 | no class selected gives no students, otherwise exactly the students of the class |
| Scope.InClassesOfAvailable | app/dashboard/students/page.tsx:24-30 | every student in scope belongs to a class of the coordinator's school, or to one the teacher lists |
| Scope.UnassignedSeesNoClass | app/dashboard/grades/page.tsx:19-24 | a coordinator without a school, or a teacher without a class list, sees no class |
| Scope.SampleTeacherClasses | app/dashboard/grades/page.tsx:22-23 | the sample teacher sees exactly turma-1 and turma-2 |
| Scope.SampleCoordinatorClasses | app/dashboard/grades/page.tsx:20-21 | the sample coordinator sees exactly the classes of escola-1 |
| Stats.Round | app/dashboard/reports/page.tsx:42 | `Math.round`: the integer within half a unit, halves rounding up |
| Stats.RoundMonotone | app/dashboard/reports/page.tsx:42 | rounding preserves order |
| Stats.Percent | app/dashboard/reports/page.tsx:40-43 | 0 without a whole or without a part, within [0,100] for a part of the whole, 100 for the whole |
| Stats.PercentGrowsWithHit | app/dashboard/reports/page.tsx:58-61 | adding a hit never lowers the percentage |
| Stats.PercentShrinksWithMiss | app/dashboard/reports/page.tsx:58-61 | adding a miss never raises the percentage |
| Stats.OneDecimal | app/dashboard/reports/page.tsx:49 | `toFixed(1)`: a whole number of tenths within 0.05 of the exact value (ties upwards) |
| Stats.OneDecimalKeepsPass | app/dashboard/grades/page.tsx:165-167 | a passing average still passes after rounding |
| Stats.OneDecimalWithin | app/dashboard/reports/page.tsx:49 | rounding keeps a value within integer bounds |
| Stats.OneDecimalPassMeansNearPass | app/dashboard/grades/page.tsx:165-167 | a rounded average of 7.0 or more comes from an exact average of at least 6.95 |
| Stats.ApprovalRateOf | app/dashboard/reports/page.tsx:58-61 | 0 when empty, otherwise the rounded percentage of averages at or above 7; hence in [0,100], 0 when nobody passes and 100 when everybody does |
| Stats.ApprovalRateMonotone | app/dashboard/reports/page.tsx:58-61 | appending a passing average never lowers the rate; appending a failing one never raises it |
| Stats.MeanAtLeast | app/dashboard/reports/page.tsx:46-50 | a mean is at least any lower bound of its values |
| Stats.MeanAtMost | app/dashboard/reports/page.tsx:46-50 | a mean is at most any upper bound of its values |
| Metrics.PresentCount | app/dashboard/reports/page.tsx:42 | the present records, at most all of them |
| Metrics.AbsentCount | app/dashboard/attendance/page.tsx:34 | the absent records, at most all of them |
| Metrics.PresentAbsentPartition | app/dashboard/attendance/page.tsx:33-34 | present and absent counts add up to the number of records |
| Metrics.AttendanceRate | app/dashboard/reports/page.tsx:39-43 | 0 without records, otherwise the rounded percentage of present records; in [0,100]; 100 or 0 when all are present or all absent |
| Metrics.Values | app/dashboard/reports/page.tsx:49 | the grade values, in order |
| Metrics.GradeAverage | app/dashboard/reports/page.tsx:46-50 | the exact mean (`Stats.Mean` of the values, summed by `Stats.SumInt`), 0.0 on empty input |
| Metrics.DisplayAverage | app/dashboard/reports/page.tsx:46-50 | "0.0" on empty input, otherwise a whole number of tenths within 0.05 of the exact mean |
| Metrics.AverageBounds | app/dashboard/reports/page.tsx:46-50 | the average, exact or displayed, lies between bounds on the grades |
| Metrics.GradesOfStudent | app/dashboard/reports/page.tsx:54 | exactly the student's grades, in order |
| Metrics.StudentAverage | app/dashboard/reports/page.tsx:53-57 | a student with no grades averages 0 |
| Metrics.NoGradesFails | app/dashboard/reports/page.tsx:55 | a student with no grades fails |
| Metrics.StudentAverages | app/dashboard/reports/page.tsx:53-57 | one average per student, in order |
| Metrics.ApprovalRate | app/dashboard/reports/page.tsx:58-61 | 0 without students, otherwise the rounded percentage of students whose exact average is at least 7; in [0,100] |
| Metrics.ApprovalRateAllFailing | app/dashboard/reports/page.tsx:53-61 | when every grade is below 7, the rate is 0 |
| Metrics.ApprovalRateAllPassing | app/dashboard/reports/page.tsx:53-61 | when every student has grades and all grades are at least 7, the rate is 100 |
| Metrics.ApprovalRateMonotoneInStudents | app/dashboard/reports/page.tsx:58-61 | adding a passing student never lowers the rate; adding a failing one never raises it |
| Metrics.ClassRowOf | app/dashboard/reports/page.tsx:64-85 | a class's row: its id and name, its number of students, the displayed average of its grades and the attendance rate of its records (in [0,100], zeros without grades or records) |
| Metrics.ClassRows | app/dashboard/reports/page.tsx:64-85 | one row per class, in class order |
| Metrics.SubjectsOf | app/dashboard/reports/page.tsx:88 | the subjects of the grades, without duplicates |
| Metrics.SubjectsInOrderOfFirstAppearance | app/dashboard/reports/page.tsx:88 | `new Set` keeps insertion order: each listed subject has a grade before every grade of a later-listed subject |
| Metrics.SubjectRows | app/dashboard/reports/page.tsx:88-96 | one row per distinct subject; each averages that subject's grades, which are never empty |
| Reports.EffectiveSchool | app/dashboard/reports/page.tsx:22-26 | a coordinator's school filter is their school id, or "all" when it is absent or empty; otherwise the selection |
| Reports.FilteredClasses | app/dashboard/reports/page.tsx:29-30 | the scoped classes, narrowed to the school in effect unless it is "all" |
| Reports.BuildReport | app/dashboard/reports/page.tsx:32-96 | totals over the classes in scope; the attendance rate, displayed average and approval rate of the records, grades and students of those classes; the per-class rows of those classes and the per-subject rows of their grades; with no class in scope every figure is zero and no subject is listed |
| Reports.CoordinatorReportConfined | app/dashboard/reports/page.tsx:22-26 | a coordinator's report covers only their school, and nothing without one |
| Reports.CoordinatorSelectionIgnored | app/dashboard/reports/page.tsx:25 | a coordinator's own school selection never changes the report |
| Reports.AllSchoolsMeansAllClasses | app/dashboard/reports/page.tsx:29-30 | for other roles, "all" keeps every class |
| Reports.RowStudentsAreGroupSizes | app/dashboard/reports/page.tsx:64-85 | the rows' student counts add up to the sum of the class group sizes |
| Reports.ClassRowsAddUpToTotal | app/dashboard/reports/page.tsx:35-85 | with distinct class ids, the per-class counts add up to the total students |
| Reports.SampleRowsShowTen | app/dashboard/reports/page.tsx:64-85 | on the sample data every class row shows ten students |
| GradesPage.ClassGrades | app/dashboard/grades/page.tsx:30 | exactly the grades of the selected class, in order |
| GradesPage.FilteredGrades | app/dashboard/grades/page.tsx:36-37 | "all" keeps the class grades; otherwise exactly those of the subject |
| GradesPage.BuildSummary | app/dashboard/grades/page.tsx:40-53 | `above` counts the class's students whose exact mean over the filtered grades is at least 7 and `below` those under 7, together all the class's students (both 0 without a class); the average is "0.0" on empty input, else the rounded mean |
| GradesPage.UngradedCountBelow | app/dashboard/grades/page.tsx:46-53 | with no grades, nobody is above and the average is 0.0 |
| GradesPage.StudentRow | app/dashboard/grades/page.tsx:162-167 | the row's average is the displayed mean of the student's grades in the class ("0.0" without grades) and "Aprovado" shows iff it is at least 7 |
| GradesPage.Rows | app/dashboard/grades/page.tsx:160-167 | one row per student of the class, in order |
| GradesPage.BadgeAgreesWithExactMean | app/dashboard/grades/page.tsx:162-167 | an exact mean of 7 or more shows "Aprovado"; "Aprovado" implies an exact mean of at least 6.95 |
| GradesPage.Cell | app/dashboard/grades/page.tsx:173 | the student's first grade in the subject (no earlier grade has it), or none exactly when they have none |
| GradesPage.CanManageGradesExactly | app/dashboard/grades/page.tsx:55 | `CanManageGrades` (teacher, coordinator or admin) holds exactly for signed-in viewers other than `coordenador_geral` |
| AttendancePage.DayRecords | app/dashboard/attendance/page.tsx:30 | exactly the records of the class on the date, in order |
| AttendancePage.BuildSummary | app/dashboard/attendance/page.tsx:27-35 | present and absent count the day's present and absent records (together all of them); the rate is the rounded percentage of present records over the class's students, 0 without students, 100 when all are present |
| AttendancePage.NoClassNoRate | app/dashboard/attendance/page.tsx:27-35 | with no class selected there are no students and the rate is 0 |
| AttendancePage.IsPresentOn | app/dashboard/attendance/page.tsx:136-137 | shown present exactly when the student's first record of the day is present; with no record, shown absent |
| AttendancePage.CanManageAttendanceExactly | app/dashboard/attendance/page.tsx:37 | `CanManageAttendance` holds exactly for signed-in viewers other than `coordenador_geral` |
| AttendancePage.AtMostOneRecordPerStudent | lib/sample-data.ts:221-233 | with distinct day dates, the generated records of a class on one date are no more than the class's students |
| AttendancePage.SampleRateAtMostHundred | app/dashboard/attendance/page.tsx:35 | on generated attendance with distinct dates, the rate is within [0,100] |
| StudentsPage.AvailableStudents | app/dashboard/students/page.tsx:21-30 | coordinators and teachers see exactly the students of their available classes; others see all |
| StudentsPage.SchoolOfStudent | app/dashboard/students/page.tsx:38-39 | the school of the first class with the student's class id, or none exactly when the class is unknown |
| StudentsPage.FilteredStudents | app/dashboard/students/page.tsx:33-43 | an order-preserving subsequence; `Shown` keeps a student iff the name matches and the class and school filters are "all" or match |
| StudentsPage.NoFilterShowsAll | app/dashboard/students/page.tsx:33-43 | an empty term and "all" filters keep every available student |
| StudentsPage.SchoolFilterSound | app/dashboard/students/page.tsx:37-40 | a kept student under a school filter belongs to a class of that school |
| StudentsPage.List | app/dashboard/students/page.tsx:119-160 | the first twenty rows; the "Mostrando 20 de N" note iff rows were cut |
| StudentsPage.CanManageStudentsMatchesTable | app/dashboard/students/page.tsx:45 | `CanManageStudents` holds exactly where the `canManageStudents` entry does |
| EnrollmentsPage.SchoolClasses | app/dashboard/enrollments/page.tsx:25 | the classes of the coordinator's school |
| EnrollmentsPage.AvailableEnrollments | app/dashboard/enrollments/page.tsx:24-26 | others see all; a coordinator sees exactly the enrollments in a class of their school, in order |
| EnrollmentsPage.AvailableTransfers | app/dashboard/enrollments/page.tsx:27-29 | others see all; a coordinator sees exactly the transfers that `Touches` a class of their school (from or to), in order |
| EnrollmentsPage.ListedEnrollments | app/dashboard/enrollments/page.tsx:78 | the first fifteen enrollments |
| EnrollmentsPage.EnrollmentLabel | app/dashboard/enrollments/page.tsx:93-97 | every enrollment status has a non-empty label |
| EnrollmentsPage.TransferLabel | app/dashboard/enrollments/page.tsx:152-156 | every transfer status has a non-empty label |
| EnrollmentsPage.LabelsDistinct | app/dashboard/enrollments/page.tsx:93-156 | distinct statuses get distinct labels |
| EnrollmentsPage.CanManageExactly | app/dashboard/enrollments/page.tsx:32 | `CanManage` holds exactly for signed-in viewers other than `professor` |
| EnrollmentsPage.UnassignedCoordinatorSeesNothing | app/dashboard/enrollments/page.tsx:24-30 | a coordinator without a school sees no enrollment and no transfer |
| EnrollmentsPage.SampleCoordinatorSeesBothTransfers | lib/sample-data.ts:258-277 | the sample coordinator sees both sample transfers |
| ClassesPage.FilteredClasses | app/dashboard/classes/page.tsx:27-31 | an order-preserving subsequence; `ClassShown` keeps a class iff the name matches and the school is "all" or matches |
| ClassesPage.NoFilterShowsAll | app/dashboard/classes/page.tsx:27-31 | an empty term and "all" keep every available class |
| ClassesPage.StudentCount | app/dashboard/classes/page.tsx:81 | the number of positions of the student list holding the class's id; 0 iff none has it |
| ClassesPage.SampleCardsShowTen | app/dashboard/classes/page.tsx:81 | every sample class card shows ten students |
| ClassesPage.SchoolSelectorMatchesTable | app/dashboard/classes/page.tsx:60 | `SchoolSelectorShown` holds exactly where `canViewAllSchools` does |
| ClassesPage.CanManageClassesMatchesTable | app/dashboard/classes/page.tsx:33 | `CanManageClasses` holds exactly where `canManageClasses` does |
| TeachersPage.AvailableTeachers | app/dashboard/teachers/page.tsx:19-22 | a coordinator sees exactly their school's teachers; everyone else, teachers included, sees all |
| TeachersPage.FilteredTeachers | app/dashboard/teachers/page.tsx:25-29 | an order-preserving subsequence; `TeacherShown` keeps a teacher iff the name matches and the school is "all" or matches |
| TeachersPage.NoFilterShowsAll | app/dashboard/teachers/page.tsx:25-29 | an empty term and "all" keep every available teacher |
| TeachersPage.ClassCount | app/dashboard/teachers/page.tsx:78 | the number of positions of the class list whose teacher is the teacher; 0 iff none |
| TeachersPage.SampleTeachersTeachOne | app/dashboard/teachers/page.tsx:78 | every sample teacher teaches exactly one sample class |
| SampleData.TeacherOfClassAt | lib/sample-data.ts:98-205 | the k-th class is taught by the k-th teacher |
| SampleData.ClassTeachersDistinct | lib/sample-data.ts:98-153 | no two sample classes share a teacher |
| TeachersPage.CanManageTeachersExactly | app/dashboard/teachers/page.tsx:31 | `CanManageTeachers` holds exactly for signed-in viewers other than `professor` |
| SchoolsPage.VisibleSchools | app/dashboard/schools/page.tsx:16 | a coordinator sees only their school; every other role sees all |
| SchoolsPage.FilteredSchools | app/dashboard/schools/page.tsx:18 | an order-preserving subsequence of the visible schools whose name matches |
| SchoolsPage.CoordinatorSeesOneSchool | app/dashboard/schools/page.tsx:16 | with distinct ids a coordinator sees at most one school, and none without a school id |
| SchoolsPage.SampleCoordinatorSchool | app/dashboard/schools/page.tsx:16 | the sample coordinator sees exactly escola-1 |
| SchoolsPage.CanCreateSchoolMatchesTable | app/dashboard/schools/page.tsx:27 | `CanCreateSchool` ("Nova Escola") holds exactly where `canManageSchools` does, i.e. for `admin` |
| Text.Lower | app/dashboard/students/page.tsx:34 | lower-cases each character, keeping the length |
| Text.EmptyTermMatchesAll | app/dashboard/students/page.tsx:34 | the empty search term matches every name |
| Text.LowerIdempotent | app/dashboard/students/page.tsx:34 | lower-casing twice is lower-casing once |
| Text.MatchesIgnoresCase | app/dashboard/students/page.tsx:34 | matching is insensitive to case on either side |
| Text.ContainsWitness | app/dashboard/students/page.tsx:34 | a match occurs at some position of the name |
| Text.OccursContains | app/dashboard/students/page.tsx:34 | an occurrence of the term at any position makes the name match |
| Text.ContainsIffOccurs | app/dashboard/students/page.tsx:34 | `Contains` is exactly `includes`: it holds iff the needle occurs at some position |
| Text.MatchesIffOccurs | app/dashboard/students/page.tsx:34 | `Matches` holds iff the lower-cased term occurs somewhere in the lower-cased name |
| Text.NatToString | lib/sample-data.ts:210 | a decimal numeral: non-empty, all digits, a single digit iff below 10 |
| Text.NatToStringInjective | lib/sample-data.ts:210 | distinct numbers give distinct numerals |
| Text.PrefixedNumeralInjective | lib/sample-data.ts:210 | ids `student-n` are distinct for distinct n |
| Exams.MeanOverBounds | components/dashboards/coordinator-dashboard.tsx:43-59 | a mean of scores lies between the scores' bounds |
| Exams.SumOverBounds | components/dashboards/coordinator-dashboard.tsx:43-59 | the reduce-sum of n scores lies between n times their bounds |
| Exams.MeanOverSingle | app/dashboard/performance/page.tsx:53-73 | the mean of one result is its score |
| Exams.AggregateRow | components/dashboards/coordinator-dashboard.tsx:29-66 | zeros without results; otherwise each figure is a whole number of tenths within 0.05 of `MeanOver` (the `SumOver` reduce over the count) of the per-result averages |
| Exams.ResultRow | app/dashboard/performance/page.tsx:53-73 | zeros without a result; otherwise each figure is a whole number of tenths within 0.05 of the result's averages |
| Exams.AggregateOfOneIsResultRow | app/dashboard/performance/page.tsx:53-106 | the class view over a single result equals the student view of it |
| Exams.AggregateRowWithin | components/dashboards/coordinator-dashboard.tsx:43-66 | when scores lie in [lo,hi] with lo ≤ 0 ≤ hi, so does every figure |
| Exams.ExamResults | components/dashboards/coordinator-dashboard.tsx:30-32 | exactly the exam's results that are in scope, in order |
| Exams.ExamTable | components/dashboards/coordinator-dashboard.tsx:29-67 | one row per exam, in exam order, each aggregating that exam's results in scope |
| Exams.ExamTableWithin | components/dashboards/coordinator-dashboard.tsx:29-67 | bounded scores give bounded rows |
| Exams.ExamResultsIgnoreOutOfScope | components/dashboards/coordinator-dashboard.tsx:30-32 | pre-filtering by the scope changes nothing |
| Exams.ExamTableIgnoresOutOfScope | components/dashboards/coordinator-dashboard.tsx:29-67 | the table depends only on results in scope |
| Exams.StudentResult | app/dashboard/performance/page.tsx:55-57 | the student's first result for the exam (no earlier result matches), or none exactly when there is none |
| Exams.StudentTable | app/dashboard/performance/page.tsx:53-73 | one row per exam, from the student's result |
| Exams.StudentWithoutResultsGetsZeros | app/dashboard/performance/page.tsx:58-65 | a student without results gets zeros everywhere |
| Stats.OneDecimalIdempotent | components/dashboards/coordinator-dashboard.tsx:61-66 | rounding an already rounded figure changes nothing |
| Exams.LatestGeneral | components/dashboards/coordinator-dashboard.tsx:77-78 | 0.0 without exams, else within 0.05 of the last entry's general average |
| Exams.LatestGeneralIsLastEntry | components/dashboards/coordinator-dashboard.tsx:77-78 | the headline equals the last entry's general average exactly |
| CoordinatorDashboard.SchoolOf | components/dashboards/coordinator-dashboard.tsx:24 | the first school with the viewer's id, or none exactly when none matches |
| CoordinatorDashboard.SchoolClasses | components/dashboards/coordinator-dashboard.tsx:25 | exactly the classes of the viewer's school |
| CoordinatorDashboard.SchoolExamTable | components/dashboards/coordinator-dashboard.tsx:29-67 | one row per exam, named after it, each the aggregate of that exam's results from the school's classes |
| CoordinatorDashboard.SchoolExamTableCountsOwnResults | components/dashboards/coordinator-dashboard.tsx:30-32 | an exam's row uses exactly its results from a class of the viewer's school |
| CoordinatorDashboard.NoSchoolZeroTable | components/dashboards/coordinator-dashboard.tsx:34-41 | without a school id, every exam row is zero |
| CoordinatorDashboard.SchoolAttendanceRate | components/dashboards/coordinator-dashboard.tsx:69-74 | in [0,100]; the attendance rate over the school's records; 0 without a school |
| CoordinatorDashboard.Dashboard | components/dashboards/coordinator-dashboard.tsx:24-82 | "Escola não encontrada" exactly when no school matches; otherwise the school's class, student and teacher counts, the school's attendance rate, its exam table with the headline from it, and the per-class rows of its classes |
| CoordinatorDashboard.NoSchoolNotFound | components/dashboards/coordinator-dashboard.tsx:80-82 | a viewer without a school id gets "Escola não encontrada" |
| CoordinatorDashboard.ChartAddsUpToTotal | components/dashboards/coordinator-dashboard.tsx:200-223 | with distinct class ids, the chart's student counts add up to the headline total |
| CoordinatorDashboard.HeadlineIsLatestExam | components/dashboards/coordinator-dashboard.tsx:77-78 | the headline is 0.0 without exams, else the last exam row's general average |
| CoordinatorDashboard.SampleBarsShowTen | components/dashboards/coordinator-dashboard.tsx:200-223 | on the sample data every bar shows ten students |
| TeacherDashboard.TeacherClasses | components/dashboards/teacher-dashboard.tsx:14 | exactly the classes the account lists, in class order; none without a list |
| TeacherDashboard.TeacherStudents | components/dashboards/teacher-dashboard.tsx:15 | exactly the students of those classes, in order |
| TeacherDashboard.ClassCards | components/dashboards/teacher-dashboard.tsx:75-86 | one card per teacher class, showing the number of its students |
| TeacherDashboard.CardStudentsAreGroupSizes | components/dashboards/teacher-dashboard.tsx:75-86 | the card counts add up to the sum of the class group sizes |
| TeacherDashboard.CardsAddUpToTotal | components/dashboards/teacher-dashboard.tsx:15-76 | with distinct class ids, the cards add up to the students shown |
| TeacherDashboard.NoClassListSeesNothing | components/dashboards/teacher-dashboard.tsx:14-15 | without a class list there are no classes and no students |
| TeacherDashboard.UniformCards | components/dashboards/teacher-dashboard.tsx:75-86 | cards that all show k add up to k per card |
| TeacherDashboard.SampleTenPerClass | components/dashboards/teacher-dashboard.tsx:15-76 | on the sample data every card shows ten, and the total is ten per class |
| GeneralDashboard.StudentsPerClassFigure | components/dashboards/coordinator-general-dashboard.tsx:42 | the rounded quotient of students by classes; absent without classes |
| GeneralDashboard.EvenClassesShowTheirSize | components/dashboards/coordinator-general-dashboard.tsx:42 | equal class sizes show that size |
| GeneralDashboard.SampleFigureIsTen | components/dashboards/coordinator-general-dashboard.tsx:42 | on the sample data the figure is 10 |
| GeneralDashboard.SchoolCardOf | components/dashboards/coordinator-general-dashboard.tsx:53-56 | a school's card counts its classes and the students of those classes |
| GeneralDashboard.SchoolCards | components/dashboards/coordinator-general-dashboard.tsx:53 | one card per school, in school order |
| GeneralDashboard.SchoolIds | components/dashboards/coordinator-general-dashboard.tsx:53 | the school ids, in order |
| GeneralDashboard.CardClassesAreGroupSizes | components/dashboards/coordinator-general-dashboard.tsx:53-54 | the cards' class counts add up to the sum of the school group sizes |
| GeneralDashboard.CardsCoverAllClasses | components/dashboards/coordinator-general-dashboard.tsx:53-54 | with distinct school ids, and every class naming a listed school, the cards' class counts add up to all classes |
| GeneralDashboard.SampleCardsCoverAllClasses | components/dashboards/coordinator-general-dashboard.tsx:32-54 | on the sample data the two cards cover all six classes |
| PerformancePage.PerformanceClasses | app/dashboard/performance/page.tsx:41-46 | a coordinator's school's classes, the classes whose teacher id is the account's id, or all |
| PerformancePage.SampleTeacherOfferedNoClass | app/dashboard/performance/page.tsx:44-46 | the sample teacher is offered no class here, though other pages give them two |
| PerformancePage.PerformanceData | app/dashboard/performance/page.tsx:52-110 | the student view when a student is chosen, else the class view, else nothing; one row per exam in either view |
| PerformancePage.ClassViewCountsClassResults | app/dashboard/performance/page.tsx:76-80 | the class view uses exactly the exam's results from the chosen class |
| PerformancePage.AllStudentsOptionShowsZeros | app/dashboard/performance/page.tsx:53-172 | "Todos os alunos" makes every row zero |
| PerformancePage.StudentViewIgnoresClass | app/dashboard/performance/page.tsx:53-73 | the student view does not depend on the class selection |
| PerformancePage.PointOf | app/dashboard/performance/page.tsx:117-129 | 0 without a result; with one, the criterion's score as a whole number of tenths within 0.05 of it; fails exactly when the result lacks the criterion |
| PerformancePage.CriteriaPoints | app/dashboard/performance/page.tsx:117-132 | one point per exam in order, defined exactly when every result of the student has the criterion |
| PerformancePage.CriteriaData | app/dashboard/performance/page.tsx:113-133 | no points without a student; otherwise the student's points |
| PerformancePage.NoResultsZeroPoints | app/dashboard/performance/page.tsx:117-129 | a student without results gets a zero point for every exam |
| PerformancePage.PerformanceSelection.constructor | app/dashboard/performance/page.tsx:36-37 | both selections start empty |
| PerformancePage.PerformanceSelection.ChangeClass | app/dashboard/performance/page.tsx:147-152 | choosing a class sets it and clears the student |
| PerformancePage.PerformanceSelection.ChangeStudent | app/dashboard/performance/page.tsx:166-180 | choosing a student keeps the class |
| PerformancePage.PerformanceSelection.Chart | app/dashboard/performance/page.tsx:52-110 | the chart for the current selections; empty only without a class or without exams |
| PerformancePage.ChooseClassShowsClassView | app/dashboard/performance/page.tsx:147-152 | after choosing a class, the chart is that class's view |

## Left out

- **Presentation.** Charts, tables, selectors, badges, Tailwind classes and the fixed trend and recommendation text are not modelled.
- **Routing and redirects.** app/page.tsx, app/dashboard/layout.tsx and the `useEffect`/`router.push` redirects are not modelled.
- **Files without logic.** app/dashboard/page.tsx only chooses a dashboard by role. components/dashboards/admin-dashboard.tsx only shows lengths of constant arrays. app/dashboard/performance/loading.tsx is a skeleton. None is modelled.
- **Browser storage.** The persisted "user" entry of browser storage is the field `stored` of `AuthProvider`. JSON encoding is the identity.
- **The loading flag.** `isLoading` is not modelled.
- **Randomness and the clock.** `Math.random()` and `new Date()` are parameters:
  - presence is a draw compared with 0.1;
  - a grade is a draw in [0,1);
  - a record's date is a function of the day offset.

  The model does not state that dates are distinct. Lemmas that need distinct dates require them.
- **Exam data.** `SAMPLE_EXAMS`, `SAMPLE_EXAM_RESULTS`, `calculateGeneralAverage`, `calculatePortugueseAverage` and `calculateMathAverage` are imported by the pages, but lib/sample-data.ts does not define them. Their definitions are not part of this model. Exams and results are parameters. The three calculators are a `Scorer` record of functions, and nothing is assumed about their formulas.
- **Floating point.**
  - Averages are exact reals.
  - `toFixed(1)` is exact half-up rounding to one decimal. IEEE-754 behaviour at .x5 boundaries is not modelled.
  - The three exam calculators are assumed never to return `NaN`, because a `Scorer` returns reals. This hides a difference between two pages:
    - the coordinator dashboard's per-result guards (components/dashboards/coordinator-dashboard.tsx:44-59) count a `NaN` score as 0;
    - the performance page's class view (app/dashboard/performance/page.tsx:90-98) has no such guard, so a `NaN` score would show as `NaN`.

    Both are Exams.AggregateRow here.
  - The guards on the three means (components/dashboards/coordinator-dashboard.tsx:63-65) cannot fire under exact arithmetic once the results are non-empty.
- GradesPage.BuildSummary: states the displayed class average as a whole number of tenths within 0.05 of the exact mean (exact half-up rounding), not as the binary result of `toFixed(1)`.
- Metrics.DisplayAverage: states the displayed average as a whole number of tenths within 0.05 of the exact mean (exact half-up rounding), not as the binary result of `toFixed(1)`.
- Exams.AggregateRow: states each displayed figure as a whole number of tenths within 0.05 of the exact mean (which pins it), over calculators that are parameters.
- Exams.ResultRow: states each displayed figure as a whole number of tenths within 0.05 of the result's scores (which pins it), over calculators that are parameters.
- **Division by zero.** GeneralDashboard.StudentsPerClassFigure returns no figure without classes, where the page would display `NaN` or `Infinity`.
- **Case folding.** Case-insensitive search lower-cases ASCII letters only. Unicode case folding is not modelled.
- **Locale dates.** Locale date formatting (`toLocaleDateString`) on the enrollments page is not modelled.
- **The reports page's school state.** On the reports page, a coordinator's render calls `setSelectedSchool`. Reports.EffectiveSchool models the value that call forces. The repeated re-rendering it causes is not modelled.
- **Display-only attributes.** These fields are shown but never computed on: addresses, phones, emails, shifts, years, capacity, teacher subjects, attendance and grade ids, and the stored `totalStudents`/`totalTeachers` of a school. The general dashboard's teacher total reads them. Entities keep only ids, foreign keys and the fields the logic reads.
- **Static display tables.** The admin dashboard's and the general dashboard's plain `.length` figures are not modelled.
- **Heading and name lookups.** The performance page's heading lookups (`selectedStudentData`, the class name shown) and the per-student name lookups are not modelled.
- PerformancePage.PointOf: a result lacking a criterion key makes the page throw on `undefined.toFixed`. The model returns `None` there instead of modelling the failure.
- **Grade comment.** lib/sample-data.ts:242 comments "between 6-10", but `Math.floor(Math.random() * 4) + 6` gives 6 to 9. The model follows the code: SampleData.GradeValue.
- **Performance page scoping.** The performance page scopes a teacher by `teacherId === user.id` rather than by the account's class list. On the sample data this leaves the teacher with no class: PerformancePage.SampleTeacherOfferedNoClass.
