# RIASEC school dashboards: a Dafny model of the route handlers

The application tracks students' RIASEC (career-interest) test results and
the study-track package ("Paket 1", "Paket 2", "Paket 3") recommended to
each. This project models the logic of three of its route files:

- the teacher dashboard `/guru` (`app/routes/guru.py`): a role gate, then one
  pass over the students that derives a row per student (name, NISN, RIASEC
  code or "-", package or "-", id), counts tested and untested students and
  fills a three-bucket package distribution;
- the administrator dashboard `/admin` and the CSV export
  `/admin/download-csv` (`app/routes/admin.py`): summary counts, one table
  row per student ("Sudah Tes"/"Belum Tes" and package), pie-chart shares with
  a zero-total guard, and the same rows behind a fixed CSV header;
- login, home and logout (`app/routes/auth.py`): a first-user-by-name lookup,
  a plain string comparison of passwords, and a role-based redirect.

Database tables are immutable sequences of records (`Tables.Student`,
`Tables.RiasecResult`, `Tables.Recommendation`, `Tables.User`), in the order
the database returns them. `filter_by(...).first()` is `Seqs.FirstWhere` and
`.count()` is `Seqs.Count`. A handler's reply is a value of `Web.Reply`
(redirect, rendered template with its data, file attachment, turned away by
`login_required`, bad request), and the login state is a `Web.Session`
holding the logged-in `User`.

Modules, one per concern: `Wrappers` (Option), `Seqs` (first-match and
counting over a table, with their lemmas), `Tables` (records, per-student
lookups, counting tested students against table sizes), `Web` (replies and
sessions), `Auth`, `Guru`, `Admin`, and `Dashboards` (how the two dashboards
relate over the same tables).

The model describes what the code does, including where that may be
surprising:

- passwords are compared with plain string equality against the first user
  with that username; the code does no hashing;
- the administrator's "tested" figure counts every `RiasecResult` row, not
  distinct tested students, and its student total counts `Student` rows, not
  users whose role is "siswa";
- `/admin` and `/admin/download-csv` check only that someone is logged in,
  not that the user is an administrator;
- the teacher dashboard reads `Student` records only, with no filters,
  sorting or pagination.

## Model

| member | source | states |
|---|---|---|
| Seqs.FirstWhereSpec | app/routes/guru.py:20-21 | `.first()` finds nothing exactly when no row matches, and otherwise returns the row at the first matching position, whichever position that is |
| Seqs.CountExtremes | app/routes/admin.py:42-44 | a `.count()` under an exact-match filter is zero exactly when no row matches and equals the table size exactly when every row matches; a package count is zero iff no recommendation has exactly that label |
| Tables.FirstResultExists | app/routes/guru.py:20-23 | the result lookup for a student succeeds exactly when some result row carries that student's id |
| Tables.PaketOfSpec | app/routes/admin.py:31-32 | a student without recommendations shows "-"; otherwise the label of the first recommendation row that is theirs |
| Tables.TestedAtMostResults | app/routes/admin.py:18 | with unique student ids, the number of tested students is at most the number of result rows |
| Tables.BucketAtMostLabelCount | app/routes/admin.py:42-44 | with unique student ids, the students shown with a package label other than "-" are at most the recommendation rows with that label |
| Auth.Home | app/routes/auth.py:8-10 | `/` always redirects to the login page |
| Auth.Login | app/routes/auth.py:12-28 | GET renders the form with no lookup and no session change; POST without both fields is a bad request; POST succeeds iff the first user with the username has exactly that password, then logs that user in and redirects admin, guru and every other role to their dashboards; on failure it flashes the failure message, re-renders the form and leaves the session as it was |
| Auth.OnlyFirstNamesakeConsulted | app/routes/auth.py:17-18 | when several users share a username and the first one's password differs, a later namesake's password does not log anyone in |
| Auth.LoginLandsOnOwnDashboard | app/routes/auth.py:19-25 | a successful login never redirects back to the login page, and it lands on the teacher (administrator) dashboard exactly when the logged-in user's role is "guru" ("admin") |
| Auth.Logout | app/routes/auth.py:30-34 | afterwards nobody is logged in; a logged-in visitor is redirected to the login page, an anonymous one is turned away by `login_required` |
| Guru.KodeRiasecSpec | app/routes/guru.py:22-27 | an untested student shows "-"; a tested one shows the `top3` of their first result row when it is present and non-empty, "-" otherwise |
| Guru.Tally | app/routes/guru.py:29-30 | the distribution keeps its three keys and only the bucket equal to the shown package goes up by one; any other package leaves it unchanged |
| Guru.GuruRowsAt | app/routes/guru.py:31-37 | row `k` of the teacher's table is derived from student `k`: same name, NISN and id, that student's code and package |
| Guru.BuildGuruView | app/routes/guru.py:14-38 | one row per student in table order; the tested counter equals the number of students with a result row; tested plus untested equals the number of students; the distribution is the number of students shown with "Paket 1", "Paket 2", "Paket 3", in that order, and sums to at most the number of students |
| Guru.DashboardGuru | app/routes/guru.py:8-45 | anonymous visitors are turned away, a logged-in user whose role is not "guru" is redirected to login with no data, a teacher gets the dashboard with the view above |
| Guru.DistributionPartition | app/routes/guru.py:28-30 | every student is counted in exactly one of the "Paket 1", "Paket 2", "Paket 3" buckets or among those shown "-" or any other label, which the distribution leaves out |
| Admin.StatusTes | app/routes/admin.py:29 | a student's status is "Sudah Tes" iff some result row carries their id, and "Belum Tes" otherwise |
| Admin.TableRows | app/routes/admin.py:24-38 | one row per student in table order, with that student's name and NISN, "Sudah Tes" iff they have a result row, and their first recommendation's label or "-" |
| Admin.DashboardAdmin | app/routes/admin.py:10-58 | any logged-in user gets the dashboard whatever their role; an anonymous visitor is turned away; the table is the per-student rows; the teacher total is the number of users whose role is exactly "guru"; with recommendations present, share `k` has numerator 100 times the number of recommendations labelled exactly "Paket k" (case and spelling must match) and denominator the number of recommendations |
| Admin.SummaryCountsRows | app/routes/admin.py:14-18 | the student total is the number of student rows, the tested figure the number of result rows (not deduplicated per student), and the teacher total is at most the number of users and zero iff no user has role exactly "guru" |
| Admin.PieSharesBounded | app/routes/admin.py:41-47 | with no recommendations every share is the literal 0 and nothing is divided; otherwise every share is a fraction over the number of recommendations and the three numerators sum to at most 100 times the number of recommendations (the unrounded shares total at most 100 percent) |
| Admin.CsvRows | app/routes/admin.py:64-72 | the first CSV row is exactly Nama, NISN, Status Tes, Paket Rekomendasi, followed by one four-field row per student in table order with their name, NISN, status and package |
| Admin.DownloadCsv | app/routes/admin.py:61-79 | any logged-in user gets `data_siswa.csv` holding those rows; an anonymous visitor is turned away |
| Admin.CsvMatchesDashboard | app/routes/admin.py:68-72 | behind the header, CSV line `k + 1` carries exactly the name, NISN, status and package of dashboard table row `k` |
| Dashboards.RowsAgree | app/routes/guru.py:31-37 | the teacher's and administrator's row `k` agree on name, NISN and package, and a student marked "Belum Tes" shows no RIASEC code to the teacher |
| Dashboards.TestedRowsMatchGuruCounter | app/routes/admin.py:29 | the administrator's "Sudah Tes" rows are exactly as many as the teacher's tested counter |
| Dashboards.GuruTestedAtMostAdminTested | app/routes/admin.py:18 | with unique student ids, the teacher's tested counter never exceeds the administrator's tested figure |
| Dashboards.GuruBucketsAtMostAdminShares | app/routes/admin.py:41-47 | with unique student ids, 100 times each of the teacher's buckets is at most the administrator's numerator for that label (the unrounded share); with no recommendations all buckets are 0 |
| Dashboards.DuplicateResultsCountedTwice | app/routes/admin.py:18 | one student with two result rows is reported as two tested students by the administrator and one by the teacher |

## Left out

- Flask, Jinja and flask_login mechanics: routing, `render_template`, `url_for`, flash storage and cookies are outcome values; a redirect names its endpoint.
- `login_required` is the abstract reply `LoginRequired`: what the login manager then does depends on configuration that is not part of this model.
- HEAD requests to `/login` run the handler and take the same branch as GET, so they are modelled by `Get`; OPTIONS is answered by the framework itself and any other method gets 405 Method Not Allowed without reaching the handler.
- The user loader behind `current_user` is not part of this model: the session holds the `User` row that was logged in.
- Query order: `.all()` and `.first()` without ORDER BY follow the sequence order, which stands for whatever order the database returns.
- Database string comparison is exact equality; collations that compare case-insensitively are not modelled.
- Nullable columns other than `top3` (`nama`, `nisn`, `paket_prediksi`, `password`) are modelled as always present.
- Columns the three handlers do not read (the six RIASEC scores, `kelas`, `id_user`, report scores) are not modelled.
- Admin.PieSharesBounded: shares are exact fractions `100 * part / total`; the floating-point division and one-decimal `round` are not modelled, so the bounds hold for the numerators only. The rounded shares the page shows can total more than 100 (1, 1 and 4 recommendations give 16.7 + 16.7 + 66.7 = 100.1) and can fall below a teacher bucket's exact share (one of three gives 33.3 against 33.33...).
- Admin.CsvRows: the CSV is a sequence of rows of strings; `csv.writer` quoting, line endings and UTF-8 encoding are not modelled.
- Filters, pagination, sorting, spreadsheet import, teacher management, registration, password hashing and a per-student detail page are not implemented by these three files and are not modelled; the dashboards read names and NISNs from `Student` records only, never from `User` records.
