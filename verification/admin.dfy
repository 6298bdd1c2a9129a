/** The administrator routes: the dashboard `/admin` and the CSV export
    `/admin/download-csv`. Both sit behind `login_required` only; neither
    checks the user's role. */
module Admin {
  import opened Seqs
  import opened Tables
  import opened Web

  const AdminTemplate: string := "dashboard_admin.html"
  const CsvFilename: string := "data_siswa.csv"

  const SudahTes: string := "Sudah Tes"
  const BelumTes: string := "Belum Tes"

  /** The CSV's header row. */
  const CsvHeader: seq<string> := ["Nama", "NISN", "Status Tes", "Paket Rekomendasi"]

  /** One row of the administrator's student table. */
  datatype AdminRow = AdminRow(nama: string, nisn: string, statusTes: string, paket: string)

  /** A pie-chart share: `Zero` is the literal 0 shown when there are no
      recommendations at all; otherwise `100 * part / total` as an exact
      fraction, before the one-decimal rounding. */
  datatype Pct = Zero | Ratio(num: nat, den: nat)

  /** The data the administrator dashboard template receives. */
  datatype AdminView = AdminView(
    totalSiswa: nat,
    totalGuru: nat,
    siswaSudahTes: nat,
    dataSiswa: seq<AdminRow>,
    paket1Pct: Pct,
    paket2Pct: Pct,
    paket3Pct: Pct)

  /** The test status shown for student `sid`. */
  function StatusTes(results: seq<RiasecResult>, sid: int): (status: string)
    ensures status == SudahTes <==> HasResult(results, sid)
    ensures status == SudahTes || status == BelumTes
  {
    FirstResultExists(results, sid);
    if FirstResultFor(results, sid).Some? then SudahTes else BelumTes
  }

  /** The table row shown for student `s`. */
  function AdminRowOf(s: Student, results: seq<RiasecResult>, recs: seq<Recommendation>): AdminRow
  {
    AdminRow(s.nama, s.nisn, StatusTes(results, s.id), PaketOf(recs, s.id))
  }

  /** The student table: one row per student, in table order. */
  function TableRows(students: seq<Student>, results: seq<RiasecResult>, recs: seq<Recommendation>): (rows: seq<AdminRow>)
    ensures |rows| == |students|
    ensures forall k :: 0 <= k < |students| ==>
              && rows[k].nama == students[k].nama
              && rows[k].nisn == students[k].nisn
              && (rows[k].statusTes == SudahTes <==> HasResult(results, students[k].id))
              && (rows[k].statusTes == SudahTes || rows[k].statusTes == BelumTes)
              && rows[k].paket == PaketOf(recs, students[k].id)
  {
    seq(|students|, k requires 0 <= k < |students| => AdminRowOf(students[k], results, recs))
  }

  /** A pie share: the literal 0 when the total is 0, else the exact fraction
      before rounding. */
  function Share(part: nat, total: nat): Pct
  {
    if total != 0 then Ratio(100 * part, total) else Zero
  }

  /** `/admin`. Any logged-in user gets the dashboard, whatever their role.
      The teacher total counts users whose role is exactly "guru", and with
      recommendations present, share `k` is 100 times the number of
      recommendation rows labelled exactly "Paket k", over the number of
      recommendations. */
  function DashboardAdmin(session: Session, users: seq<User>, students: seq<Student>,
                          results: seq<RiasecResult>, recs: seq<Recommendation>): (reply: Reply<AdminView>)
    ensures session.Anonymous? <==> reply == LoginRequired
    ensures session.LoggedIn? ==>
              && reply.Render?
              && reply.template == AdminTemplate
              && reply.data.dataSiswa == TableRows(students, results, recs)
    ensures session.LoggedIn? ==> reply.data.totalGuru == Count(users, HasRole("guru"))
    ensures session.LoggedIn? && |recs| > 0 ==>
              && reply.data.paket1Pct == Ratio(100 * Count(recs, Labelled(Paket1)), |recs|)
              && reply.data.paket2Pct == Ratio(100 * Count(recs, Labelled(Paket2)), |recs|)
              && reply.data.paket3Pct == Ratio(100 * Count(recs, Labelled(Paket3)), |recs|)
  {
    match session
    case Anonymous => LoginRequired
    case LoggedIn(_) =>
      var totalRekom := |recs|;
      Render(AdminTemplate, AdminView(
        totalSiswa := |students|,
        totalGuru := Count(users, HasRole("guru")),
        siswaSudahTes := |results|,
        dataSiswa := TableRows(students, results, recs),
        paket1Pct := Share(Count(recs, Labelled(Paket1)), totalRekom),
        paket2Pct := Share(Count(recs, Labelled(Paket2)), totalRekom),
        paket3Pct := Share(Count(recs, Labelled(Paket3)), totalRekom)))
  }

  /** The summary numbers are table sizes, not per-student facts: the
      student total counts student rows, the tested figure counts every
      result row (a student with two results is counted twice), and the
      teacher total counts users whose role is exactly "guru". */
  lemma SummaryCountsRows(session: Session, users: seq<User>, students: seq<Student>,
                          results: seq<RiasecResult>, recs: seq<Recommendation>)
    requires session.LoggedIn?
    ensures DashboardAdmin(session, users, students, results, recs).data.totalSiswa == |students|
    ensures DashboardAdmin(session, users, students, results, recs).data.siswaSudahTes == |results|
    ensures DashboardAdmin(session, users, students, results, recs).data.totalGuru <= |users|
    ensures DashboardAdmin(session, users, students, results, recs).data.totalGuru == 0
            <==> forall j :: 0 <= j < |users| ==> users[j].role != "guru"
  {
    CountExtremes(users, HasRole("guru"));
  }

  /** With no recommendations every share is the literal 0 and nothing is
      divided; otherwise every share is a fraction of the number of
      recommendations and the three numerators sum to at most 100 times
      that number. This bounds the exact shares, not the rounded ones. */
  lemma PieSharesBounded(session: Session, users: seq<User>, students: seq<Student>,
                         results: seq<RiasecResult>, recs: seq<Recommendation>)
    requires session.LoggedIn?
    ensures var v := DashboardAdmin(session, users, students, results, recs).data;
            |recs| == 0 ==> v.paket1Pct == Zero && v.paket2Pct == Zero && v.paket3Pct == Zero
    ensures var v := DashboardAdmin(session, users, students, results, recs).data;
            |recs| > 0 ==> v.paket1Pct.Ratio? && v.paket2Pct.Ratio? && v.paket3Pct.Ratio?
    ensures var v := DashboardAdmin(session, users, students, results, recs).data;
            |recs| > 0 ==> v.paket1Pct.den == |recs| && v.paket2Pct.den == |recs| && v.paket3Pct.den == |recs|
    ensures var v := DashboardAdmin(session, users, students, results, recs).data;
            |recs| > 0 ==> v.paket1Pct.num + v.paket2Pct.num + v.paket3Pct.num <= 100 * |recs|
  {
    CountDisjoint3(recs, Labelled(Paket1), Labelled(Paket2), Labelled(Paket3));
  }

  /** The CSV body: the header, then one row per student in table order. */
  function CsvRows(students: seq<Student>, results: seq<RiasecResult>, recs: seq<Recommendation>): (rows: seq<seq<string>>)
    ensures |rows| == |students| + 1
    ensures rows[0] == CsvHeader
    ensures forall k :: 0 <= k < |students| ==>
              && |rows[k + 1]| == 4
              && rows[k + 1][0] == students[k].nama
              && rows[k + 1][1] == students[k].nisn
              && (rows[k + 1][2] == SudahTes <==> HasResult(results, students[k].id))
              && (rows[k + 1][2] == SudahTes || rows[k + 1][2] == BelumTes)
              && rows[k + 1][3] == PaketOf(recs, students[k].id)
  {
    [CsvHeader] + seq(|students|, k requires 0 <= k < |students| =>
                        [students[k].nama, students[k].nisn, StatusTes(results, students[k].id), PaketOf(recs, students[k].id)])
  }

  /** `/admin/download-csv`. Any logged-in user gets the file. */
  function DownloadCsv(session: Session, students: seq<Student>, results: seq<RiasecResult>,
                       recs: seq<Recommendation>): (reply: Reply<seq<seq<string>>>)
    ensures session.Anonymous? <==> reply == LoginRequired
    ensures session.LoggedIn? ==>
              && reply.Attachment?
              && reply.filename == CsvFilename
              && reply.data == CsvRows(students, results, recs)
  {
    match session
    case Anonymous => LoginRequired
    case LoggedIn(_) => Attachment(CsvFilename, CsvRows(students, results, recs))
  }

  /** The export and the dashboard table agree: behind the header, CSV line
      `k + 1` carries exactly the name, NISN, status and package of table
      row `k`. */
  lemma CsvMatchesDashboard(session: Session, users: seq<User>, students: seq<Student>,
                            results: seq<RiasecResult>, recs: seq<Recommendation>)
    requires session.LoggedIn?
    ensures var table := DashboardAdmin(session, users, students, results, recs).data.dataSiswa;
            var csv := DownloadCsv(session, students, results, recs).data;
            && |csv| == |table| + 1
            && csv[0] == CsvHeader
            && forall k :: 0 <= k < |table| ==>
                 csv[k + 1] == [table[k].nama, table[k].nisn, table[k].statusTes, table[k].paket]
  {
  }
}
