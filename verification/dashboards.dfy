/** How the teacher and administrator dashboards relate when both are
    computed over the same tables. */
module Dashboards {
  import opened Wrappers
  import opened Seqs
  import opened Tables
  import opened Web
  import opened Guru
  import opened Admin

  /** Row `k` of the two tables describes the same student the same way:
      the same name, NISN and package, and a student marked untested on
      the administrator's table shows no RIASEC code to the teacher. */
  lemma RowsAgree(v: GuruView, session: Session, users: seq<User>, students: seq<Student>,
                  results: seq<RiasecResult>, recs: seq<Recommendation>)
    requires IsGuruView(v, students, results, recs)
    requires session.LoggedIn?
    ensures var table := DashboardAdmin(session, users, students, results, recs).data.dataSiswa;
            && |table| == |v.siswaList|
            && forall k :: 0 <= k < |table| ==>
                 && table[k].nama == v.siswaList[k].nama
                 && table[k].nisn == v.siswaList[k].nisn
                 && table[k].paket == v.siswaList[k].paketRekomendasi
                 && (table[k].statusTes == BelumTes ==> v.siswaList[k].kodeRiasec == Dash)
  {
  }

  /** The administrator's "Sudah Tes" rows are exactly as many as the
      teacher's tested counter. */
  lemma {:induction false} TestedRowsMatchGuruCounter(students: seq<Student>, results: seq<RiasecResult>,
                                                      recs: seq<Recommendation>)
    ensures Count(TableRows(students, results, recs), MarkedTested()) == Count(students, Tested(results))
  {
    if |students| > 0 {
      var n := |students|;
      var init := students[..n - 1];
      TestedRowsMatchGuruCounter(init, results, recs);
      var rows := TableRows(students, results, recs);
      var rows' := TableRows(init, results, recs);
      assert rows[..n - 1] == rows' by {
        forall k | 0 <= k < n - 1
          ensures rows[k] == rows'[k]
        {
          assert init[k] == students[k];
        }
      }
      assert MarkedTested()(rows[n - 1]) == Tested(results)(students[n - 1]);
    }
  }

  /** A table row marked "Sudah Tes". */
  function MarkedTested(): AdminRow -> bool
  {
    (row: AdminRow) => row.statusTes == SudahTes
  }

  /** With unique student ids the teacher's tested counter never exceeds the
      administrator's, which counts result rows rather than students. */
  lemma GuruTestedAtMostAdminTested(v: GuruView, session: Session, users: seq<User>, students: seq<Student>,
                                    results: seq<RiasecResult>, recs: seq<Recommendation>)
    requires IsGuruView(v, students, results, recs)
    requires session.LoggedIn?
    requires DistinctIds(students)
    ensures v.siswaSudahTes <= DashboardAdmin(session, users, students, results, recs).data.siswaSudahTes
  {
    TestedAtMostResults(students, results);
  }

  /** With unique student ids each bucket of the teacher's distribution is at
      most the administrator's count of recommendation rows with that label,
      so 100 times the bucket is at most the pie share's numerator for that
      label. This compares with the exact share, before rounding. */
  lemma GuruBucketsAtMostAdminShares(v: GuruView, session: Session, users: seq<User>, students: seq<Student>,
                                     results: seq<RiasecResult>, recs: seq<Recommendation>)
    requires IsGuruView(v, students, results, recs)
    requires session.LoggedIn?
    requires DistinctIds(students)
    ensures var a := DashboardAdmin(session, users, students, results, recs).data;
            |recs| > 0 ==>
              && 100 * v.distribusi[0] <= a.paket1Pct.num
              && 100 * v.distribusi[1] <= a.paket2Pct.num
              && 100 * v.distribusi[2] <= a.paket3Pct.num
    ensures |recs| == 0 ==> v.distribusi == [0, 0, 0]
  {
    BucketAtMostLabelCount(students, recs, Paket1);
    BucketAtMostLabelCount(students, recs, Paket2);
    BucketAtMostLabelCount(students, recs, Paket3);
  }

  /** The administrator's tested figure is not a number of students: one
      student with two result rows is reported as two tested, while the
      teacher sees one tested student. */
  lemma DuplicateResultsCountedTwice()
    ensures var students := [Student(1, "Budi", "001")];
            var results := [RiasecResult(10, 1, Some("RIA")), RiasecResult(11, 1, Some("SEC"))];
            var admin := User(7, "admin", "admin", "admin");
            && DashboardAdmin(LoggedIn(admin), [admin], students, results, []).data.siswaSudahTes == 2
            && Count(students, Tested(results)) == 1
  {
  }
}
