/** The teacher dashboard, `/guru`: a role gate, then one pass over the
    student table deriving a row per student, tested/untested counters and
    the package distribution. */
module Guru {
  import opened Wrappers
  import opened Seqs
  import opened Tables
  import opened Web

  const GuruTemplate: string := "dashboard_guru.html"

  /** One row of the teacher's student table. */
  datatype GuruRow = GuruRow(nama: string, nisn: string, kodeRiasec: string, paketRekomendasi: string, id: int)

  /** The data the teacher dashboard template receives. */
  datatype GuruView = GuruView(
    siswaList: seq<GuruRow>,
    siswaSudahTes: nat,
    siswaBelumTes: nat,
    distribusi: seq<nat>)

  /** How a `top3` value is shown: a missing or empty code shows as "-". */
  function Top3OrDash(top3: Option<string>): string
  {
    match top3
    case Some(code) => if code != "" then code else Dash
    case None => Dash
  }

  /** The RIASEC code shown for student `sid`. */
  function KodeRiasec(results: seq<RiasecResult>, sid: int): string
  {
    match FirstResultFor(results, sid)
    case Some(result) => Top3OrDash(result.top3)
    case None => Dash
  }

  /** An untested student shows "-"; a tested one shows the `top3` of their
      first result row when that is present and non-empty, "-" otherwise. */
  lemma KodeRiasecSpec(results: seq<RiasecResult>, sid: int)
    ensures !HasResult(results, sid) ==> KodeRiasec(results, sid) == Dash
    ensures forall j :: IsFirst(results, ResultOf(sid), j) ==>
              if results[j].top3.Some? && results[j].top3.value != "" then KodeRiasec(results, sid) == results[j].top3.value
              else KodeRiasec(results, sid) == Dash
  {
    FirstWhereSpec(results, ResultOf(sid));
    FirstResultExists(results, sid);
  }

  /** The row shown for student `s`. */
  function GuruRowOf(s: Student, results: seq<RiasecResult>, recs: seq<Recommendation>): GuruRow
  {
    GuruRow(s.nama, s.nisn, KodeRiasec(results, s.id), PaketOf(recs, s.id), s.id)
  }

  /** The rows shown for `students`, in table order. */
  function GuruRows(students: seq<Student>, results: seq<RiasecResult>, recs: seq<Recommendation>): (rows: seq<GuruRow>)
    ensures |rows| == |students|
  {
    if |students| == 0 then []
    else GuruRows(students[..|students| - 1], results, recs) + [GuruRowOf(students[|students| - 1], results, recs)]
  }

  /** Deriving the rows of one more student of a prefix appends that student's row. */
  lemma GuruRowsPrefixStep(students: seq<Student>, i: int, results: seq<RiasecResult>, recs: seq<Recommendation>)
    requires 0 <= i < |students|
    ensures GuruRows(students[..i + 1], results, recs) == GuruRows(students[..i], results, recs) + [GuruRowOf(students[i], results, recs)]
  {
    assert students[..i + 1][..i] == students[..i];
  }

  /** Row `k` of the table belongs to student `k`. */
  lemma {:induction false} GuruRowsAt(students: seq<Student>, results: seq<RiasecResult>, recs: seq<Recommendation>)
    ensures forall k :: 0 <= k < |students| ==> GuruRows(students, results, recs)[k] == GuruRowOf(students[k], results, recs)
  {
    if |students| > 0 {
      GuruRowsAt(students[..|students| - 1], results, recs);
    }
  }

  /** `v` is what the dashboard shows for these tables: one row per student
      in table order, both counters, and the three package buckets. */
  ghost predicate IsGuruView(v: GuruView, students: seq<Student>, results: seq<RiasecResult>, recs: seq<Recommendation>)
  {
    && |v.siswaList| == |students|
    && (forall k :: 0 <= k < |students| ==>
          var row, s := v.siswaList[k], students[k];
          && row.nama == s.nama
          && row.nisn == s.nisn
          && row.id == s.id
          && row.kodeRiasec == KodeRiasec(results, s.id)
          && row.paketRekomendasi == PaketOf(recs, s.id))
    && v.siswaSudahTes == Count(students, Tested(results))
    && v.siswaSudahTes + v.siswaBelumTes == |students|
    && v.distribusi == [Count(students, PaketIs(recs, Paket1)),
                        Count(students, PaketIs(recs, Paket2)),
                        Count(students, PaketIs(recs, Paket3))]
  }

  /** Add one to the bucket named `paket`, if the distribution has one. */
  function Tally(distribusi: map<string, nat>, paket: string): (d: map<string, nat>)
    ensures d.Keys == distribusi.Keys
    ensures forall p :: p in d ==> d[p] == distribusi[p] + (if p == paket then 1 else 0)
  {
    if paket in distribusi then distribusi[paket := distribusi[paket] + 1] else distribusi
  }

  /** The loop of `dashboard_guru`, with the distribution kept in a map keyed
      by the three package labels. */
  method BuildGuruView(students: seq<Student>, results: seq<RiasecResult>, recs: seq<Recommendation>)
    returns (v: GuruView)
    ensures IsGuruView(v, students, results, recs)
    ensures |v.distribusi| == 3
    ensures v.distribusi[0] + v.distribusi[1] + v.distribusi[2] <= |students|
  {
    var siswaList: seq<GuruRow> := [];
    var distribusi: map<string, nat> := map[Paket1 := 0, Paket2 := 0, Paket3 := 0];
    var sudahTes: nat := 0;
    var belumTes: nat := 0;
    var i := 0;
    while i < |students|
      invariant 0 <= i <= |students|
      invariant |siswaList| == i
      invariant siswaList == GuruRows(students[..i], results, recs)
      invariant sudahTes == Count(students[..i], Tested(results))
      invariant sudahTes + belumTes == i
      invariant distribusi.Keys == {Paket1, Paket2, Paket3}
      invariant forall p :: p in distribusi ==> distribusi[p] == Count(students[..i], PaketIs(recs, p))
    {
      var s := students[i];
      var result := FirstResultFor(results, s.id);
      var rekom := FirstRecommendationFor(recs, s.id);
      var kodeRiasec: string;
      if result.Some? {
        sudahTes := sudahTes + 1;
        kodeRiasec := Top3OrDash(result.value.top3);
      } else {
        belumTes := belumTes + 1;
        kodeRiasec := Dash;
      }
      var paket := if rekom.Some? then rekom.value.paketPrediksi else Dash;
      distribusi := Tally(distribusi, paket);
      siswaList := siswaList + [GuruRow(s.nama, s.nisn, kodeRiasec, paket, s.id)];
      assert GuruRow(s.nama, s.nisn, kodeRiasec, paket, s.id) == GuruRowOf(s, results, recs);
      GuruRowsPrefixStep(students, i, results, recs);
      FirstResultExists(results, s.id);
      CountPrefixStep(students, i, Tested(results));
      forall p | p in distribusi
        ensures distribusi[p] == Count(students[..i + 1], PaketIs(recs, p))
      {
        CountPrefixStep(students, i, PaketIs(recs, p));
      }
      i := i + 1;
    }
    assert students[..i] == students;
    GuruRowsAt(students, results, recs);
    v := GuruView(siswaList, sudahTes, belumTes, [distribusi[Paket1], distribusi[Paket2], distribusi[Paket3]]);
    CountDisjoint3(students, PaketIs(recs, Paket1), PaketIs(recs, Paket2), PaketIs(recs, Paket3));
  }

  /** `/guru`: anyone but a teacher is sent back to the login page and
      nothing is computed; a teacher gets the dashboard. */
  method DashboardGuru(session: Session, students: seq<Student>, results: seq<RiasecResult>, recs: seq<Recommendation>)
    returns (reply: Reply<GuruView>)
    ensures session.Anonymous? ==> reply == LoginRequired
    ensures session.LoggedIn? && session.user.role != "guru" ==> reply == Redirect(LoginPage)
    ensures session.LoggedIn? && session.user.role == "guru" ==>
              && reply.Render?
              && reply.template == GuruTemplate
              && IsGuruView(reply.data, students, results, recs)
  {
    match session
    case Anonymous =>
      reply := LoginRequired;
    case LoggedIn(user) =>
      if user.role != "guru" {
        reply := Redirect(LoginPage);
      } else {
        var v := BuildGuruView(students, results, recs);
        reply := Render(GuruTemplate, v);
      }
  }

  /** The student's shown package is none of the three labels. */
  function Unlabelled(recs: seq<Recommendation>): Student -> bool
  {
    (s: Student) => PaketOf(recs, s.id) !in {Paket1, Paket2, Paket3}
  }

  /** Only the three package labels are charted: every student falls in
      exactly one of the three buckets or among those shown "-" or any other
      label, which the distribution leaves out. */
  lemma {:induction false} DistributionPartition(students: seq<Student>, recs: seq<Recommendation>)
    ensures Count(students, PaketIs(recs, Paket1)) + Count(students, PaketIs(recs, Paket2))
            + Count(students, PaketIs(recs, Paket3)) + Count(students, Unlabelled(recs)) == |students|
  {
    if |students| > 0 {
      DistributionPartition(students[..|students| - 1], recs);
    }
  }
}
