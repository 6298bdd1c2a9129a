/** The database tables the route handlers read, and the ORM queries they
    issue, as pure functions over immutable sequences of rows.

    Only the columns the handlers read are kept. A table's sequence order is
    the order in which the database returns its rows to `.all()` and
    `.first()`.
 */
module Tables {
  import opened Wrappers
  import opened Seqs

  /** A login identity; `role` is one of "admin", "guru", "siswa" in practice,
      but the handlers compare it as a free string. */
  datatype User = User(id: int, username: string, password: string, role: string)

  /** A student profile. */
  datatype Student = Student(id: int, nama: string, nisn: string)

  /** A RIASEC test result; `top3` is a nullable column. */
  datatype RiasecResult = RiasecResult(id: int, idStudent: int, top3: Option<string>)

  /** A package recommendation for one student. */
  datatype Recommendation = Recommendation(id: int, idStudent: int, paketPrediksi: string)

  /** The three package labels the dashboards chart. */
  const Paket1: string := "Paket 1"
  const Paket2: string := "Paket 2"
  const Paket3: string := "Paket 3"

  /** Placeholder shown where a student has no value. */
  const Dash: string := "-"

  /** The student table's primary key is unique. */
  predicate DistinctIds(students: seq<Student>)
  {
    forall i, j :: 0 <= i < j < |students| ==> students[i].id != students[j].id
  }

  // ---- filter_by(...) conditions --------------------------------------------

  function ResultOf(sid: int): RiasecResult -> bool
  {
    (r: RiasecResult) => r.idStudent == sid
  }

  function RecommendationOf(sid: int): Recommendation -> bool
  {
    (r: Recommendation) => r.idStudent == sid
  }

  function Labelled(paket: string): Recommendation -> bool
  {
    (r: Recommendation) => r.paketPrediksi == paket
  }

  function HasRole(role: string): User -> bool
  {
    (u: User) => u.role == role
  }

  function Named(username: string): User -> bool
  {
    (u: User) => u.username == username
  }

  // ---- per-student lookups --------------------------------------------------

  /** The first result row of student `sid`, if any. */
  function FirstResultFor(results: seq<RiasecResult>, sid: int): Option<RiasecResult>
  {
    FirstWhere(results, ResultOf(sid))
  }

  /** The first recommendation row of student `sid`, if any. */
  function FirstRecommendationFor(recs: seq<Recommendation>, sid: int): Option<Recommendation>
  {
    FirstWhere(recs, RecommendationOf(sid))
  }

  /** Some result row belongs to student `sid`. */
  predicate HasResult(results: seq<RiasecResult>, sid: int)
  {
    exists j :: 0 <= j < |results| && results[j].idStudent == sid
  }

  /** `.first()` finds a result row for a student exactly when one exists. */
  lemma FirstResultExists(results: seq<RiasecResult>, sid: int)
    ensures FirstResultFor(results, sid).Some? <==> HasResult(results, sid)
  {
    FirstWhereSpec(results, ResultOf(sid));
  }

  /** A student counts as tested when some result row belongs to them. */
  function Tested(results: seq<RiasecResult>): Student -> bool
  {
    (s: Student) => HasResult(results, s.id)
  }

  /** The package shown for student `sid`: the label of their first
      recommendation, or "-" when they have none. */
  function PaketOf(recs: seq<Recommendation>, sid: int): string
  {
    match FirstRecommendationFor(recs, sid)
    case Some(rekom) => rekom.paketPrediksi
    case None => Dash
  }

  /** A student without recommendations shows "-"; otherwise the label of
      the first recommendation row that is theirs. */
  lemma PaketOfSpec(recs: seq<Recommendation>, sid: int)
    ensures (forall j :: 0 <= j < |recs| ==> recs[j].idStudent != sid) ==> PaketOf(recs, sid) == Dash
    ensures forall j :: IsFirst(recs, RecommendationOf(sid), j) ==> PaketOf(recs, sid) == recs[j].paketPrediksi
  {
    FirstWhereSpec(recs, RecommendationOf(sid));
  }

  /** The student's shown package is `paket`. */
  function PaketIs(recs: seq<Recommendation>, paket: string): Student -> bool
  {
    (s: Student) => PaketOf(recs, s.id) == paket
  }

  // ---- counting tested students against table sizes --------------------------

  function IdIn(keys: seq<int>): Student -> bool
  {
    (s: Student) => s.id in keys
  }

  /** With unique student ids, the students whose id occurs among `keys`
      are at most as many as the keys. */
  lemma {:induction false} CountIdsInKeys(students: seq<Student>, keys: seq<int>)
    requires DistinctIds(students)
    ensures Count(students, IdIn(keys)) <= |keys|
  {
    if |students| > 0 {
      var n := |students|;
      var last := students[n - 1];
      var init := students[..n - 1];
      var keys' := RemoveAll(keys, last.id);
      assert DistinctIds(init) by {
        forall i, j | 0 <= i < j < |init|
          ensures init[i].id != init[j].id
        {
          assert init[i] == students[i] && init[j] == students[j];
        }
      }
      CountIdsInKeys(init, keys');
      forall j | 0 <= j < |init|
        ensures IdIn(keys)(init[j]) == IdIn(keys')(init[j])
      {
        assert init[j] == students[j];
        assert init[j].id != last.id;
      }
      CountCongruent(init, IdIn(keys), IdIn(keys'));
      assert Count(students, IdIn(keys)) == Count(init, IdIn(keys)) + (if last.id in keys then 1 else 0);
    }
  }

  /** The student id of every result row, in table order. */
  function ResultIds(results: seq<RiasecResult>): (ids: seq<int>)
    ensures |ids| == |results|
    ensures forall j :: 0 <= j < |results| ==> ids[j] == results[j].idStudent
  {
    seq(|results|, j requires 0 <= j < |results| => results[j].idStudent)
  }

  /** With unique student ids, no more students are tested than there are
      result rows. */
  lemma TestedAtMostResults(students: seq<Student>, results: seq<RiasecResult>)
    requires DistinctIds(students)
    ensures Count(students, Tested(results)) <= |results|
  {
    var ids := ResultIds(results);
    forall j | 0 <= j < |students|
      ensures Tested(results)(students[j]) == IdIn(ids)(students[j])
    {
      if HasResult(results, students[j].id) {
        var k :| 0 <= k < |results| && results[k].idStudent == students[j].id;
        assert ids[k] == students[j].id;
      }
    }
    CountCongruent(students, Tested(results), IdIn(ids));
    CountIdsInKeys(students, ids);
  }

  /** The student id of every recommendation carrying `paket`, in table order. */
  function LabelIds(recs: seq<Recommendation>, paket: string): (ids: seq<int>)
    ensures |ids| == Count(recs, Labelled(paket))
    ensures forall j :: 0 <= j < |recs| && recs[j].paketPrediksi == paket ==> recs[j].idStudent in ids
  {
    if |recs| == 0 then []
    else
      var init := recs[..|recs| - 1];
      var last := recs[|recs| - 1];
      assert forall j :: 0 <= j < |init| ==> init[j] == recs[j];
      LabelIds(init, paket) + (if last.paketPrediksi == paket then [last.idStudent] else [])
  }

  /** With unique student ids, the students shown with package `paket` are
      at most the recommendation rows carrying that label. */
  lemma BucketAtMostLabelCount(students: seq<Student>, recs: seq<Recommendation>, paket: string)
    requires DistinctIds(students)
    requires paket != Dash
    ensures Count(students, PaketIs(recs, paket)) <= Count(recs, Labelled(paket))
  {
    var ids := LabelIds(recs, paket);
    forall j | 0 <= j < |students| && PaketIs(recs, paket)(students[j])
      ensures IdIn(ids)(students[j])
    {
      var sid := students[j].id;
      var rekom := FirstRecommendationFor(recs, sid);
      FirstWhereSpec(recs, RecommendationOf(sid));
      assert rekom.Some?;
      var k :| IsFirst(recs, RecommendationOf(sid), k) && recs[k] == rekom.value;
      assert recs[k].paketPrediksi == paket;
    }
    CountMonotone(students, PaketIs(recs, paket), IdIn(ids));
    CountIdsInKeys(students, ids);
  }
}
