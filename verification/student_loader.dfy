/** `remplirListeEtudiants` (SAE.c:88-113): the students file is modelled as
    the sequence of its complete `num ref note` lines, the three
    caller-supplied arrays as sequences passed in and handed back, `*tlog` as
    an integer passed in and handed back, and the outcome of `fopen` as a
    boolean. */
module StudentLoader {
  import opened Capacity

  /** One line of the students file: the student's number, the reference of
      the offer they hold and their final grade. The grade is only copied,
      so a `real` stands for the C `float`. */
  datatype Student = Student(num: int, ref: int, note: real)

  /** The three parallel arrays `tNumEtu`, `tRefStage`, `tNoteFinal`. */
  datatype StudentTables = StudentTables(num: seq<int>, ref: seq<int>, note: seq<real>)
  {
    /** Every array has at least `n` cells. */
    predicate Holds(n: int) {
      |num| >= n && |ref| >= n && |note| >= n
    }

    /** Row `k` read across the three arrays. */
    function Row(k: nat): Student
      requires Holds(k + 1)
    {
      Student(num[k], ref[k], note[k])
    }

    /** Writes `s` into row `k` of every array. */
    function Put(k: nat, s: Student): (t: StudentTables)
      requires Holds(k + 1)
      ensures SameShape(this, t) && t.Row(k) == s
    {
      StudentTables(num[k := s.num], ref[k := s.ref], note[k := s.note])
    }
  }

  predicate SameShape(a: StudentTables, b: StudentTables) {
    |a.num| == |b.num| && |a.ref| == |b.ref| && |a.note| == |b.note|
  }

  /** Every cell from index `from` on is as it was, in all three arrays. */
  predicate UnchangedFrom(a: StudentTables, b: StudentTables, from: nat) {
    && SameShape(a, b)
    && (forall k :: from <= k < |a.num| ==> a.num[k] == b.num[k])
    && (forall k :: from <= k < |a.ref| ==> a.ref[k] == b.ref[k])
    && (forall k :: from <= k < |a.note| ==> a.note[k] == b.note[k])
  }

  /** `rows[k]` written into row `k` of `t`, for each `k`, first to last. */
  function Stored(t: StudentTables, rows: seq<Student>): (t': StudentTables)
    requires t.Holds(|rows|)
    ensures SameShape(t, t')
    decreases |rows|
  {
    if rows == [] then t
    else
      var n := |rows| - 1;
      Stored(t, rows[..n]).Put(n, rows[n])
  }

  /** After storing, row `k` holds `rows[k]` and the rows past them are
      untouched. */
  lemma {:induction false} StoredContents(t: StudentTables, rows: seq<Student>)
    requires t.Holds(|rows|)
    ensures forall k :: 0 <= k < |rows| ==> Stored(t, rows).Row(k) == rows[k]
    ensures UnchangedFrom(t, Stored(t, rows), |rows|)
    decreases |rows|
  {
    if rows != [] {
      var n := |rows| - 1;
      var before := Stored(t, rows[..n]);
      StoredContents(t, rows[..n]);
      forall k | 0 <= k < |rows|
        ensures Stored(t, rows).Row(k) == rows[k]
      {
        if k < n {
          assert Stored(t, rows).Row(k) == before.Row(k) == rows[..n][k];
        }
      }
    }
  }

  /** What a call leaves behind: the return code, the arrays and `*tlog`. */
  datatype StudentLoad = StudentLoad(code: int, tables: StudentTables, tlog: int)

  /** The whole call on a file whose lines are `rows`. */
  function LoadStudents(isOpen: bool, rows: seq<Student>, t: StudentTables, tlog: int, tmax: int): (r: StudentLoad)
    requires t.Holds(tmax)
    ensures !isOpen ==> r == StudentLoad(-1, t, tlog)
    ensures isOpen ==> (r.code == 1 <==> |rows| <= Room(tmax))
    ensures isOpen ==> (r.code == -2 <==> |rows| > Room(tmax))
    ensures SameShape(t, r.tables)
    ensures isOpen ==>
              var n := r.tlog - tlog;
              && 0 <= n <= |rows| && n <= Room(tmax)
              && (n < |rows| ==> n == Room(tmax))
              && (forall k :: 0 <= k < n ==> r.tables.Row(k) == rows[k])
              && UnchangedFrom(t, r.tables, n)
  {
    if !isOpen then StudentLoad(-1, t, tlog)
    else
      var n := if |rows| <= Room(tmax) then |rows| else Room(tmax);
      StoredContents(t, rows[..n]);
      StudentLoad(if n < |rows| then -2 else 1, Stored(t, rows[..n]), tlog + n)
  }

  /** `remplirListeEtudiants` as written: a line is read before the loop and
      again after each store, and the loop runs until end of file. `pos` is
      the line the last read delivered; `pos == |rows|` stands for `feof`. */
  method FillStudents(isOpen: bool, rows: seq<Student>, t: StudentTables, tlog: int, tmax: int)
    returns (code: int, t': StudentTables, tlog': int)
    requires t.Holds(tmax)
    ensures StudentLoad(code, t', tlog') == LoadStudents(isOpen, rows, t, tlog, tmax)
  {
    if !isOpen {
      return -1, t, tlog;
    }
    t', tlog' := t, tlog;
    var i := 0;
    var pos := 0;
    while pos < |rows|
      invariant i == pos <= |rows| && i <= Room(tmax)
      invariant tlog' == tlog + i
      invariant t' == Stored(t, rows[..i])
      decreases |rows| - pos
    {
      if i < tmax {
        var row := rows[pos];
        assert rows[..i + 1][..i] == rows[..i];
        t' := t'.Put(i, row);
        tlog' := tlog' + 1;
        i := i + 1;
        pos := pos + 1;
      } else {
        return -2, t', tlog';
      }
    }
    assert rows[..i] == rows;
    return 1, t', tlog';
  }

  /** A file with more lines than the room fills exactly the rows its first
      `tmax` lines would fill on their own, and reports -2 instead of 1. */
  lemma OverflowStoresPrefix(rows: seq<Student>, t: StudentTables, tlog: int, tmax: int)
    requires t.Holds(tmax) && |rows| > Room(tmax)
    ensures var over := LoadStudents(true, rows, t, tlog, tmax);
            var fit := LoadStudents(true, rows[..Room(tmax)], t, tlog, tmax);
            && over.code == -2 && fit.code == 1
            && over.tables == fit.tables && over.tlog == fit.tlog == tlog + Room(tmax)
  {
    var n := Room(tmax);
    assert rows[..n][..n] == rows[..n];
  }
}
