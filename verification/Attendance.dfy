/** TeachersService.markAttendance and getAttendanceSheet for one tenant. */
module Attendance {
  import opened Common

  datatype Status = Present | Absent | Late | Excused

  /** What identifies a mark: the table has no unique index on these columns. */
  datatype Key = Key(studentId: Id, groupId: Id, date: int)

  datatype Row = Row(key: Key, status: Status, note: Option<string>, markedBy: Id)

  datatype Entry = Entry(studentId: Id, status: Status, note: Option<string>)

  datatype Line = Line(studentId: Id, status: Status, note: Option<string>)

  datatype Error = TeacherNotFound | NotOwnGroup

  predicate Has(rows: seq<Row>, key: Key) {
    exists i :: 0 <= i < |rows| && rows[i].key == key
  }

  ghost predicate KeysUnique(rows: seq<Row>) {
    forall i, j :: 0 <= i < j < |rows| ==> rows[i].key != rows[j].key
  }

  /** The rows that the LEFT JOIN of the sheet finds for a key. */
  function Matches(rows: seq<Row>, key: Key): seq<Row> {
    if rows == [] then []
    else (if rows[0].key == key then [rows[0]] else []) + Matches(rows[1..], key)
  }

  /** One step of the upsert: update the row at i, or insert when there is none. */
  ghost predicate Upserts(before: seq<Row>, after: seq<Row>, row: Row) {
    if Has(before, row.key)
    then exists i :: 0 <= i < |before| && before[i].key == row.key && after == before[i := row]
    else after == before + [row]
  }

  function RowOf(teacherId: Id, groupId: Id, date: int, e: Entry): Row {
    Row(Key(e.studentId, groupId, date), e.status, e.note, teacherId)
  }

  /** The entries upserted one after the other; where a key has several rows, any of them may be the one updated. */
  ghost predicate MarkedVia(before: seq<Row>, after: seq<Row>, teacherId: Id, groupId: Id, date: int,
                            entries: seq<Entry>)
    decreases |entries|
  {
    if entries == [] then after == before
    else
      var front, row := entries[..|entries| - 1], RowOf(teacherId, groupId, date, entries[|entries| - 1]);
      exists mid :: MarkedVia(before, mid, teacherId, groupId, date, front) && Upserts(mid, after, row)
  }

  class AttendanceTable {
    var rows: seq<Row>
    var teachers: set<Id>
    var groupTeacher: map<Id, Id>

    constructor (rows: seq<Row>, teachers: set<Id>, groupTeacher: map<Id, Id>)
      ensures this.rows == rows && this.teachers == teachers && this.groupTeacher == groupTeacher
    {
      this.rows, this.teachers, this.groupTeacher := rows, teachers, groupTeacher;
    }

    /** SELECT id ... : some row with the key (the query has no order), or -1. */
    method FindExisting(key: Key) returns (i: int)
      ensures Has(rows, key) <==> i >= 0
      ensures i >= 0 ==> i < |rows| && rows[i].key == key
    {
      if Has(rows, key) {
        i :| 0 <= i < |rows| && rows[i].key == key;
      } else {
        i := -1;
      }
    }

    method MarkAttendance(teacherId: Id, groupId: Id, date: int, entries: seq<Entry>) returns (r: Result<nat, Error>)
      modifies this`rows
      ensures r == (if teacherId !in teachers then Err(TeacherNotFound)
                    else if groupId !in groupTeacher || groupTeacher[groupId] != teacherId then Err(NotOwnGroup)
                    else Ok(|entries|))
      ensures r.Err? ==> rows == old(rows)
      ensures r.Ok? ==> MarkedVia(old(rows), rows, teacherId, groupId, date, entries)
    {
      if teacherId !in teachers {
        return Err(TeacherNotFound);
      }
      if groupId !in groupTeacher || groupTeacher[groupId] != teacherId {
        return Err(NotOwnGroup);
      }
      for k := 0 to |entries|
        invariant MarkedVia(old(rows), rows, teacherId, groupId, date, entries[..k])
      {
        var entry := entries[k];
        var row := Row(Key(entry.studentId, groupId, date), entry.status, entry.note, teacherId);
        ghost var before := rows;
        var existing := FindExisting(row.key);
        if existing >= 0 {
          rows := rows[existing := row];
        } else {
          rows := rows + [row];
        }
        assert entries[..k + 1][..k] == entries[..k];
        assert MarkedVia(old(rows), before, teacherId, groupId, date, entries[..k]) && Upserts(before, rows, row);
      }
      assert entries[..|entries|] == entries;
      r := Ok(|entries|);
    }
  }

  // ----- keys -----

  lemma {:induction false} UpsertKeepsUniqueIff(before: seq<Row>, after: seq<Row>, row: Row)
    requires Upserts(before, after, row)
    ensures KeysUnique(after) <==> KeysUnique(before)
  {
    if Has(before, row.key) {
      assert |after| == |before| && forall i :: 0 <= i < |before| ==> after[i].key == before[i].key;
    } else {
      assert forall i :: 0 <= i < |before| ==> after[i] == before[i];
      assert after[|before|] == row;
    }
  }

  /** Marking neither adds a second row for a key nor removes one. */
  lemma {:induction false} MarkingKeepsUniqueIff(
    before: seq<Row>, after: seq<Row>, teacherId: Id, groupId: Id, date: int, entries: seq<Entry>)
    requires MarkedVia(before, after, teacherId, groupId, date, entries)
    ensures KeysUnique(after) <==> KeysUnique(before)
    decreases |entries|
  {
    if entries != [] {
      var front, row := entries[..|entries| - 1], RowOf(teacherId, groupId, date, entries[|entries| - 1]);
      var mid :| MarkedVia(before, mid, teacherId, groupId, date, front) && Upserts(mid, after, row);
      MarkingKeepsUniqueIff(before, mid, teacherId, groupId, date, front);
      UpsertKeepsUniqueIff(mid, after, row);
    }
  }

  // ----- what marking means for lookups -----

  lemma {:induction false} MatchesConcat(a: seq<Row>, b: seq<Row>, key: Key)
    ensures Matches(a + b, key) == Matches(a, key) + Matches(b, key)
  {
    if a == [] {
      assert a + b == b;
    } else {
      assert (a + b)[1..] == a[1..] + b;
      MatchesConcat(a[1..], b, key);
    }
  }

  lemma {:induction false} MatchesOfOne(row: Row, key: Key)
    ensures Matches([row], key) == if row.key == key then [row] else []
  {
    assert [row][1..] == [];
  }

  lemma {:induction false} NoMatches(rows: seq<Row>, key: Key)
    requires !Has(rows, key)
    ensures Matches(rows, key) == []
  {
    if rows != [] {
      assert forall i :: 0 <= i < |rows[1..]| ==> rows[1..][i] == rows[i + 1];
      NoMatches(rows[1..], key);
    }
  }

  /** An update replaces one match of the row's key and no match of another key. */
  lemma {:induction false} MatchesOfUpdate(rows: seq<Row>, i: nat, row: Row, key: Key)
    requires i < |rows| && rows[i].key == row.key
    ensures var at := |Matches(rows[..i], key)|;
            if key == row.key
            then at < |Matches(rows, key)| && Matches(rows[i := row], key) == Matches(rows, key)[at := row]
            else Matches(rows[i := row], key) == Matches(rows, key)
  {
    var front, back := rows[..i], rows[i + 1..];
    assert rows == front + ([rows[i]] + back) && rows[i := row] == front + ([row] + back);
    MatchesConcat(front, [rows[i]] + back, key);
    MatchesConcat([rows[i]], back, key);
    MatchesConcat(front, [row] + back, key);
    MatchesConcat([row], back, key);
    MatchesOfOne(rows[i], key);
    MatchesOfOne(row, key);
  }

  ghost predicate Replaces(before: seq<Row>, after: seq<Row>, row: Row) {
    |after| == |before| && exists j :: 0 <= j < |after| && after[j] == row && after == before[j := row]
  }

  lemma {:induction false} MatchesOfUpsert(before: seq<Row>, after: seq<Row>, row: Row, key: Key)
    requires Upserts(before, after, row)
    ensures if key != row.key then Matches(after, key) == Matches(before, key)
            else if Matches(before, key) == [] then Matches(after, key) == [row]
            else Replaces(Matches(before, key), Matches(after, key), row)
  {
    if Has(before, row.key) {
      var i :| 0 <= i < |before| && before[i].key == row.key && after == before[i := row];
      MatchesOfUpdate(before, i, row, key);
      if key == row.key {
        var at := |Matches(before[..i], key)|;
        assert Matches(after, key)[at] == row;
      }
    } else {
      MatchesConcat(before, [row], key);
      MatchesOfOne(row, key);
      NoMatches(before, row.key);
    }
  }

  /** The last entry for a student, if the student is listed. */
  function LastEntry(entries: seq<Entry>, studentId: Id): Option<Entry> {
    if entries == [] then None
    else if entries[|entries| - 1].studentId == studentId then Some(entries[|entries| - 1])
    else LastEntry(entries[..|entries| - 1], studentId)
  }

  /** The row the last entry for the key asks for, if the key is one this call marks. */
  function LastRow(teacherId: Id, groupId: Id, date: int, entries: seq<Entry>, key: Key): Option<Row> {
    if key.groupId == groupId && key.date == date && LastEntry(entries, key.studentId).Some?
    then Some(RowOf(teacherId, groupId, date, LastEntry(entries, key.studentId).value))
    else None
  }

  /**
    For every table: a key the call does not mark keeps its rows. A marked key that had n rows has max(1, n), one of
    them the last entry's; with n <= 1 that is the only one.
   */
  ghost predicate MarkedAs(before: seq<Row>, after: seq<Row>, last: Option<Row>) {
    match last
    case None => after == before
    case Some(row) =>
      && |after| == (if before == [] then 1 else |before|)
      && row in after
  }

  lemma {:induction false} MarkingEffect(
    before: seq<Row>, after: seq<Row>, teacherId: Id, groupId: Id, date: int, entries: seq<Entry>, key: Key)
    requires MarkedVia(before, after, teacherId, groupId, date, entries)
    ensures MarkedAs(Matches(before, key), Matches(after, key), LastRow(teacherId, groupId, date, entries, key))
    decreases |entries|
  {
    if entries != [] {
      var front, row := entries[..|entries| - 1], RowOf(teacherId, groupId, date, entries[|entries| - 1]);
      var mid :| MarkedVia(before, mid, teacherId, groupId, date, front) && Upserts(mid, after, row);
      MarkingEffect(before, mid, teacherId, groupId, date, front, key);
      MatchesOfUpsert(mid, after, row, key);
      if key == row.key {
        ReplacedIsMarked(Matches(before, key), Matches(mid, key), Matches(after, key), row,
                         LastRow(teacherId, groupId, date, front, key));
      }
    }
  }

  lemma {:induction false} ReplacedIsMarked(
    before: seq<Row>, mid: seq<Row>, after: seq<Row>, row: Row, last: Option<Row>)
    requires MarkedAs(before, mid, last)
    requires if mid == [] then after == [row] else Replaces(mid, after, row)
    ensures MarkedAs(before, after, Some(row))
  {
    if mid != [] {
      assert Replaces(mid, after, row);
    }
  }

  // ----- the sheet -----

  /** ...(r.note ? { note } : {}) */
  function NoteShown(note: Option<string>): Option<string> {
    if note.Some? && note.value != "" then note else None
  }

  function LineOf(row: Row): Line {
    Line(row.key.studentId, row.status, NoteShown(row.note))
  }

  function LinesOf(rows: seq<Row>): seq<Line> {
    seq(|rows|, i requires 0 <= i < |rows| => LineOf(rows[i]))
  }

  /** One member of the LEFT JOIN: a line per matching row, or a PRESENT line when there is none. */
  function MemberLines(rows: seq<Row>, key: Key): seq<Line> {
    if Matches(rows, key) == [] then [Line(key.studentId, Present, None)] else LinesOf(Matches(rows, key))
  }

  /** members: the students of the group in the order the query sorts them. */
  function Sheet(rows: seq<Row>, groupId: Id, date: int, members: seq<Id>): seq<Line> {
    if members == [] then []
    else MemberLines(rows, Key(members[0], groupId, date)) + Sheet(rows, groupId, date, members[1..])
  }

  function Duplicates(rows: seq<Row>, groupId: Id, date: int, members: seq<Id>): nat {
    if members == [] then 0
    else
      var n := |Matches(rows, Key(members[0], groupId, date))|;
      (if n > 1 then n - 1 else 0) + Duplicates(rows, groupId, date, members[1..])
  }

  lemma {:induction false} SheetLength(rows: seq<Row>, groupId: Id, date: int, members: seq<Id>)
    ensures |Sheet(rows, groupId, date, members)| == |members| + Duplicates(rows, groupId, date, members)
    ensures Duplicates(rows, groupId, date, members) == 0
            <==> forall i :: 0 <= i < |members| ==> |Matches(rows, Key(members[i], groupId, date))| <= 1
  {
    if members != [] {
      SheetLength(rows, groupId, date, members[1..]);
      assert forall i :: 1 <= i < |members| ==> members[i] == members[1..][i - 1];
      assert forall i :: 0 <= i < |members[1..]| ==> members[1..][i] == members[i + 1];
    }
  }

  /** The sheet has one line per member exactly when no member has two rows for the group and date. */
  lemma {:induction false} SheetHasOneLineEachIff(rows: seq<Row>, groupId: Id, date: int, members: seq<Id>)
    ensures |Sheet(rows, groupId, date, members)| == |members|
            <==> forall i :: 0 <= i < |members| ==> |Matches(rows, Key(members[i], groupId, date))| <= 1
  {
    SheetLength(rows, groupId, date, members);
  }

  lemma {:induction false} SheetConcat(rows: seq<Row>, groupId: Id, date: int, a: seq<Id>, b: seq<Id>)
    ensures Sheet(rows, groupId, date, a + b) == Sheet(rows, groupId, date, a) + Sheet(rows, groupId, date, b)
  {
    if a == [] {
      assert a + b == b;
    } else {
      assert (a + b)[1..] == a[1..] + b;
      SheetConcat(rows, groupId, date, a[1..], b);
    }
  }

  /** Where member i's lines start in the sheet. */
  function Offset(rows: seq<Row>, groupId: Id, date: int, members: seq<Id>, i: nat): nat
    requires i <= |members|
  {
    |Sheet(rows, groupId, date, members[..i])|
  }

  /** The lines of the sheet that belong to member i. */
  ghost predicate LinesAt(sheet: seq<Line>, at: nat, lines: seq<Line>) {
    at + |lines| <= |sheet| && sheet[at..at + |lines|] == lines
  }

  lemma {:induction false} SheetLines(rows: seq<Row>, groupId: Id, date: int, members: seq<Id>, i: nat)
    requires i < |members|
    ensures LinesAt(Sheet(rows, groupId, date, members), Offset(rows, groupId, date, members, i),
                    MemberLines(rows, Key(members[i], groupId, date)))
  {
    var front, back := members[..i], members[i + 1..];
    assert members == front + ([members[i]] + back);
    SheetConcat(rows, groupId, date, front, [members[i]] + back);
    assert ([members[i]] + back)[1..] == back;
  }

  lemma {:induction false} MarkingKeepsLengths(
    before: seq<Row>, after: seq<Row>, teacherId: Id, groupId: Id, date: int, entries: seq<Entry>, members: seq<Id>)
    requires MarkedVia(before, after, teacherId, groupId, date, entries)
    ensures |Sheet(after, groupId, date, members)| == |Sheet(before, groupId, date, members)|
  {
    if members != [] {
      MarkingEffect(before, after, teacherId, groupId, date, entries, Key(members[0], groupId, date));
      MarkingKeepsLengths(before, after, teacherId, groupId, date, entries, members[1..]);
    }
  }

  /** What the sheet shows for a student after marking. */
  ghost predicate ShownAs(before: seq<Line>, after: seq<Line>, studentId: Id, last: Option<Entry>) {
    match last
    case None => after == before
    case Some(e) =>
      var line := Line(studentId, e.status, NoteShown(e.note));
      |after| == |before| && line in after && (|before| == 1 ==> after == [line])
  }

  /**
    Marking and then reading the sheet of the same group and date, for every table: the sheet keeps its length and
    every member their place in it; unlisted students show what they showed before, listed ones the last entry.
   */
  lemma {:induction false} SheetAfterMarking(
    before: seq<Row>, after: seq<Row>, teacherId: Id, groupId: Id, date: int, entries: seq<Entry>,
    members: seq<Id>, i: nat)
    requires MarkedVia(before, after, teacherId, groupId, date, entries) && i < |members|
    ensures var key := Key(members[i], groupId, date); var at := Offset(before, groupId, date, members, i);
            && |Sheet(after, groupId, date, members)| == |Sheet(before, groupId, date, members)|
            && LinesAt(Sheet(before, groupId, date, members), at, MemberLines(before, key))
            && LinesAt(Sheet(after, groupId, date, members), at, MemberLines(after, key))
            && ShownAs(MemberLines(before, key), MemberLines(after, key), members[i], LastEntry(entries, members[i]))
  {
    var key := Key(members[i], groupId, date);
    MarkingKeepsLengths(before, after, teacherId, groupId, date, entries, members);
    MarkingKeepsLengths(before, after, teacherId, groupId, date, entries, members[..i]);
    SheetLines(before, groupId, date, members, i);
    SheetLines(after, groupId, date, members, i);
    MarkingEffect(before, after, teacherId, groupId, date, entries, key);
    LastEntryIs(entries, members[i]);
    LinesShowLast(before, after, key, LastRow(teacherId, groupId, date, entries, key));
  }

  lemma {:induction false} LinesShowLast(before: seq<Row>, after: seq<Row>, key: Key, last: Option<Row>)
    requires MarkedAs(Matches(before, key), Matches(after, key), last)
    ensures last.None? ==> MemberLines(after, key) == MemberLines(before, key)
    ensures last.Some? ==>
              var line := LineOf(last.value);
              && |MemberLines(after, key)| == |MemberLines(before, key)| && line in MemberLines(after, key)
              && (|MemberLines(before, key)| == 1 ==> MemberLines(after, key) == [line])
  {
    if last.Some? {
      var rows := Matches(after, key);
      var j :| 0 <= j < |rows| && rows[j] == last.value;
      assert LinesOf(rows)[j] == LineOf(last.value);
    }
  }

  lemma {:induction false} LastEntryIs(entries: seq<Entry>, studentId: Id)
    ensures LastEntry(entries, studentId).Some? ==> LastEntry(entries, studentId).value.studentId == studentId
  {
    if entries != [] {
      LastEntryIs(entries[..|entries| - 1], studentId);
    }
  }

  // ----- marking and the sheet in terms of rows -----

  lemma {:induction false} MatchesIn(rows: seq<Row>, key: Key)
    ensures forall r :: r in Matches(rows, key) <==> r in rows && r.key == key
  {
    if rows != [] {
      MatchesIn(rows[1..], key);
      assert rows == [rows[0]] + rows[1..];
    }
  }

  lemma {:induction false} LastEntryAt(entries: seq<Entry>, k: nat)
    requires k < |entries| && forall j :: k < j < |entries| ==> entries[j].studentId != entries[k].studentId
    ensures LastEntry(entries, entries[k].studentId) == Some(entries[k])
  {
    if k < |entries| - 1 {
      LastEntryAt(entries[..|entries| - 1], k);
    }
  }

  /** Each student's last entry is stored with its status, note and the teacher who marked. */
  lemma {:induction false} MarkingWrites(
    before: seq<Row>, after: seq<Row>, teacherId: Id, groupId: Id, date: int, entries: seq<Entry>, k: nat)
    requires MarkedVia(before, after, teacherId, groupId, date, entries)
    requires k < |entries| && forall j :: k < j < |entries| ==> entries[j].studentId != entries[k].studentId
    ensures var e := entries[k];
            Row(Key(e.studentId, groupId, date), e.status, e.note, teacherId) in after
  {
    var key := Key(entries[k].studentId, groupId, date);
    LastEntryAt(entries, k);
    MarkingEffect(before, after, teacherId, groupId, date, entries, key);
    MatchesIn(after, key);
  }

  /** Rows of other groups, other dates and students not listed stay, each as often as it was there. */
  lemma {:induction false} MarkingLeavesOthers(
    before: seq<Row>, after: seq<Row>, teacherId: Id, groupId: Id, date: int, entries: seq<Entry>, r: Row)
    requires MarkedVia(before, after, teacherId, groupId, date, entries)
    requires forall k :: 0 <= k < |entries| ==> r.key != Key(entries[k].studentId, groupId, date)
    ensures multiset(after)[r] == multiset(before)[r]
    decreases |entries|
  {
    if entries != [] {
      var n := |entries| - 1;
      var row := RowOf(teacherId, groupId, date, entries[n]);
      var mid :| MarkedVia(before, mid, teacherId, groupId, date, entries[..n]) && Upserts(mid, after, row);
      assert forall k :: 0 <= k < n ==> entries[..n][k] == entries[k];
      MarkingLeavesOthers(before, mid, teacherId, groupId, date, entries[..n], r);
      assert row.key == Key(entries[n].studentId, groupId, date);
      UpsertLeavesOthers(mid, after, row, r);
    }
  }

  lemma {:induction false} UpsertLeavesOthers(before: seq<Row>, after: seq<Row>, row: Row, r: Row)
    requires Upserts(before, after, row) && r.key != row.key
    ensures multiset(after)[r] == multiset(before)[r]
  {
    if Has(before, row.key) {
      var i :| 0 <= i < |before| && before[i].key == row.key && after == before[i := row];
      assert multiset(after) == multiset(before) - multiset{before[i]} + multiset{row};
    }
  }

  /** A member without a row for the group and date shows as one PRESENT line without a note. */
  lemma {:induction false} UnmarkedIsPresent(rows: seq<Row>, groupId: Id, date: int, members: seq<Id>, i: nat)
    requires i < |members|
    requires forall k :: 0 <= k < |rows| ==> rows[k].key != Key(members[i], groupId, date)
    ensures LinesAt(Sheet(rows, groupId, date, members), Offset(rows, groupId, date, members, i),
                    [Line(members[i], Present, None)])
    ensures Offset(rows, groupId, date, members, i + 1) == Offset(rows, groupId, date, members, i) + 1
  {
    NoMatches(rows, Key(members[i], groupId, date));
    SheetLines(rows, groupId, date, members, i);
    NextOffset(rows, groupId, date, members, i);
  }

  lemma {:induction false} NextOffset(rows: seq<Row>, groupId: Id, date: int, members: seq<Id>, i: nat)
    requires i < |members|
    ensures Offset(rows, groupId, date, members, i + 1)
            == Offset(rows, groupId, date, members, i) + |MemberLines(rows, Key(members[i], groupId, date))|
  {
    assert members[..i + 1] == members[..i] + [members[i]];
    SheetConcat(rows, groupId, date, members[..i], [members[i]]);
    assert [members[i]][1..] == [];
    assert Sheet(rows, groupId, date, [members[i]]) == MemberLines(rows, Key(members[i], groupId, date));
  }

  /** The line stands somewhere in this part of the sheet. */
  ghost predicate Shows(sheet: seq<Line>, start: nat, end: nat, line: Line) {
    exists l :: start <= l < end && l < |sheet| && sheet[l] == line
  }

  lemma {:induction false} LinesAtShow(sheet: seq<Line>, at: nat, lines: seq<Line>, j: nat)
    requires LinesAt(sheet, at, lines) && j < |lines|
    ensures Shows(sheet, at, at + |lines|, lines[j])
  {
    assert sheet[at..at + |lines|][j] == sheet[at + j];
  }

  /** Every row of a member for the group and date shows among the member's lines, an empty note as none. */
  lemma {:induction false} MarkedIsShown(
    rows: seq<Row>, groupId: Id, date: int, members: seq<Id>, i: nat, k: nat)
    requires i < |members| && k < |rows| && rows[k].key == Key(members[i], groupId, date)
    ensures Shows(Sheet(rows, groupId, date, members),
                  Offset(rows, groupId, date, members, i), Offset(rows, groupId, date, members, i + 1),
                  Line(members[i], rows[k].status, if rows[k].note == Some("") then None else rows[k].note))
  {
    var key := Key(members[i], groupId, date);
    SheetLines(rows, groupId, date, members, i);
    NextOffset(rows, groupId, date, members, i);
    var j := MatchLine(rows, key, k);
    LinesAtShow(Sheet(rows, groupId, date, members), Offset(rows, groupId, date, members, i),
                MemberLines(rows, key), j);
  }

  lemma {:induction false} MatchLine(rows: seq<Row>, key: Key, k: nat) returns (j: nat)
    requires k < |rows| && rows[k].key == key
    ensures j < |MemberLines(rows, key)|
    ensures MemberLines(rows, key)[j]
            == Line(key.studentId, rows[k].status, if rows[k].note == Some("") then None else rows[k].note)
  {
    MatchesIn(rows, key);
    assert rows[k] in Matches(rows, key);
    j :| j < |Matches(rows, key)| && Matches(rows, key)[j] == rows[k];
  }
}
