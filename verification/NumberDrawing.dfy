/**
  Numbers drawn from a row count by requests that overlap: the count is read first, the row is inserted later, and
  rows are never deleted. Payments draw invoice numbers this way, students their codes.
 */
module NumberDrawing {
  import opened SequenceCodes

  datatype Drawn = Drawn(year: nat, count: nat)

  /** The numbers of the rows in the order they were inserted, and those drawn but not inserted yet. */
  datatype World = World(rows: seq<Drawn>, inFlight: multiset<Drawn>)

  datatype Step = Draw(year: nat) | Insert(d: Drawn) | Abandon(d: Drawn)

  const EMPTY := World([], multiset{})

  /** At most width requests are between reading the count and inserting. */
  ghost predicate Enabled(w: World, st: Step, width: nat) {
    match st
    case Draw(_) => |w.inFlight| < width
    case Insert(d) => d in w.inFlight
    case Abandon(d) => d in w.inFlight
  }

  function Next(w: World, st: Step): World {
    match st
    case Draw(year) => w.(inFlight := w.inFlight + multiset{Drawn(year, |w.rows| + 1)})
    case Insert(d) => World(w.rows + [d], w.inFlight - multiset{d})
    case Abandon(d) => w.(inFlight := w.inFlight - multiset{d})
  }

  function After(ss: seq<Step>): World {
    if ss == [] then EMPTY else Next(After(ss[..|ss| - 1]), ss[|ss| - 1])
  }

  ghost predicate Legal(ss: seq<Step>, width: nat) {
    ss == [] || (Legal(ss[..|ss| - 1], width) && Enabled(After(ss[..|ss| - 1]), ss[|ss| - 1], width))
  }

  /** Another row was inserted between this request's count and its insert. */
  predicate Stale(w: World, st: Step) {
    st.Insert? && st.d.count != |w.rows| + 1
  }

  ghost predicate NeverStale(ss: seq<Step>) {
    ss == [] || (NeverStale(ss[..|ss| - 1]) && !Stale(After(ss[..|ss| - 1]), ss[|ss| - 1]))
  }

  ghost predicate CountsDistinct(rows: seq<Drawn>) {
    forall i, j :: 0 <= i < j < |rows| ==> rows[i].count != rows[j].count
  }

  /** Nothing was drawn at a count beyond the next one. */
  ghost predicate DrawnInRange(w: World) {
    && (forall d :: d in w.inFlight ==> 1 <= d.count <= |w.rows| + 1)
    && (forall i :: 0 <= i < |w.rows| ==> 1 <= w.rows[i].count <= i + 1)
  }

  ghost predicate Consecutive(rows: seq<Drawn>) {
    forall i :: 0 <= i < |rows| ==> rows[i].count == i + 1
  }

  lemma StepKeepsInRange(w: World, st: Step, width: nat)
    requires DrawnInRange(w) && |w.inFlight| <= width && Enabled(w, st, width)
    ensures DrawnInRange(Next(w, st)) && |Next(w, st).inFlight| <= width
  {
  }

  lemma {:induction false} RunIsInRange(ss: seq<Step>, width: nat)
    requires Legal(ss, width)
    ensures DrawnInRange(After(ss)) && |After(ss).inFlight| <= width
  {
    if ss != [] {
      RunIsInRange(ss[..|ss| - 1], width);
      StepKeepsInRange(After(ss[..|ss| - 1]), ss[|ss| - 1], width);
    }
  }

  /** In overlapping runs the counts drawn are all different exactly if no insert is stale. */
  lemma {:induction false} CountsDistinctIff(ss: seq<Step>, width: nat)
    requires Legal(ss, width)
    ensures CountsDistinct(After(ss).rows) <==> NeverStale(ss)
    ensures NeverStale(ss) ==> Consecutive(After(ss).rows)
  {
    if ss != [] {
      var w, st := After(ss[..|ss| - 1]), ss[|ss| - 1];
      CountsDistinctIff(ss[..|ss| - 1], width);
      RunIsInRange(ss[..|ss| - 1], width);
      if NeverStale(ss[..|ss| - 1]) {
        ConsecutiveUnlessStale(w, st, width);
      } else {
        DuplicatesStay(w, st);
      }
    }
  }

  lemma {:induction false} ConsecutiveUnlessStale(w: World, st: Step, width: nat)
    requires DrawnInRange(w) && Enabled(w, st, width) && Consecutive(w.rows)
    ensures Consecutive(Next(w, st).rows) <==> !Stale(w, st)
    ensures CountsDistinct(Next(w, st).rows) <==> !Stale(w, st)
  {
    if Stale(w, st) {
      var rows := Next(w, st).rows;
      assert rows[st.d.count - 1].count == rows[|w.rows|].count;
    }
  }

  lemma {:induction false} DuplicatesStay(w: World, st: Step)
    requires !CountsDistinct(w.rows)
    ensures !CountsDistinct(Next(w, st).rows)
  {
    var i, j :| 0 <= i < j < |w.rows| && w.rows[i].count == w.rows[j].count;
    assert Next(w, st).rows[i].count == Next(w, st).rows[j].count;
  }

  /** So the printed invoice numbers of a year differ exactly in runs without a stale insert, and student codes too. */
  lemma {:induction false} PrintedNumbersDistinctIff(ss: seq<Step>, width: nat, year: nat)
    requires Legal(ss, width) && forall i :: 0 <= i < |After(ss).rows| ==> After(ss).rows[i].year == year
    ensures (forall i, j :: 0 <= i < j < |After(ss).rows| ==>
               InvoiceNumber(year, After(ss).rows[i].count) != InvoiceNumber(year, After(ss).rows[j].count))
            <==> NeverStale(ss)
    ensures (forall i, j :: 0 <= i < j < |After(ss).rows| ==>
               StudentCode(After(ss).rows[i].count) != StudentCode(After(ss).rows[j].count))
            <==> NeverStale(ss)
  {
    CountsDistinctIff(ss, width);
    var rows := After(ss).rows;
    forall i, j | 0 <= i < j < |rows|
      ensures InvoiceNumber(year, rows[i].count) == InvoiceNumber(year, rows[j].count)
              <==> rows[i].count == rows[j].count
      ensures StudentCode(rows[i].count) == StudentCode(rows[j].count) <==> rows[i].count == rows[j].count
    {
      InvoiceNumberInjective(year, rows[i].count, year, rows[j].count);
      StudentCodeInjective(rows[i].count, rows[j].count);
    }
  }

  // ----- how often one number can be given -----

  function Given(rows: seq<Drawn>, d: Drawn): nat {
    multiset(rows)[d]
  }

  /** At most width rows ever get the same number, so with one request at a time all differ. */
  lemma {:induction false} GivenAtMostWidth(ss: seq<Step>, width: nat, d: Drawn)
    requires Legal(ss, width)
    ensures Given(After(ss).rows, d) + After(ss).inFlight[d] <= width
  {
    if ss != [] {
      GivenAtMostWidth(ss[..|ss| - 1], width, d);
      RunIsInRange(ss[..|ss| - 1], width);
      StepKeepsGiven(After(ss[..|ss| - 1]), ss[|ss| - 1], width, d);
    }
  }

  lemma {:induction false} StepKeepsGiven(w: World, st: Step, width: nat, d: Drawn)
    requires DrawnInRange(w) && Enabled(w, st, width) && Given(w.rows, d) + w.inFlight[d] <= width
    ensures Given(Next(w, st).rows, d) + Next(w, st).inFlight[d] <= width
  {
    if st.Draw? && d == Drawn(st.year, |w.rows| + 1) {
      NotGivenYet(w, d);
      InFlightAtMost(w.inFlight, d);
    }
  }

  lemma NotGivenYet(w: World, d: Drawn)
    requires DrawnInRange(w) && d.count == |w.rows| + 1
    ensures Given(w.rows, d) == 0
  {
  }

  lemma {:induction false} InFlightAtMost(m: multiset<Drawn>, d: Drawn)
    ensures m[d] <= |m|
  {
    assert |m[d := 0]| == |m| - m[d];
  }

  function Draws(year: nat, n: nat): seq<Step> {
    if n == 0 then [] else Draws(year, n - 1) + [Draw(year)]
  }

  /** Requests that all read the empty table's count before any of them inserts. */
  function Rush(d: Drawn, draws: nat, inserts: nat): seq<Step> {
    if inserts == 0 then Draws(d.year, draws) else Rush(d, draws, inserts - 1) + [Insert(d)]
  }

  /** n rows, and m requests in flight, all with this number. */
  ghost predicate AllAre(w: World, d: Drawn, n: nat, m: nat) {
    |w.rows| == n && (forall i :: 0 <= i < n ==> w.rows[i] == d) && w.inFlight[d] == m == |w.inFlight|
  }

  lemma {:induction false} DrawOne(ss: seq<Step>, d: Drawn, m: nat, width: nat)
    requires Legal(ss, width) && AllAre(After(ss), d, 0, m) && m < width && d.count == 1
    ensures Legal(ss + [Draw(d.year)], width) && AllAre(After(ss + [Draw(d.year)]), d, 0, m + 1)
  {
    assert (ss + [Draw(d.year)])[..|ss|] == ss;
  }

  lemma {:induction false} InsertOne(ss: seq<Step>, d: Drawn, n: nat, m: nat, width: nat)
    requires Legal(ss, width) && AllAre(After(ss), d, n, m) && m > 0
    ensures Legal(ss + [Insert(d)], width) && AllAre(After(ss + [Insert(d)]), d, n + 1, m - 1)
  {
    assert (ss + [Insert(d)])[..|ss|] == ss;
  }

  lemma {:induction false} DrawsGive(d: Drawn, n: nat, width: nat)
    requires d.count == 1 && n <= width
    ensures Legal(Draws(d.year, n), width) && AllAre(After(Draws(d.year, n)), d, 0, n)
  {
    if n > 0 {
      DrawsGive(d, n - 1, width);
      DrawOne(Draws(d.year, n - 1), d, n - 1, width);
    }
  }

  lemma {:induction false} RushGives(d: Drawn, draws: nat, inserts: nat, width: nat)
    requires d.count == 1 && inserts <= draws <= width
    ensures Legal(Rush(d, draws, inserts), width)
    ensures AllAre(After(Rush(d, draws, inserts)), d, inserts, draws - inserts)
  {
    if inserts == 0 {
      DrawsGive(d, draws, width);
    } else {
      RushGives(d, draws, inserts - 1, width);
      InsertOne(Rush(d, draws, inserts - 1), d, inserts - 1, draws - inserts + 1, width);
    }
  }

  /** That many rows with one number are reached. */
  lemma {:induction false} GivenWidthTimes(width: nat, year: nat)
    ensures exists ss :: Legal(ss, width) && Given(After(ss).rows, Drawn(year, 1)) == width
  {
    var d := Drawn(year, 1);
    RushGives(d, width, width, width);
    AllSame(After(Rush(d, width, width)).rows, d);
    assert Legal(Rush(d, width, width), width);
  }

  lemma {:induction false} AllSame(rows: seq<Drawn>, d: Drawn)
    requires forall i :: 0 <= i < |rows| ==> rows[i] == d
    ensures Given(rows, d) == |rows|
  {
    if rows != [] {
      AllSame(rows[1..], d);
      assert rows == [rows[0]] + rows[1..];
    }
  }
}
