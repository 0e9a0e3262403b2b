/** The per-branch and per-method breakdowns of OwnerService.getFinancialAnalytics. */
module BranchFinance {
  import opened Common
  import opened SeqSums

  /** name is None when the stored value is not a string. */
  datatype Branch = Branch(name: Option<string>, isMain: bool)

  /** tenants.branches as the driver may return it; JSON.parse is an input of the model. */
  datatype RawBranches =
    | Missing
    | EmptyText
    | JsonArray(branches: seq<Branch>)
    | TextOfArray(branches: seq<Branch>)
    | TextOfOtherJson
    | TextNotJson

  function ParseBranchesJson(raw: RawBranches): seq<Branch> {
    match raw
    case JsonArray(branches) => branches
    case TextOfArray(branches) => branches
    case _ => []
  }

  /** A stored array is used, as JSON or as text holding JSON; anything else counts as no branches. */
  lemma ParseMeans(raw: RawBranches)
    ensures raw.JsonArray? || raw.TextOfArray? ==> ParseBranchesJson(raw) == raw.branches
    ensures raw.Missing? || raw.EmptyText? || raw.TextOfOtherJson? || raw.TextNotJson? ==> ParseBranchesJson(raw) == []
  {
  }

  const UNASSIGNED := "Unassigned"

  /** branches.find((b) => b.isMain === true) ?? branches[0] */
  function MainBranch(branches: seq<Branch>): Option<Branch> {
    if FindMain(branches).Some? then FindMain(branches)
    else if branches != [] then Some(branches[0])
    else None
  }

  function FindMain(branches: seq<Branch>): Option<Branch> {
    if branches == [] then None else if branches[0].isMain then Some(branches[0]) else FindMain(branches[1..])
  }

  function Resolve(branches: seq<Branch>, branch: Option<string>): string {
    if branch.Some? then branch.value
    else
      var main := MainBranch(branches);
      if main.Some? && main.value.name.Some? then main.value.name.value else UNASSIGNED
  }

  /** A grouped row; amount is None where parseFloat gives NaN. */
  datatype Row = Row(branch: Option<string>, amount: Option<real>)

  function Num(x: Option<real>): real {
    if x.Some? then x.value else 0.0
  }

  datatype Entry = Entry(revenue: real, expenses: real)

  datatype Breakdown = Breakdown(branchName: string, revenue: real, expenses: real, netProfit: real)

  // ----- specification -----

  function ListedName(b: Branch): string {
    if b.name.Some? then b.name.value else UNASSIGNED
  }

  /** Map keys keep the order of first insertion. */
  function AddKey(keys: seq<string>, key: string): seq<string> {
    if key in keys then keys else keys + [key]
  }

  function AfterBranches(branches: seq<Branch>): seq<string> {
    if branches == [] then []
    else AddKey(AfterBranches(branches[..|branches| - 1]), ListedName(branches[|branches| - 1]))
  }

  function AfterRows(keys: seq<string>, branches: seq<Branch>, rows: seq<Row>): seq<string> {
    if rows == [] then keys
    else AddKey(AfterRows(keys, branches, rows[..|rows| - 1]), Resolve(branches, rows[|rows| - 1].branch))
  }

  function BranchNames(branches: seq<Branch>, income: seq<Row>, expenses: seq<Row>): seq<string> {
    AfterRows(AfterRows(AfterBranches(branches), branches, income), branches, expenses)
  }

  ghost function AmountWeight(): Row -> real {
    (r: Row) => Num(r.amount)
  }

  ghost function LandsOn(branches: seq<Branch>, name: string): Row -> real {
    (r: Row) => if Resolve(branches, r.branch) == name then Num(r.amount) else 0.0
  }

  ghost function Total(branches: seq<Branch>, rows: seq<Row>, name: string): real {
    SumOf(rows, LandsOn(branches, name))
  }

  ghost predicate IsBreakdown(branches: seq<Branch>, income: seq<Row>, expenses: seq<Row>, out: seq<Breakdown>) {
    var names := BranchNames(branches, income, expenses);
    && |out| == |names|
    && forall i :: 0 <= i < |out| ==>
         && out[i].branchName == names[i]
         && out[i].revenue == Total(branches, income, names[i])
         && out[i].expenses == Total(branches, expenses, names[i])
         && out[i].netProfit == out[i].revenue - out[i].expenses
  }

  // ----- the loops -----

  ghost predicate Unique(keys: seq<string>) {
    forall i, j :: 0 <= i < j < |keys| ==> keys[i] != keys[j]
  }

  ghost predicate SameKeys(keys: seq<string>, branchMap: map<string, Entry>) {
    forall k :: k in keys <==> k in branchMap
  }

  /** branchMap.get(name) ?? { revenue: 0, expenses: 0 } */
  function EntryAt(branchMap: map<string, Entry>, name: string): Entry {
    if name in branchMap then branchMap[name] else Entry(0.0, 0.0)
  }

  /** Every name's entry holds the totals of the rows processed so far. */
  ghost predicate Accounts(branchMap: map<string, Entry>, branches: seq<Branch>, income: seq<Row>, expenses: seq<Row>) {
    forall n :: EntryAt(branchMap, n) == Entry(Total(branches, income, n), Total(branches, expenses, n))
  }

  lemma {:induction false} AddIncomeRow(branchMap: map<string, Entry>, branches: seq<Branch>, income: seq<Row>,
                                        expenses: seq<Row>, r: Row)
    requires Accounts(branchMap, branches, income, expenses)
    ensures var name := Resolve(branches, r.branch); var entry := EntryAt(branchMap, name);
            Accounts(branchMap[name := entry.(revenue := entry.revenue + Num(r.amount))],
                     branches, income + [r], expenses)
  {
    forall n ensures Total(branches, income + [r], n) == Total(branches, income, n) + LandsOn(branches, n)(r) {
      SumSnoc(income, r, LandsOn(branches, n));
    }
  }

  lemma {:induction false} AddExpenseRow(branchMap: map<string, Entry>, branches: seq<Branch>,
                                         income: seq<Row>, expenses: seq<Row>, r: Row)
    requires Accounts(branchMap, branches, income, expenses)
    ensures var name := Resolve(branches, r.branch); var entry := EntryAt(branchMap, name);
            Accounts(branchMap[name := entry.(expenses := entry.expenses + Num(r.amount))],
                     branches, income, expenses + [r])
  {
    forall n ensures Total(branches, expenses + [r], n) == Total(branches, expenses, n) + LandsOn(branches, n)(r) {
      SumSnoc(expenses, r, LandsOn(branches, n));
    }
  }

  method ListBranches(branches: seq<Branch>) returns (keys: seq<string>, branchMap: map<string, Entry>)
    ensures keys == AfterBranches(branches) && SameKeys(keys, branchMap)
    ensures Accounts(branchMap, branches, [], [])
  {
    keys, branchMap := [], map[];
    for k := 0 to |branches|
      invariant keys == AfterBranches(branches[..k]) && SameKeys(keys, branchMap)
      invariant forall n :: n in branchMap ==> branchMap[n] == Entry(0.0, 0.0)
    {
      assert branches[..k + 1][..k] == branches[..k];
      var name := ListedName(branches[k]);
      keys := AddKey(keys, name);
      branchMap := branchMap[name := Entry(0.0, 0.0)];
    }
    assert branches[..|branches|] == branches;
  }

  method AddIncome(branches: seq<Branch>, income: seq<Row>, keys0: seq<string>, map0: map<string, Entry>)
    returns (keys: seq<string>, branchMap: map<string, Entry>)
    requires SameKeys(keys0, map0) && Accounts(map0, branches, [], [])
    ensures keys == AfterRows(keys0, branches, income) && SameKeys(keys, branchMap)
    ensures Accounts(branchMap, branches, income, [])
  {
    keys, branchMap := keys0, map0;
    for k := 0 to |income|
      invariant keys == AfterRows(keys0, branches, income[..k]) && SameKeys(keys, branchMap)
      invariant Accounts(branchMap, branches, income[..k], [])
    {
      var row := income[k];
      assert income[..k + 1] == income[..k] + [row] && income[..k + 1][..k] == income[..k];
      AddIncomeRow(branchMap, branches, income[..k], [], row);
      var name := Resolve(branches, row.branch);
      var entry := EntryAt(branchMap, name);
      keys := AddKey(keys, name);
      branchMap := branchMap[name := entry.(revenue := entry.revenue + Num(row.amount))];
    }
    assert income[..|income|] == income;
  }

  method AddExpenses(branches: seq<Branch>, ghost income: seq<Row>, expenses: seq<Row>, keys0: seq<string>,
                     map0: map<string, Entry>)
    returns (keys: seq<string>, branchMap: map<string, Entry>)
    requires SameKeys(keys0, map0) && Accounts(map0, branches, income, [])
    ensures keys == AfterRows(keys0, branches, expenses) && SameKeys(keys, branchMap)
    ensures Accounts(branchMap, branches, income, expenses)
  {
    keys, branchMap := keys0, map0;
    for k := 0 to |expenses|
      invariant keys == AfterRows(keys0, branches, expenses[..k]) && SameKeys(keys, branchMap)
      invariant Accounts(branchMap, branches, income, expenses[..k])
    {
      var row := expenses[k];
      assert expenses[..k + 1] == expenses[..k] + [row] && expenses[..k + 1][..k] == expenses[..k];
      AddExpenseRow(branchMap, branches, income, expenses[..k], row);
      var name := Resolve(branches, row.branch);
      var entry := EntryAt(branchMap, name);
      keys := AddKey(keys, name);
      branchMap := branchMap[name := entry.(expenses := entry.expenses + Num(row.amount))];
    }
    assert expenses[..|expenses|] == expenses;
  }

  /** Array.from(branchMap.entries()).map(...) */
  function ToLines(keys: seq<string>, branchMap: map<string, Entry>): seq<Breakdown> {
    seq(|keys|, i requires 0 <= i < |keys| =>
      var v := EntryAt(branchMap, keys[i]);
      Breakdown(keys[i], v.revenue, v.expenses, v.revenue - v.expenses))
  }

  method BranchBreakdown(raw: RawBranches, income: seq<Row>, expenses: seq<Row>) returns (out: seq<Breakdown>)
    ensures IsBreakdown(ParseBranchesJson(raw), income, expenses, out)
    ensures ByFallback(ParseBranchesJson(raw), income, expenses, out)
    ensures LinesInOrder(ParseBranchesJson(raw), income, expenses, out)
  {
    var branches := ParseBranchesJson(raw);
    var keys, branchMap := ListBranches(branches);
    keys, branchMap := AddIncome(branches, income, keys, branchMap);
    keys, branchMap := AddExpenses(branches, income, expenses, keys, branchMap);
    out := ToLines(keys, branchMap);
    BreakdownIsByFallback(branches, income, expenses, out);
    BreakdownIsInOrder(branches, income, expenses, out);
  }

  // ----- conservation -----

  ghost predicate Covers(keys: seq<string>, branches: seq<Branch>, rows: seq<Row>) {
    forall i :: 0 <= i < |rows| ==> Resolve(branches, rows[i].branch) in keys
  }

  lemma {:induction false} ListedAreUnique(branches: seq<Branch>)
    ensures Unique(AfterBranches(branches))
    ensures forall i :: 0 <= i < |branches| ==> ListedName(branches[i]) in AfterBranches(branches)
  {
    if branches != [] {
      var front := branches[..|branches| - 1];
      ListedAreUnique(front);
      assert forall i :: 0 <= i < |front| ==> front[i] == branches[i];
    }
  }

  lemma AddKeyAdds(keys: seq<string>, key: string)
    requires Unique(keys)
    ensures Unique(AddKey(keys, key)) && forall k :: k in AddKey(keys, key) <==> k in keys || k == key
  {
  }

  lemma {:induction false} RowsAreCovered(keys: seq<string>, branches: seq<Branch>, rows: seq<Row>)
    requires Unique(keys)
    ensures Unique(AfterRows(keys, branches, rows)) && Covers(AfterRows(keys, branches, rows), branches, rows)
    ensures forall k :: k in keys ==> k in AfterRows(keys, branches, rows)
  {
    if rows != [] {
      var n := |rows| - 1;
      RowsAreCovered(keys, branches, rows[..n]);
      AddKeyAdds(AfterRows(keys, branches, rows[..n]), Resolve(branches, rows[n].branch));
      forall i | 0 <= i < |rows| ensures Resolve(branches, rows[i].branch) in AfterRows(keys, branches, rows) {
        if i < n {
          assert rows[..n][i] == rows[i];
        }
      }
    }
  }

  lemma {:induction false} NamesCoverRows(branches: seq<Branch>, income: seq<Row>, expenses: seq<Row>)
    ensures var names := BranchNames(branches, income, expenses);
            Unique(names) && Covers(names, branches, income) && Covers(names, branches, expenses)
  {
    ListedAreUnique(branches);
    var keys := AfterBranches(branches);
    RowsAreCovered(keys, branches, income);
    RowsAreCovered(AfterRows(keys, branches, income), branches, expenses);
  }

  ghost function TotalAt(branches: seq<Branch>, rows: seq<Row>): string -> real {
    (name: string) => Total(branches, rows, name)
  }

  ghost function OnlyAt(name: string, x: real): string -> real {
    (n: string) => if n == name then x else 0.0
  }

  lemma {:induction false} SumOnlyAt(names: seq<string>, name: string, x: real)
    requires Unique(names)
    ensures SumOf(names, OnlyAt(name, x)) == if name in names then x else 0.0
  {
    if names != [] {
      assert Unique(names[1..]);
      SumOnlyAt(names[1..], name, x);
      assert name in names <==> name == names[0] || name in names[1..];
      assert name == names[0] ==> name !in names[1..];
    }
  }

  /** Summing by branch and then over branches is summing over rows. */
  lemma {:induction false} SumByBranch(names: seq<string>, branches: seq<Branch>, rows: seq<Row>)
    requires Unique(names) && Covers(names, branches, rows)
    ensures SumOf(names, TotalAt(branches, rows)) == SumOf(rows, AmountWeight())
  {
    if rows == [] {
      SumOfZeros(names, TotalAt(branches, rows));
    } else {
      var r, rest := rows[0], rows[1..];
      var only := OnlyAt(Resolve(branches, r.branch), Num(r.amount));
      assert Covers(names, branches, rest) by {
        assert forall i :: 0 <= i < |rest| ==> rest[i] == rows[i + 1];
      }
      SumByBranch(names, branches, rest);
      SumSplits(names, TotalAt(branches, rows), only, TotalAt(branches, rest));
      SumOnlyAt(names, Resolve(branches, r.branch), Num(r.amount));
    }
  }

  ghost function RevenueOf(): Breakdown -> real {
    (b: Breakdown) => b.revenue
  }

  ghost function ExpensesOf(): Breakdown -> real {
    (b: Breakdown) => b.expenses
  }

  ghost function NetProfitOf(): Breakdown -> real {
    (b: Breakdown) => b.netProfit
  }

  /**
    Whatever the branch list holds (duplicates, missing names, nothing) and whatever branches the rows name:
    each branch has one line, and revenue, expenses and net profit add up to those of all rows.
   */
  lemma {:induction false} BreakdownConserves(branches: seq<Branch>, income: seq<Row>, expenses: seq<Row>,
                                              out: seq<Breakdown>)
    requires IsBreakdown(branches, income, expenses, out)
    ensures forall i, j :: 0 <= i < j < |out| ==> out[i].branchName != out[j].branchName
    ensures SumOf(out, RevenueOf()) == SumOf(income, AmountWeight())
    ensures SumOf(out, ExpensesOf()) == SumOf(expenses, AmountWeight())
    ensures SumOf(out, NetProfitOf()) == SumOf(income, AmountWeight()) - SumOf(expenses, AmountWeight())
  {
    var names := BranchNames(branches, income, expenses);
    NamesCoverRows(branches, income, expenses);
    SumByBranch(names, branches, income);
    SumByBranch(names, branches, expenses);
    SumSame(out, names, RevenueOf(), TotalAt(branches, income));
    SumSame(out, names, ExpensesOf(), TotalAt(branches, expenses));
    SumSplits(out, RevenueOf(), NetProfitOf(), ExpensesOf());
  }

  /** When the rows group the same payments and salaries as the totals, branch profits add up to the top-level one. */
  lemma {:induction false} NetProfitsAddUp(branches: seq<Branch>, income: seq<Row>, expenses: seq<Row>,
                                           out: seq<Breakdown>,
                        totalIncome: real, totalExpenses: real)
    requires IsBreakdown(branches, income, expenses, out)
    requires totalIncome == SumOf(income, AmountWeight()) && totalExpenses == SumOf(expenses, AmountWeight())
    ensures SumOf(out, NetProfitOf()) == totalIncome - totalExpenses
  {
    BreakdownConserves(branches, income, expenses, out);
  }

  // ----- rows without a branch -----

  ghost function UnnamedWeight(): Row -> real {
    (r: Row) => if r.branch.None? then Num(r.amount) else 0.0
  }

  ghost function NamedWeight(name: string): Row -> real {
    (r: Row) => if r.branch == Some(name) then Num(r.amount) else 0.0
  }

  /** A branch's figure is what names it, plus, for the fallback branch only, everything that names no branch. */
  lemma {:induction false} UnnamedRowsLandOnFallback(branches: seq<Branch>, rows: seq<Row>, name: string)
    ensures Total(branches, rows, name)
            == SumOf(rows, NamedWeight(name))
               + if name == Resolve(branches, None) then SumOf(rows, UnnamedWeight()) else 0.0
  {
    if name == Resolve(branches, None) {
      SumSplits(rows, LandsOn(branches, name), NamedWeight(name), UnnamedWeight());
    } else {
      SumSame(rows, rows, LandsOn(branches, name), NamedWeight(name));
    }
  }

  lemma {:induction false} MainIndex(branches: seq<Branch>) returns (i: nat)
    requires FindMain(branches).Some?
    ensures i < |branches| && branches[i].isMain && FindMain(branches) == Some(branches[i])
    ensures forall j :: 0 <= j < i ==> !branches[j].isMain
  {
    if branches[0].isMain {
      i := 0;
    } else {
      var j := MainIndex(branches[1..]);
      i := j + 1;
    }
  }

  /** branches.find(isMain) or the first one. */
  ghost predicate IsMainAt(branches: seq<Branch>, i: int) {
    && 0 <= i < |branches|
    && if exists j :: 0 <= j < |branches| && branches[j].isMain
       then branches[i].isMain && forall j :: 0 <= j < i ==> !branches[j].isMain
       else i == 0
  }

  /** The name that rows without a branch go to: the main branch's, or "Unassigned" if it has none or none is listed. */
  ghost predicate IsFallback(branches: seq<Branch>, name: string) {
    if branches == [] then name == "Unassigned"
    else
      exists i :: IsMainAt(branches, i)
                  && name == match branches[i].name { case Some(text) => text case None => "Unassigned" }
  }

  lemma {:induction false} FallbackIs(branches: seq<Branch>, name: string)
    ensures name == Resolve(branches, None) <==> IsFallback(branches, name)
    ensures Resolve(branches, Some(name)) == name
  {
    if FindMain(branches).Some? {
      var i := MainIndex(branches);
      assert IsMainAt(branches, i);
    } else {
      NoMain(branches);
      if branches != [] {
        assert IsMainAt(branches, 0);
      }
    }
  }

  lemma {:induction false} NoMain(branches: seq<Branch>)
    requires FindMain(branches).None?
    ensures forall j :: 0 <= j < |branches| ==> !branches[j].isMain
  {
    if branches != [] {
      NoMain(branches[1..]);
      assert forall j :: 1 <= j < |branches| ==> branches[j] == branches[1..][j - 1];
    }
  }

  /** The fallback is a listed branch whenever any is listed, so rows without a branch open no line of their own. */
  lemma {:induction false} FallbackIsListed(branches: seq<Branch>)
    requires branches != []
    ensures Resolve(branches, None) in AfterBranches(branches)
  {
    ListedAreUnique(branches);
    if FindMain(branches).Some? {
      var i := MainIndex(branches);
      assert Resolve(branches, None) == ListedName(branches[i]);
    } else {
      assert Resolve(branches, None) == ListedName(branches[0]);
    }
  }

  /** What a row adds to the line of this name, when rows without a branch go to the fallback's. */
  ghost function AddedTo(name: string, fallback: string): Row -> real {
    (r: Row) =>
      if r.branch == Some(name) || (r.branch == None && name == fallback)
      then (match r.amount case Some(x) => x case None => 0.0)
      else 0.0
  }

  /** Each line holds every row naming it, and the fallback's line also every row naming no branch. */
  ghost predicate ByFallback(branches: seq<Branch>, income: seq<Row>, expenses: seq<Row>, out: seq<Breakdown>) {
    forall fallback, i :: IsFallback(branches, fallback) && 0 <= i < |out| ==>
      && out[i].revenue == SumOf(income, AddedTo(out[i].branchName, fallback))
      && out[i].expenses == SumOf(expenses, AddedTo(out[i].branchName, fallback))
      && out[i].netProfit == out[i].revenue - out[i].expenses
  }

  lemma {:induction false} BreakdownIsByFallback(branches: seq<Branch>, income: seq<Row>, expenses: seq<Row>,
                                                 out: seq<Breakdown>)
    requires IsBreakdown(branches, income, expenses, out)
    ensures ByFallback(branches, income, expenses, out)
  {
    forall fallback, i | IsFallback(branches, fallback) && 0 <= i < |out|
      ensures out[i].revenue == SumOf(income, AddedTo(out[i].branchName, fallback))
      ensures out[i].expenses == SumOf(expenses, AddedTo(out[i].branchName, fallback))
    {
      FallbackIs(branches, fallback);
      var name := out[i].branchName;
      SumSame(income, income, LandsOn(branches, name), AddedTo(name, fallback));
      SumSame(expenses, expenses, LandsOn(branches, name), AddedTo(name, fallback));
    }
  }

  // ----- which lines there are, and in which order -----

  /** The names in the order the loops meet them: listed branches, then income rows, then expense rows. */
  function Met(branches: seq<Branch>, income: seq<Row>, expenses: seq<Row>, fallback: string): seq<string> {
    BranchesMet(branches) + RowsMet(income, fallback) + RowsMet(expenses, fallback)
  }

  function BranchesMet(branches: seq<Branch>): seq<string> {
    seq(|branches|, i requires 0 <= i < |branches| =>
      match branches[i].name case Some(text) => text case None => "Unassigned")
  }

  function RowsMet(rows: seq<Row>, fallback: string): seq<string> {
    seq(|rows|, i requires 0 <= i < |rows| => match rows[i].branch case Some(text) => text case None => fallback)
  }

  ghost predicate MetBefore(all: seq<string>, key: string, b: int) {
    exists a :: 0 <= a < b && a < |all| && all[a] == key
  }

  /** Each name once, in the order of first appearance. */
  ghost predicate FirstAppearances(keys: seq<string>, all: seq<string>) {
    && Unique(keys)
    && (forall key :: key in keys <==> key in all)
    && (forall i, j, b :: 0 <= i < j < |keys| && 0 <= b < |all| && all[b] == keys[j] ==> MetBefore(all, keys[i], b))
  }

  lemma {:induction false} AddKeyKeepsFirst(keys: seq<string>, all: seq<string>, key: string)
    requires FirstAppearances(keys, all)
    ensures FirstAppearances(AddKey(keys, key), all + [key])
  {
    var keys', all' := AddKey(keys, key), all + [key];
    assert forall a :: 0 <= a < |all| ==> all'[a] == all[a];
    forall i, j, b | 0 <= i < j < |keys'| && 0 <= b < |all'| && all'[b] == keys'[j]
      ensures MetBefore(all', keys'[i], b)
    {
      var a: int;
      if j < |keys| && b < |all| {
        assert keys[j] == all[b] && MetBefore(all, keys[i], b);
        a :| 0 <= a < b && a < |all| && all[a] == keys[i];
      } else {
        assert keys[i] in all;
        a :| 0 <= a < |all| && all[a] == keys[i];
        assert b == |all|;
      }
      assert all'[a] == keys'[i];
    }
  }

  lemma {:induction false} BranchesAreFirst(branches: seq<Branch>)
    ensures FirstAppearances(AfterBranches(branches), BranchesMet(branches))
  {
    if branches != [] {
      var n := |branches| - 1;
      BranchesAreFirst(branches[..n]);
      AddKeyKeepsFirst(AfterBranches(branches[..n]), BranchesMet(branches[..n]), ListedName(branches[n]));
      assert BranchesMet(branches) == BranchesMet(branches[..n]) + [ListedName(branches[n])];
    }
  }

  lemma {:induction false} RowsAreFirst(keys: seq<string>, all: seq<string>, branches: seq<Branch>, rows: seq<Row>)
    requires FirstAppearances(keys, all)
    ensures FirstAppearances(AfterRows(keys, branches, rows), all + RowsMet(rows, Resolve(branches, None)))
  {
    var fallback := Resolve(branches, None);
    if rows == [] {
      assert all + RowsMet(rows, fallback) == all;
    } else {
      var n := |rows| - 1;
      var name := Resolve(branches, rows[n].branch);
      RowsAreFirst(keys, all, branches, rows[..n]);
      AddKeyKeepsFirst(AfterRows(keys, branches, rows[..n]), all + RowsMet(rows[..n], fallback), name);
      assert all + RowsMet(rows, fallback) == all + RowsMet(rows[..n], fallback) + [name];
    }
  }

  ghost predicate LinesInOrder(branches: seq<Branch>, income: seq<Row>, expenses: seq<Row>, out: seq<Breakdown>) {
    forall fallback :: IsFallback(branches, fallback) ==>
      FirstAppearances(NamesOf(out), Met(branches, income, expenses, fallback))
  }

  function NamesOf(out: seq<Breakdown>): seq<string> {
    seq(|out|, i requires 0 <= i < |out| => out[i].branchName)
  }

  lemma {:induction false} BreakdownIsInOrder(branches: seq<Branch>, income: seq<Row>, expenses: seq<Row>,
                                              out: seq<Breakdown>)
    requires IsBreakdown(branches, income, expenses, out)
    ensures LinesInOrder(branches, income, expenses, out)
  {
    var fallback, listed := Resolve(branches, None), AfterBranches(branches);
    BranchesAreFirst(branches);
    RowsAreFirst(listed, BranchesMet(branches), branches, income);
    RowsAreFirst(AfterRows(listed, branches, income), BranchesMet(branches) + RowsMet(income, fallback),
                 branches, expenses);
    assert NamesOf(out) == BranchNames(branches, income, expenses);
    forall name | IsFallback(branches, name) ensures name == fallback {
      FallbackIs(branches, name);
    }
  }

  // ----- payment methods -----

  datatype MethodRow = MethodRow(name: string, total: Option<real>)

  datatype MethodShare = MethodShare(name: string, amount: real, percent: int)

  function MethodTotal(rows: seq<MethodRow>): real {
    if rows == [] then 0.0 else MethodTotal(rows[..|rows| - 1]) + Num(rows[|rows| - 1].total)
  }

  function Share(amount: real, total: real): real
    requires total > 0.0
  {
    amount / total * 100.0
  }

  function MethodBreakdown(rows: seq<MethodRow>): seq<MethodShare> {
    var total := MethodTotal(rows);
    seq(|rows|, i requires 0 <= i < |rows| =>
      var amount := Num(rows[i].total);
      MethodShare(rows[i].name, amount, if total > 0.0 then Round(Share(amount, total)) else 0))
  }

  function SumPercents(shares: seq<MethodShare>): int {
    if shares == [] then 0 else SumPercents(shares[..|shares| - 1]) + shares[|shares| - 1].percent
  }

  lemma RoundWithinHalf(x: real)
    ensures x - 0.5 < Round(x) as real <= x + 0.5
  {
  }

  lemma {:induction false} ShareAdds(a: real, b: real, total: real)
    requires total > 0.0
    ensures Share(a + b, total) == Share(a, total) + Share(b, total)
  {
    assert (a + b) / total == a / total + b / total;
  }

  lemma {:induction false} ShareInRange(a: real, total: real)
    requires 0.0 <= a <= total && total > 0.0
    ensures 0.0 <= Share(a, total) <= 100.0
  {
    var q := a / total;
    assert q * total == a;
    assert q < 0.0 ==> q * total < 0.0;
    assert q > 1.0 ==> (q - 1.0) * total > 0.0;
  }

  lemma ShareOfAll(total: real)
    requires total > 0.0
    ensures Share(total, total) == 100.0
  {
  }

  ghost predicate NonNegative(rows: seq<MethodRow>) {
    forall i :: 0 <= i < |rows| ==> Num(rows[i].total) >= 0.0
  }

  lemma {:induction false} PartOfTotal(rows: seq<MethodRow>, i: nat)
    requires NonNegative(rows) && i < |rows|
    ensures 0.0 <= Num(rows[i].total) <= MethodTotal(rows)
  {
    TotalIsNonNegative(rows[..|rows| - 1]);
    if i < |rows| - 1 {
      PartOfTotal(rows[..|rows| - 1], i);
    }
  }

  lemma {:induction false} TotalIsNonNegative(rows: seq<MethodRow>)
    requires NonNegative(rows)
    ensures MethodTotal(rows) >= 0.0
  {
    if rows != [] {
      TotalIsNonNegative(rows[..|rows| - 1]);
    }
  }

  ghost predicate RoundedFrom(shares: seq<MethodShare>, rows: seq<MethodRow>, total: real)
    requires total > 0.0
  {
    |shares| == |rows| && forall i :: 0 <= i < |rows| ==> shares[i].percent == Round(Share(Num(rows[i].total), total))
  }

  /** n rounded shares differ from the exact sum by less than n/2 downwards and at most n/2 upwards. */
  lemma {:induction false} SumOfRounded(shares: seq<MethodShare>, rows: seq<MethodRow>, total: real)
    requires total > 0.0 && RoundedFrom(shares, rows, total)
    ensures var exact := Share(MethodTotal(rows), total); var n := |rows| as real;
            exact - n / 2.0 <= SumPercents(shares) as real <= exact + n / 2.0
    ensures rows != [] ==> Share(MethodTotal(rows), total) - |rows| as real / 2.0 < SumPercents(shares) as real
  {
    if rows != [] {
      var last := |rows| - 1;
      SumOfRounded(shares[..last], rows[..last], total);
      ShareAdds(MethodTotal(rows[..last]), Num(rows[last].total), total);
      RoundWithinHalf(Share(Num(rows[last].total), total));
    }
  }

  /** Each share keeps its method and amount; its percentage is the nearest to amount / total, 0 without a total. */
  lemma {:induction false} MethodShareMeans(rows: seq<MethodRow>, i: nat)
    requires i < |rows|
    ensures |MethodBreakdown(rows)| == |rows|
    ensures var total, share := MethodTotal(rows), MethodBreakdown(rows)[i];
            && share.name == rows[i].name
            && share.amount == (match rows[i].total case Some(x) => x case None => 0.0)
            && (total <= 0.0 ==> share.percent == 0)
            && (total > 0.0 ==>
                  (share.percent as real - 0.5) * total <= 100.0 * share.amount < (share.percent as real + 0.5) * total)
  {
    var total, amount := MethodTotal(rows), Num(rows[i].total);
    if total > 0.0 {
      PercentBounds(amount, total);
    }
  }

  lemma {:induction false} PercentBounds(amount: real, total: real)
    requires total > 0.0
    ensures var percent := Round(Share(amount, total)) as real;
            (percent - 0.5) * total <= 100.0 * amount < (percent + 0.5) * total
  {
    var x := Share(amount, total);
    var percent := Round(x) as real;
    RoundWithinHalf(x);
    ShareTimesTotal(amount, total);
    Scaled(percent - 0.5, x, total);
    Scaled(x, percent + 0.5, total);
  }

  lemma ShareTimesTotal(amount: real, total: real)
    requires total > 0.0
    ensures Share(amount, total) * total == 100.0 * amount
  {
  }

  lemma {:induction false} Scaled(a: real, b: real, t: real)
    requires t > 0.0 && a <= b
    ensures a * t <= b * t && (a < b ==> a * t < b * t)
  {
    var d := b - a;
    assert d * t >= 0.0 && (d > 0.0 ==> d * t > 0.0);
    assert b * t == a * t + d * t;
  }

  /** The total is over all methods, unreadable amounts counting as 0. */
  lemma {:induction false} MethodTotalIs(rows: seq<MethodRow>)
    ensures MethodTotal(rows) == SumOf(rows, (m: MethodRow) => match m.total case Some(x) => x case None => 0.0)
  {
    var w := (m: MethodRow) => match m.total case Some(x) => x case None => 0.0;
    if rows != [] {
      var front, last := rows[..|rows| - 1], rows[|rows| - 1];
      MethodTotalIs(front);
      SumSnoc(front, last, w);
      assert rows == front + [last];
    }
  }

  /** The percentages lie in 0..100 and sum to more than 100 - n/2 and at most 100 + n/2. */
  lemma {:induction false} PercentagesNearHundred(rows: seq<MethodRow>)
    requires NonNegative(rows) && MethodTotal(rows) > 0.0
    ensures forall i :: 0 <= i < |rows| ==> 0 <= MethodBreakdown(rows)[i].percent <= 100
    ensures 100.0 - |rows| as real / 2.0 < SumPercents(MethodBreakdown(rows)) as real <= 100.0 + |rows| as real / 2.0
  {
    var total := MethodTotal(rows);
    forall i | 0 <= i < |rows| ensures 0 <= MethodBreakdown(rows)[i].percent <= 100 {
      PartOfTotal(rows, i);
      ShareInRange(Num(rows[i].total), total);
    }
    SumOfRounded(MethodBreakdown(rows), rows, total);
    ShareOfAll(total);
  }
}
