/** The club's constants and its receipts totaliser (rbc.py). */
module Rbc {
  import opened Base
  import opened Strings

  /** Field separator of the applicant file. */
  const Separator: char := '|'
  /** Keys of the two indexes the extra-fees gatherer returns. */
  const NameKey := "by_name"
  const CategoryKey := "by_category"
  /** Contact groups of the contacts export. */
  const ApplicantGroup := "applicant"
  const MemberGroup := "LIST"
  const Dock := "DockUsers"
  const Kayak := "Kayak"
  const Mooring := "moorings"
  const DockFee := 75
  const KayakFee := 70

  /** The group set as the source spells it: a missing comma makes Python
      concatenate "applicant," and "DockUsers" into one literal. */
  const GoogleGroupsAsWritten: set<string> :=
    {"applicant,DockUsers", "Kayak", "LIST", "moorings", "Officers", "Secretary", "member"}

  /** The group set with the comma restored. */
  const GoogleGroups: set<string> :=
    {"applicant", "DockUsers", "Kayak", "LIST", "moorings", "Officers", "Secretary", "member"}

  lemma GoogleGroupsAsWrittenMisses()
    ensures ApplicantGroup !in GoogleGroupsAsWritten && Dock !in GoogleGroupsAsWritten
    ensures "applicant,DockUsers" in GoogleGroupsAsWritten
    ensures |GoogleGroupsAsWritten| == 7
  {
  }

  lemma GoogleGroupsHoldsTheGroupsInUse()
    ensures ApplicantGroup in GoogleGroups && Dock in GoogleGroups && Kayak in GoogleGroups
    ensures MemberGroup in GoogleGroups && Mooring in GoogleGroups
    ensures GoogleGroups == GoogleGroupsAsWritten - {"applicant,DockUsers"} + {ApplicantGroup, Dock}
  {
  }

  // ---------------------------------------------------------------- receipts

  const ReceiptsHeader := "Fees taken in to date:"

  function SubTotalLine(n: int): string
  {
    "    SubTotal            --- $" + IntToStr(n)
  }

  function GrandTotalLine(n: int): string
  {
    "\nGrand Total to Date:    --- ---- $" + IntToStr(n)
  }

  /** The money a receipts line carries: int() of columns 23 to 27 of the
      right-stripped line, None where Python raises ValueError. */
  function Amount(line: string): Option<int>
  {
    ParseInt(Slice(RStrip(line), 23, 28))
  }

  /** A section break: "---" in columns 24 to 26. */
  predicate IsBreak(line: string)
  {
    Slice(RStrip(line), 24, 27) == "---"
  }

  /** The totaliser's running state: grand total, running subtotal, the
      subtotals already emitted, and the lines that carried no amount. */
  datatype Tally = Tally(total: int, subtotal: int, emitted: seq<int>, invalid: seq<string>)

  /** One line of the receipts file. A section break with a non-zero running
      subtotal emits and resets it before the line's own amount is looked at;
      a line without an amount is recorded as invalid and adds nothing. */
  function Step(t: Tally, line: string): (u: Tally)
    ensures IsBreak(line) && t.subtotal != 0 ==>
              u.emitted == t.emitted + [t.subtotal] && u.subtotal == Contribution(line)
    ensures !(IsBreak(line) && t.subtotal != 0) ==>
              u.emitted == t.emitted && u.subtotal == t.subtotal + Contribution(line)
    ensures u.total == t.total + Contribution(line)
    ensures u.invalid == t.invalid + Rejected(line)
  {
    var t1 := if IsBreak(line) && t.subtotal != 0
              then t.(emitted := t.emitted + [t.subtotal], subtotal := 0)
              else t;
    match Amount(line)
    case None => t1.(invalid := t1.invalid + [RStrip(line)])
    case Some(a) => t1.(total := t1.total + a, subtotal := t1.subtotal + a)
  }

  /** The state after the lines, read in order from a fresh start. */
  function TallyOf(lines: seq<string>): Tally
  {
    if lines == [] then Tally(0, 0, [], [])
    else Step(TallyOf(lines[..|lines| - 1]), lines[|lines| - 1])
  }

  /** Every subtotal the report shows: those emitted at breaks, then the final
      running subtotal when it is not zero. */
  function Subtotals(lines: seq<string>): seq<int>
  {
    Shown(TallyOf(lines))
  }

  function Shown(t: Tally): seq<int>
  {
    t.emitted + (if t.subtotal != 0 then [t.subtotal] else [])
  }

  /** The report printed from the state after the last line. */
  function ReportOf(t: Tally): seq<string>
  {
    [ReceiptsHeader] + SubTotalLines(Shown(t)) + [GrandTotalLine(t.total)]
  }

  /** One report line per subtotal, in order. */
  function SubTotalLines(subs: seq<int>): seq<string>
  {
    if subs == [] then []
    else SubTotalLines(subs[..|subs| - 1]) + [SubTotalLine(subs[|subs| - 1])]
  }

  lemma {:induction false} SubTotalLinesEach(subs: seq<int>)
    ensures |SubTotalLines(subs)| == |subs|
    ensures forall i :: 0 <= i < |subs| ==> SubTotalLines(subs)[i] == SubTotalLine(subs[i])
  {
    if subs != [] {
      var p := subs[..|subs| - 1];
      SubTotalLinesEach(p);
      assert SubTotalLines(subs) == SubTotalLines(p) + [SubTotalLine(subs[|subs| - 1])];
      forall i | 0 <= i < |subs|
        ensures SubTotalLines(subs)[i] == SubTotalLine(subs[i])
      {
        if i < |p| {
          assert subs[i] == p[i];
        }
      }
    }
  }

  /** The list fee_totals returns. */
  function FeeReport(lines: seq<string>): (r: seq<string>)
    ensures |r| >= 2 && r[0] == ReceiptsHeader
    ensures r[|r| - 1] == GrandTotalLine(SumAmounts(lines))
  {
    TallyMatchesReference(lines);
    ReportOf(TallyOf(lines))
  }

  /** What one line adds to the grand total, and what it adds to the invalid lines. */
  function Contribution(line: string): int
  {
    if Amount(line).Some? then Amount(line).value else 0
  }

  function Rejected(line: string): seq<string>
  {
    if Amount(line).None? then [RStrip(line)] else []
  }

  /** Reference definitions, read from the front: the sum of the amounts of
      the lines that carry one, and the lines that do not. */
  function SumAmounts(lines: seq<string>): int
  {
    if lines == [] then 0 else Contribution(lines[0]) + SumAmounts(lines[1..])
  }

  function Unparsed(lines: seq<string>): seq<string>
  {
    if lines == [] then [] else Rejected(lines[0]) + Unparsed(lines[1..])
  }

  function Sum(xs: seq<int>): int
  {
    if xs == [] then 0 else xs[0] + Sum(xs[1..])
  }

  lemma SumAppend(xs: seq<int>, x: int)
    ensures Sum(xs + [x]) == Sum(xs) + x
  {
    if xs != [] {
      assert (xs + [x])[1..] == xs[1..] + [x];
    }
  }

  lemma {:induction false} SumAmountsSnoc(lines: seq<string>)
    requires lines != []
    ensures SumAmounts(lines) == SumAmounts(lines[..|lines| - 1]) + Contribution(lines[|lines| - 1])
  {
    if |lines| > 1 {
      SumAmountsSnoc(lines[1..]);
      assert lines[1..][..|lines| - 2] == lines[..|lines| - 1][1..];
    }
  }

  lemma {:induction false} UnparsedSnoc(lines: seq<string>)
    requires lines != []
    ensures Unparsed(lines) == Unparsed(lines[..|lines| - 1]) + Rejected(lines[|lines| - 1])
  {
    if |lines| > 1 {
      UnparsedSnoc(lines[1..]);
      assert lines[1..][..|lines| - 2] == lines[..|lines| - 1][1..];
    }
  }

  /** The grand total is the sum of the amounts of the lines that parse, and
      exactly the lines that do not parse are kept as invalid. */
  lemma {:induction false} TallyMatchesReference(lines: seq<string>)
    ensures TallyOf(lines).total == SumAmounts(lines)
    ensures TallyOf(lines).invalid == Unparsed(lines)
  {
    if lines != [] {
      TallyMatchesReference(lines[..|lines| - 1]);
      SumAmountsSnoc(lines);
      UnparsedSnoc(lines);
    }
  }

  /** What is emitted plus what is still running always adds up to the grand
      total, and no emitted subtotal is zero. */
  lemma {:induction false} TallyBalances(lines: seq<string>)
    ensures Sum(TallyOf(lines).emitted) + TallyOf(lines).subtotal == TallyOf(lines).total
    ensures forall i :: 0 <= i < |TallyOf(lines).emitted| ==> TallyOf(lines).emitted[i] != 0
  {
    if lines != [] {
      var t := TallyOf(lines[..|lines| - 1]);
      TallyBalances(lines[..|lines| - 1]);
      SumAppend(t.emitted, t.subtotal);
    }
  }

  lemma {:induction false} SubtotalsAddUp(t: Tally)
    requires Sum(t.emitted) + t.subtotal == t.total
    requires forall i :: 0 <= i < |t.emitted| ==> t.emitted[i] != 0
    ensures var subs := t.emitted + (if t.subtotal != 0 then [t.subtotal] else []);
      Sum(subs) == t.total && forall i :: 0 <= i < |subs| ==> subs[i] != 0
  {
    if t.subtotal != 0 {
      SumAppend(t.emitted, t.subtotal);
    } else {
      assert t.emitted + [] == t.emitted;
    }
  }

  /** The report starts with its title, ends with the grand total of every
      parsed amount, and in between lists non-zero subtotals that add up to
      that grand total. */
  lemma {:induction false} FeeReportShape(lines: seq<string>)
    ensures FeeReport(lines)[0] == ReceiptsHeader
    ensures FeeReport(lines)[|FeeReport(lines)| - 1] == GrandTotalLine(SumAmounts(lines))
    ensures FeeReport(lines)[1..|FeeReport(lines)| - 1] == SubTotalLines(Subtotals(lines))
    ensures Sum(Subtotals(lines)) == SumAmounts(lines)
    ensures forall i :: 0 <= i < |Subtotals(lines)| ==> Subtotals(lines)[i] != 0
  {
    TallyMatchesReference(lines);
    TallyBalances(lines);
    SubtotalsAddUp(TallyOf(lines));
    var r := FeeReport(lines);
    assert r[1..|r| - 1] == SubTotalLines(Subtotals(lines));
  }

  /** The state after the first n lines, indexed as the loop of fee_totals
      reads them. */
  function TallyUpTo(lines: seq<string>, n: nat): Tally
    requires n <= |lines|
  {
    if n == 0 then Tally(0, 0, [], []) else Step(TallyUpTo(lines, n - 1), lines[n - 1])
  }

  lemma {:induction false} TallyUpToIsTallyOf(lines: seq<string>, n: nat)
    requires n <= |lines|
    ensures TallyUpTo(lines, n) == TallyOf(lines[..n])
  {
    if n > 0 {
      TallyUpToIsTallyOf(lines, n - 1);
      assert lines[..n][..n - 1] == lines[..n - 1];
    }
  }

  /** The report so far, after one more line: a break with a running subtotal
      adds that subtotal's line, any other line adds nothing. */
  lemma ReportStep(t: Tally, line: string, res: seq<string>)
    requires res == [ReceiptsHeader] + SubTotalLines(t.emitted)
    ensures IsBreak(line) && t.subtotal != 0 ==>
      res + [SubTotalLine(t.subtotal)] == [ReceiptsHeader] + SubTotalLines(Step(t, line).emitted)
    ensures !(IsBreak(line) && t.subtotal != 0) ==>
      res == [ReceiptsHeader] + SubTotalLines(Step(t, line).emitted)
  {
    SubTotalLinesSnoc(t.emitted, t.subtotal);
  }

  /** The lines fee_totals adds after the last line complete the report. */
  lemma FinishReport(t: Tally, res: seq<string>)
    requires res == [ReceiptsHeader] + SubTotalLines(t.emitted)
    ensures (if t.subtotal != 0 then res + [SubTotalLine(t.subtotal)] else res) + [GrandTotalLine(t.total)]
            == ReportOf(t)
  {
    if t.subtotal != 0 {
      SubTotalLinesSnoc(t.emitted, t.subtotal);
    } else {
      assert Shown(t) == t.emitted;
    }
  }

  lemma SubTotalLinesSnoc(subs: seq<int>, x: int)
    ensures SubTotalLines(subs + [x]) == SubTotalLines(subs) + [SubTotalLine(x)]
  {
    assert (subs + [x])[..|subs|] == subs;
  }

  /** The club object; fee_totals is a method on it only because it leaves
      the lines it could not read in the object's invalid_lines attribute. */
  class Club {
    var invalidLines: seq<string>

    /** Python creates invalid_lines on the first fee_totals call; the model
        starts it empty. */
    constructor ()
      ensures invalidLines == []
    {
      invalidLines := [];
    }

    /** fee_totals over the lines of the receipts file. */
    method FeeTotals(lines: seq<string>) returns (res: seq<string>)
      modifies this
      ensures res == FeeReport(lines)
      ensures invalidLines == Unparsed(lines)
    {
      res := [ReceiptsHeader];
      invalidLines := [];
      var total, subtotal := 0, 0;
      ghost var t := Tally(0, 0, [], []);
      var i := 0;
      while i < |lines|
        invariant 0 <= i <= |lines|
        invariant t == TallyUpTo(lines, i)
        invariant total == t.total && subtotal == t.subtotal && invalidLines == t.invalid
        invariant res == [ReceiptsHeader] + SubTotalLines(t.emitted)
      {
        res, total, subtotal := ReadLine(lines[i], res, total, subtotal, t);
        t := Step(t, lines[i]);
        i := i + 1;
      }
      TallyUpToIsTallyOf(lines, i);
      assert lines[..i] == lines;
      FinishReport(t, res);
      TallyMatchesReference(lines);
      if subtotal != 0 {
        res := res + [SubTotalLine(subtotal)];
      }
      res := res + [GrandTotalLine(total)];
    }

    /** The body of the loop of fee_totals, for one line of the file. */
    method ReadLine(raw: string, res0: seq<string>, total0: int, subtotal0: int, ghost t: Tally)
      returns (res: seq<string>, total: int, subtotal: int)
      requires total0 == t.total && subtotal0 == t.subtotal && invalidLines == t.invalid
      requires res0 == [ReceiptsHeader] + SubTotalLines(t.emitted)
      modifies this
      ensures total == Step(t, raw).total && subtotal == Step(t, raw).subtotal
      ensures invalidLines == Step(t, raw).invalid
      ensures res == [ReceiptsHeader] + SubTotalLines(Step(t, raw).emitted)
    {
      res, total, subtotal := res0, total0, subtotal0;
      var line := RStrip(raw);
      ReportStep(t, raw, res);
      if Slice(line, 24, 27) == "---" && subtotal != 0 {
        res := res + [SubTotalLine(subtotal)];
        subtotal := 0;
      }
      var amount := ParseInt(Slice(line, 23, 28));
      if amount.None? {
        invalidLines := invalidLines + [line];
      } else {
        total := total + amount.value;
        subtotal := subtotal + amount.value;
      }
    }
  }
}
