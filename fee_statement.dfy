/** The customisable part of the early-August 2018 letter
    (custom_early_aug2018): one line per fee a member owes, in a fixed order,
    then the total; and, when the caller keeps a non-empty log, one log line
    naming the member and their fees. */
module FeeStatement {
  import opened Base
  import opened Strings

  /** The fields of a member record the statement reads. */
  datatype FeeRecord = FeeRecord(first: string, last: string, dues: string, mooring: string,
                                 dock: string, kayak: string)

  /** The fee items, in the order they are listed. */
  const Items: seq<string> := ["Club dues", "Mooring", "Dock usage", "Kayak storage"]

  /** The record's fields for Items, in the same order. */
  function Fields(rec: FeeRecord): (fs: seq<string>)
    ensures |fs| == |Items|
  {
    [rec.dues, rec.mooring, rec.dock, rec.kayak]
  }

  /** A fee field: empty counts as 0, anything else goes through int(). */
  function FeeValue(field: string): (r: Result<int>)
    ensures field == "" ==> r == Ok(0)
    ensures field != "" ==> match ParseInt(field)
                            case Some(v) => r == Ok(v)
                            case None => r == Err(ValueError(field))
  {
    if field == "" then Ok(0) else ToInt(field)
  }

  /** A field int() rejects. */
  predicate Bad(field: string)
  {
    field != "" && ParseInt(field).None?
  }

  /** A fee line: the item left-justified to 13 columns, then ": $" and the fee. */
  function FeeLine(item: string, fee: int): string
  {
    LJust(item, 13) + ": $" + IntToStr(fee)
  }

  /** The closing line with the total of all fees. */
  function TotalLine(total: int): string
  {
    "Total:           $" + IntToStr(total)
  }

  /** A log entry: the member's full name left-justified to 25 columns, then the fee lines joined by commas. */
  function LogEntry(rec: FeeRecord, lines: seq<string>): string
  {
    LJust(rec.first + " " + rec.last, 25) + " " + JoinWith(lines, ", ")
  }

  /** int() of each fee field, in the order of Items. */
  function FeeValues(fs: seq<string>): (rs: seq<Result<int>>)
    ensures |rs| == |fs|
  {
    seq(|fs|, i requires 0 <= i < |fs| => FeeValue(fs[i]))
  }

  /** The loop over the first n fee fields, each already read by int(): the
      fee lines so far and their total, or the error of the first field
      int() rejects. */
  function Scan(rs: seq<Result<int>>, n: nat): Result<(seq<string>, int)>
    requires |rs| == |Items| && n <= |rs|
  {
    if n == 0 then Ok(([], 0))
    else
      match Scan(rs, n - 1)
      case Err(e) => Err(e)
      case Ok(acc) =>
        match rs[n - 1]
        case Err(e) => Err(e)
        case Ok(fee) =>
          if fee != 0 then Ok((acc.0 + [FeeLine(Items[n - 1], fee)], acc.1 + fee)) else Ok(acc)
  }

  /** The fee lines and the total line after them, when there are fee lines. */
  function Bill(lines: seq<string>, total: int): seq<string>
  {
    if lines == [] then [] else lines + [TotalLine(total)]
  }

  /** What custom_early_aug2018 returns. */
  function Statement(rec: FeeRecord): (r: Result<seq<string>>)
    ensures r.Err? ==> exists j :: 0 <= j < |Items| && Bad(Fields(rec)[j]) && r.error == ValueError(Fields(rec)[j])
    ensures r.Ok? && r.value != [] ==> exists t :: r.value[|r.value| - 1] == TotalLine(t)
  {
    ScanErrors(FeeValues(Fields(rec)), |Items|);
    match Scan(FeeValues(Fields(rec)), |Items|)
    case Err(e) => Err(e)
    case Ok(acc) => Ok(Bill(acc.0, acc.1))
  }

  /** The caller's log after the call. */
  function LoggedAfter(log: seq<string>, rec: FeeRecord): seq<string>
  {
    match Scan(FeeValues(Fields(rec)), |Items|)
    case Err(_) => log
    case Ok(acc) => if acc.0 != [] && log != [] then log + [LogEntry(rec, acc.0)] else log
  }

  /** custom_early_aug2018 */
  method CustomEarlyAug2018(rec: FeeRecord, log: Option<PyList>) returns (r: Result<seq<string>>)
    modifies if log.Some? then {log.value} else {}
    ensures r == Statement(rec)
    ensures log.Some? ==> log.value.items == LoggedAfter(old(log.value.items), rec)
  {
    var fs := Fields(rec);
    ghost var rs := FeeValues(fs);
    var ret: seq<string> := [];
    var total := 0;
    for i := 0 to |Items|
      invariant Scan(rs, i) == Ok((ret, total))
      invariant log.Some? ==> log.value.items == old(log.value.items)
    {
      var fee: int;
      assert rs[i] == FeeValue(fs[i]);
      if fs[i] != "" {
        var v := ToInt(fs[i]);
        if v.Err? {
          ScanFails(rec, i, v.error);
          return Err(v.error);
        }
        fee := v.value;
      } else {
        fee := 0;
      }
      ScanStep(rs, i + 1, fee);
      if fee != 0 {
        total := total + fee;
        ret := ret + [FeeLine(Items[i], fee)];
      }
    }
    ScanDone(rec, ret, total);
    if ret != [] {
      if log.Some? && log.value.items != [] {
        log.value.Append(LogEntry(rec, ret));
      }
      ret := ret + [TotalLine(total)];
    }
    r := Ok(ret);
  }

  lemma ScanStep(rs: seq<Result<int>>, n: nat, fee: int)
    requires |rs| == |Items| && 0 < n <= |rs|
    requires Scan(rs, n - 1).Ok? && rs[n - 1] == Ok(fee)
    ensures var prev := Scan(rs, n - 1).value;
            Scan(rs, n) == Ok(if fee != 0 then (prev.0 + [FeeLine(Items[n - 1], fee)], prev.1 + fee) else prev)
  {
  }

  /** The first rejected field ends the statement with its error, and the log
      is left alone. */
  lemma ScanFails(rec: FeeRecord, i: nat, e: Error)
    requires i < |Items|
    requires Scan(FeeValues(Fields(rec)), i).Ok? && FeeValues(Fields(rec))[i] == Err(e)
    ensures Statement(rec) == Err(e)
    ensures forall log :: LoggedAfter(log, rec) == log
  {
    var rs := FeeValues(Fields(rec));
    assert Scan(rs, i + 1) == Err(e);
    ScanErrorStays(rs, i + 1, |Items|);
  }

  /** A scan of all the fields that succeeds gives the bill and the log line. */
  lemma ScanDone(rec: FeeRecord, lines: seq<string>, total: int)
    requires Scan(FeeValues(Fields(rec)), |Items|) == Ok((lines, total))
    ensures Statement(rec) == Ok(Bill(lines, total))
    ensures forall log :: LoggedAfter(log, rec) == if lines != [] && log != [] then log + [LogEntry(rec, lines)] else log
  {
  }

  lemma {:induction false} ScanErrorStays(rs: seq<Result<int>>, n: nat, m: nat)
    requires |rs| == |Items| && n <= m <= |rs| && Scan(rs, n).Err?
    ensures Scan(rs, m) == Scan(rs, n)
    decreases m - n
  {
    if n < m {
      ScanErrorStays(rs, n, m - 1);
    }
  }

  // ---------------------------------------------------------------- errors

  /** int() rejects a fee field exactly when it is Bad, with a ValueError
      naming the field. */
  lemma FeeValueBad(field: string)
    ensures FeeValue(field).Err? <==> Bad(field)
    ensures FeeValue(field).Err? ==> FeeValue(field) == Err(ValueError(field))
  {
  }

  /** The scan of n fields fails exactly when one of them was rejected, and
      then with the error of the first of them. */
  lemma {:induction false} ScanErrors(rs: seq<Result<int>>, n: nat)
    requires |rs| == |Items| && n <= |rs|
    ensures Scan(rs, n).Err? <==> exists j :: 0 <= j < n && rs[j].Err?
    ensures Scan(rs, n).Err? ==>
              exists j :: 0 <= j < n && rs[j].Err? && (forall i :: 0 <= i < j ==> rs[i].Ok?)
                          && Scan(rs, n) == Err(rs[j].error)
  {
    if n > 0 {
      ScanErrors(rs, n - 1);
      if Scan(rs, n - 1).Ok? && rs[n - 1].Err? {
        assert forall i :: 0 <= i < n - 1 ==> rs[i].Ok?;
      }
    }
  }

  /** custom_early_aug2018 raises ValueError exactly when a non-empty fee
      field is not an integer, naming the first such field. */
  lemma StatementErrors(rec: FeeRecord)
    ensures Statement(rec).Err? <==> exists j :: 0 <= j < |Items| && Bad(Fields(rec)[j])
    ensures Statement(rec).Err? ==>
              exists j :: 0 <= j < |Items| && Bad(Fields(rec)[j])
                          && (forall i :: 0 <= i < j ==> !Bad(Fields(rec)[i]))
                          && Statement(rec) == Err(ValueError(Fields(rec)[j]))
  {
    var fs := Fields(rec);
    var rs := FeeValues(fs);
    forall j | 0 <= j < |fs|
      ensures rs[j].Err? <==> Bad(fs[j])
      ensures rs[j].Err? ==> rs[j] == Err(ValueError(fs[j]))
    {
      FeeValueBad(fs[j]);
    }
    ScanErrors(rs, |Items|);
  }

  /** With every field accepted by int(), the statement is built. */
  lemma StatementOk(rec: FeeRecord)
    requires forall j :: 0 <= j < |Items| ==> !Bad(Fields(rec)[j])
    ensures forall j :: 0 <= j < |Items| ==> FeeValues(Fields(rec))[j] == Ok(Amount(Fields(rec)[j]))
  {
    var fs := Fields(rec);
    forall j | 0 <= j < |Items| ensures FeeValues(fs)[j] == Ok(Amount(fs[j])) {
      FeeValueBad(fs[j]);
    }
  }

  // ---------------------------------------------------------------- contents

  /** The value of a field int() accepts; empty counts as 0. */
  function Amount(field: string): int
  {
    match FeeValue(field)
    case Ok(v) => v
    case Err(_) => 0
  }

  function Sum(vs: seq<int>): int
  {
    if vs == [] then 0 else Sum(vs[..|vs| - 1]) + vs[|vs| - 1]
  }

  /** The amounts of the first n fields. */
  function Amounts(fs: seq<string>, n: nat): (vs: seq<int>)
    requires n <= |fs|
    ensures |vs| == n && forall i :: 0 <= i < n ==> vs[i] == Amount(fs[i])
  {
    seq(n, i requires 0 <= i < n => Amount(fs[i]))
  }

  /** A line for each nonzero amount, naming its item, in order. */
  function NonzeroLines(items: seq<string>, vs: seq<int>): seq<string>
    requires |items| == |vs|
  {
    if vs == [] then []
    else
      var last := |vs| - 1;
      NonzeroLines(items[..last], vs[..last]) + (if vs[last] != 0 then [FeeLine(items[last], vs[last])] else [])
  }

  /** When the first n fields were read as the amounts vs, the scan of them
      holds a line for each nonzero amount, in order, and their sum. */
  lemma {:induction false} ScanContents(rs: seq<Result<int>>, vs: seq<int>, n: nat)
    requires |rs| == |Items| && |vs| == n <= |rs|
    requires forall j :: 0 <= j < n ==> rs[j] == Ok(vs[j])
    ensures Scan(rs, n) == Ok((NonzeroLines(Items[..n], vs), Sum(vs)))
  {
    if n > 0 {
      var prev := vs[..n - 1];
      var fee := vs[n - 1];
      ScanContents(rs, prev, n - 1);
      ScanStep(rs, n, fee);
      ContentsStep(vs, n);
    }
  }

  /** One more amount: its line, when it is nonzero, and its part of the sum. */
  lemma ContentsStep(vs: seq<int>, n: nat)
    requires 0 < n <= |Items| && |vs| == n
    ensures var prev := vs[..n - 1];
            var fee := vs[n - 1];
            var lines := NonzeroLines(Items[..n - 1], prev);
            (NonzeroLines(Items[..n], vs), Sum(vs))
              == if fee != 0 then (lines + [FeeLine(Items[n - 1], fee)], Sum(prev) + fee) else (lines, Sum(prev))
  {
    assert Items[..n][..n - 1] == Items[..n - 1];
    var lines := NonzeroLines(Items[..n - 1], vs[..n - 1]);
    assert lines + [] == lines;
  }

  lemma {:induction false} NonzeroLinesEmpty(items: seq<string>, vs: seq<int>)
    requires |items| == |vs|
    ensures NonzeroLines(items, vs) == [] <==> forall i :: 0 <= i < |vs| ==> vs[i] == 0
  {
    if vs != [] {
      var last := |vs| - 1;
      NonzeroLinesEmpty(items[..last], vs[..last]);
      assert forall i :: 0 <= i < last ==> vs[..last][i] == vs[i];
      NonzeroLast(items, vs);
    }
  }

  /** The lines of a nonempty list of amounts are empty exactly when those of
      all but the last are and the last amount is zero. */
  lemma NonzeroLast(items: seq<string>, vs: seq<int>)
    requires |items| == |vs| && vs != []
    ensures var last := |vs| - 1;
            NonzeroLines(items, vs) == [] <==> NonzeroLines(items[..last], vs[..last]) == [] && vs[last] == 0
  {
    var last := |vs| - 1;
    var front := NonzeroLines(items[..last], vs[..last]);
    var line := FeeLine(items[last], vs[last]);
    assert NonzeroLines(items, vs) == front + (if vs[last] != 0 then [line] else []);
  }

  /** With every fee field an integer or empty, the statement lists a line
      for each nonzero fee in the order Club dues, Mooring, Dock usage, Kayak
      storage; the Total line, the sum of the four fees, comes last and is
      there exactly when some fee is nonzero. */
  lemma StatementContents(rec: FeeRecord)
    requires forall j :: 0 <= j < |Items| ==> !Bad(Fields(rec)[j])
    ensures var vs := Amounts(Fields(rec), |Items|);
            var lines := NonzeroLines(Items, vs);
            && Statement(rec) == Ok(Bill(lines, vs[0] + vs[1] + vs[2] + vs[3]))
            && (lines != [] <==> exists i :: 0 <= i < |Items| && vs[i] != 0)
  {
    var fs := Fields(rec);
    var vs := Amounts(fs, |Items|);
    assert Statement(rec) == Ok(Bill(NonzeroLines(Items, vs), Sum(vs))) by {
      StatementOk(rec);
      ScanContents(FeeValues(fs), vs, |Items|);
      assert Items[..|Items|] == Items;
    }
    NonzeroLinesEmpty(Items, vs);
    SumOfFour(vs);
  }

  lemma SumOfFour(vs: seq<int>)
    requires |vs| == 4
    ensures Sum(vs) == vs[0] + vs[1] + vs[2] + vs[3]
  {
    assert vs[..3][..2] == vs[..2] && vs[..2][..1] == vs[..1] && vs[..1][..0] == [];
    assert Sum(vs[..1]) == vs[0];
    assert Sum(vs[..2]) == vs[0] + vs[1];
    assert Sum(vs[..3]) == vs[0] + vs[1] + vs[2];
  }

  /** The Total line is the last line of a non-empty statement, and nowhere
      else. */
  lemma TotalLast(rec: FeeRecord)
    requires Statement(rec).Ok? && Statement(rec).value != []
    ensures var ls := Statement(rec).value;
            && StartsWith(ls[|ls| - 1], "Total:")
            && forall i :: 0 <= i < |ls| - 1 ==> !StartsWith(ls[i], "Total:")
  {
    var fs := Fields(rec);
    assert forall j :: 0 <= j < |Items| ==> !Bad(fs[j]) by {
      StatementErrors(rec);
    }
    var vs := Amounts(fs, |Items|);
    var lines := NonzeroLines(Items, vs);
    assert Statement(rec) == Ok(Bill(lines, Sum(vs))) by {
      StatementOk(rec);
      ScanContents(FeeValues(fs), vs, |Items|);
      assert Items[..|Items|] == Items;
    }
    assert forall i :: 0 <= i < |lines| ==> !StartsWith(lines[i], "Total:") by {
      forall i | 0 <= i < |lines| ensures !StartsWith(lines[i], "Total:") {
        NonzeroLinesItem(Items, vs, i);
      }
    }
    BillTotalLast(lines, Sum(vs));
  }

  /** A bill of lines none of which starts with "Total:" has its Total line
      last and nowhere else. */
  lemma BillTotalLast(lines: seq<string>, total: int)
    requires lines != [] && forall i :: 0 <= i < |lines| ==> !StartsWith(lines[i], "Total:")
    ensures var ls := Bill(lines, total);
            && StartsWith(ls[|ls| - 1], "Total:")
            && forall i :: 0 <= i < |ls| - 1 ==> !StartsWith(ls[i], "Total:")
  {
    var ls := Bill(lines, total);
    assert ls[|ls| - 1] == TotalLine(total);
    assert TotalLine(total)[..6] == "Total:";
    assert forall i :: 0 <= i < |ls| - 1 ==> ls[i] == lines[i];
  }

  /** Each listed line is the fee line of one of the items. */
  lemma {:induction false} NonzeroLinesItem(items: seq<string>, vs: seq<int>, i: nat)
    requires |items| == |vs| && i < |NonzeroLines(items, vs)|
    requires forall j :: 0 <= j < |items| ==> items[j] in Items
    ensures exists j :: 0 <= j < |items| && NonzeroLines(items, vs)[i] == FeeLine(items[j], vs[j])
    ensures !StartsWith(NonzeroLines(items, vs)[i], "Total:")
  {
    var last := |vs| - 1;
    var front := NonzeroLines(items[..last], vs[..last]);
    if i < |front| {
      NonzeroLinesItem(items[..last], vs[..last], i);
      var j :| 0 <= j < last && front[i] == FeeLine(items[..last][j], vs[..last][j]);
      assert NonzeroLines(items, vs)[i] == FeeLine(items[j], vs[j]);
    } else {
      assert NonzeroLines(items, vs)[i] == FeeLine(items[last], vs[last]);
      FeeLineHead(items[last], vs[last]);
    }
  }

  /** A fee line of an item starts with the item, not with "Total:". */
  lemma FeeLineHead(item: string, fee: int)
    requires item in Items
    ensures StartsWith(FeeLine(item, fee), item) && !StartsWith(FeeLine(item, fee), "Total:")
  {
    var l := FeeLine(item, fee);
    assert l[..|item|] == item;
    assert l[0] == item[0] && item[0] != 'T';
  }

  // ---------------------------------------------------------------- line formats

  /** A fee line, for an item of at most 13 characters: the item padded to 13,
      ": $" and the fee, which int() reads back. */
  lemma FeeLineAmount(item: string, fee: int)
    requires |item| <= 13
    ensures var l := FeeLine(item, fee);
            && |l| >= 16 && l[..|item|] == item && l[13..16] == ": $"
            && ParseInt(l[16..]) == Some(fee)
  {
    var l := FeeLine(item, fee);
    assert l[16..] == IntToStr(fee);
    ParseIntOfIntToStr(fee);
  }

  /** The total line: "Total:", spaces to column 17, "$" and the total,
      which int() reads back. */
  lemma TotalLineAmount(total: int)
    ensures var l := TotalLine(total);
            && |l| >= 18 && l[..6] == "Total:" && l[17] == '$'
            && ParseInt(l[18..]) == Some(total)
  {
    var l := TotalLine(total);
    assert l[18..] == IntToStr(total);
    ParseIntOfIntToStr(total);
  }

  // ---------------------------------------------------------------- log

  /** The log gains one line, and only when it was non-empty and the
      statement lists some fee; an empty log stays empty. */
  lemma LogGrowth(log: seq<string>, rec: FeeRecord)
    ensures LoggedAfter([], rec) == []
    ensures LoggedAfter(log, rec) == log || LoggedAfter(log, rec)[..|log|] == log
    ensures LoggedAfter(log, rec) != log <==>
              log != [] && Statement(rec).Ok? && Statement(rec).value != []
    ensures LoggedAfter(log, rec) != log ==>
              LoggedAfter(log, rec) == log + [LogEntry(rec, Statement(rec).value[..|Statement(rec).value| - 1])]
  {
    var after := LoggedAfter(log, rec);
    if after != log {
      var acc := Scan(FeeValues(Fields(rec)), |Items|).value;
      assert Statement(rec).value == acc.0 + [TotalLine(acc.1)];
      assert Statement(rec).value[..|Statement(rec).value| - 1] == acc.0;
    }
  }
}
