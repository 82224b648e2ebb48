/** The applicant file: one line per applicant, fields separated by '|'
    (gather_applicant_data, data.py:165-236). Each line is sorted into bad
    lines, expired applications, applicants filed under a status chosen by
    the number of meeting-date fields, or nothing at all. */
module Applicants {
  import opened Base
  import opened Strings
  import opened Sorting
  import opened Dicts
  import Rbc

  /** What one line of the file does. */
  datatype Outcome =
    | BadLine(text: string)          // appended to bad_lines
    | ExpiredName(name: string)      // appended to the expired list
    | Dropped                        // no longer an applicant: skipped silently
    | Listed(status: string, name: string)
    | Raises                         // an IndexError escapes the function

  /** [part.strip() for part in parts] */
  function StripAll(parts: seq<string>): (r: seq<string>)
    ensures |r| == |parts|
    ensures forall i :: 0 <= i < |parts| ==> r[i] == Strip(parts[i])
  {
    if parts == [] then [] else [Strip(parts[0])] + StripAll(parts[1..])
  }

  /** The stripped fields of a line. The split always yields at least one
      piece, so the source's test for an empty field list never succeeds. */
  function Fields(line: string): (parts: seq<string>)
    ensures parts != []
  {
    StripAll(SplitOn(line, [Rbc.Separator]))
  }

  /** One line: the first field must be exactly two words, which give the
      key "Last, First"; the rest is read by ClassifyRest. */
  function Classify(line: string, stati: seq<string>): (o: Outcome)
    ensures o.BadLine? ==> o.text == line || o.text == "IndexError: " + line
    ensures o.Listed? ==> o.status == "aw" || o.status in stati
    ensures o.Listed? || o.ExpiredName? ==>
              var names := Words(Fields(line)[0]);
              |names| == 2 && o.name == names[1] + ", " + names[0]
  {
    var parts := Fields(line);
    var names := Words(parts[0]);
    if |names| != 2 then BadLine(line)
    else ClassifyRest(line, names[1] + ", " + names[0], parts[1..], stati)
  }

  /** The fields after the name. A final empty field (left by a trailing
      separator) is discarded; running out of fields raises IndexError; a
      last field starting "Application" marks the application expired. Fewer
      than two fields is a bad line. Otherwise the two fee fields are dropped
      and the number l of date fields left picks the status: l == 5 is an
      applicant only when its last field is "aw"; other counts index stati,
      and a count past its end is reported as an IndexError bad line. */
  function ClassifyRest(line: string, name: string, rest: seq<string>, stati: seq<string>): (o: Outcome)
    ensures o.BadLine? ==> o.text == line || o.text == "IndexError: " + line
    ensures o.Listed? ==> o.name == name && (o.status == "aw" || o.status in stati)
    ensures o.ExpiredName? ==> o.name == name
    ensures o.Raises? <==> rest == [] || rest == [""]
  {
    if rest == [] then Raises
    else
      var fs := if rest[|rest| - 1] == "" then rest[..|rest| - 1] else rest;
      if fs == [] then Raises
      else if StartsWith(fs[|fs| - 1], "Application") then ExpiredName(name)
      else if |fs| < 2 then BadLine(line)
      else
        var l := |fs| - 2;
        if l == 5 then
          if fs[|fs| - 1] == "aw" then Listed("aw", name) else Dropped
        else if l < |stati| then Listed(stati[l], name)
        else BadLine("IndexError: " + line)
  }

  // ---------------------------------------------------------------- the fold

  /** What the loop has gathered so far. */
  datatype Acc = Acc(expired: seq<string>, applicants: Dict<seq<string>>, bad: seq<string>)

  /** The value gather_applicant_data returns. */
  datatype ApplicantData = ApplicantData(expired: seq<string>, applicants: Dict<seq<string>>, badLines: seq<string>)

  /** d.setdefault(k, []).append(x) */
  function AppendTo(d: Dict<seq<string>>, k: string, x: string): (e: Dict<seq<string>>)
    requires d.Valid()
    ensures e.Valid()
    ensures e.vals == d.vals[k := (if k in d.vals then d.vals[k] else []) + [x]]
  {
    d.Put(k, (if k in d.vals then d.vals[k] else []) + [x])
  }

  /** One line's outcome recorded. */
  function Absorb(a: Acc, o: Outcome): (b: Acc)
    requires a.applicants.Valid()
    ensures b.applicants.Valid()
  {
    match o
    case BadLine(t) => a.(bad := a.bad + [t])
    case ExpiredName(n) => a.(expired := a.expired + [n])
    case Listed(s, n) => a.(applicants := AppendTo(a.applicants, s, n))
    case Dropped => a
    case Raises => a
  }

  /** The outcome of each line, in order. */
  function Outcomes(lines: seq<string>, stati: seq<string>): seq<Outcome>
  {
    if lines == [] then []
    else Outcomes(lines[..|lines| - 1], stati) + [Classify(lines[|lines| - 1], stati)]
  }

  lemma {:induction false} OutcomeAt(lines: seq<string>, stati: seq<string>, i: int)
    requires 0 <= i < |lines|
    ensures |Outcomes(lines, stati)| == |lines|
    ensures Outcomes(lines, stati)[i] == Classify(lines[i], stati)
  {
    OutcomesLength(lines[..|lines| - 1], stati);
    if i < |lines| - 1 {
      OutcomeAt(lines[..|lines| - 1], stati, i);
    }
  }

  lemma OutcomesSnoc(lines: seq<string>, stati: seq<string>, i: int)
    requires 0 <= i < |lines|
    ensures Outcomes(lines[..i + 1], stati) == Outcomes(lines[..i], stati) + [Classify(lines[i], stati)]
  {
    assert lines[..i + 1][..i] == lines[..i];
  }

  lemma {:induction false} OutcomesLength(lines: seq<string>, stati: seq<string>)
    ensures |Outcomes(lines, stati)| == |lines|
  {
    if lines != [] {
      OutcomesLength(lines[..|lines| - 1], stati);
    }
  }

  /** The loop over the outcomes: the first line that raises ends it with IndexError. */
  function Scan(os: seq<Outcome>): (r: Result<Acc>)
    ensures r.Ok? ==> r.value.applicants.Valid()
  {
    if os == [] then Ok(Acc([], Empty(), []))
    else
      match Scan(os[..|os| - 1])
      case Err(e) => Err(e)
      case Ok(a) =>
        var o := os[|os| - 1];
        if o.Raises? then Err(IndexError) else Ok(Absorb(a, o))
  }

  lemma ScanSnoc(os: seq<Outcome>, o: Outcome)
    requires Scan(os).Ok?
    ensures !o.Raises? ==> Scan(os + [o]) == Ok(Absorb(Scan(os).value, o))
  {
    assert (os + [o])[..|os|] == os;
  }

  /** Every status list sorted; the keys keep their order. */
  function SortValues(d: Dict<seq<string>>): (e: Dict<seq<string>>)
    requires d.Valid()
    ensures e.Valid() && e.keys == d.keys
  {
    Dict(d.keys, map k | k in d.vals :: Sort(d.vals[k]))
  }

  /** gather_applicant_data over the lines of the file. */
  function Gathered(lines: seq<string>, stati: seq<string>): Result<ApplicantData>
  {
    match Scan(Outcomes(lines, stati))
    case Err(e) => Err(e)
    case Ok(a) => Ok(ApplicantData(a.expired, SortValues(a.applicants), a.bad))
  }

  method GatherApplicants(lines: seq<string>, stati: seq<string>) returns (r: Result<ApplicantData>)
    ensures r == Gathered(lines, stati)
  {
    var expired: seq<string> := [];
    var applicants: Dict<seq<string>> := Empty();
    var bad: seq<string> := [];
    var i := 0;
    while i < |lines|
      invariant 0 <= i <= |lines|
      invariant Scan(Outcomes(lines[..i], stati)) == Ok(Acc(expired, applicants, bad))
    {
      OutcomesSnoc(lines, stati, i);
      var raised: bool;
      raised, expired, applicants, bad :=
        ReadLine(lines[i], stati, Outcomes(lines[..i], stati), expired, applicants, bad);
      if raised {
        OutcomeAt(lines, stati, i);
        ScanFails(Outcomes(lines, stati));
        ScanErrIsIndexError(Outcomes(lines, stati));
        return Err(IndexError);
      }
      i := i + 1;
    }
    assert lines[..i] == lines;
    applicants := SortEach(applicants);
    r := Ok(ApplicantData(expired, applicants, bad));
  }

  /** The body of the loop: one line read and its outcome recorded; raised
      when the line lets IndexError escape. */
  method ReadLine(line: string, stati: seq<string>, ghost os: seq<Outcome>,
                  expired0: seq<string>, applicants0: Dict<seq<string>>, bad0: seq<string>)
    returns (raised: bool, expired: seq<string>, applicants: Dict<seq<string>>, bad: seq<string>)
    requires Scan(os) == Ok(Acc(expired0, applicants0, bad0))
    ensures raised <==> Classify(line, stati).Raises?
    ensures !raised ==> Scan(os + [Classify(line, stati)]) == Ok(Acc(expired, applicants, bad))
  {
    var o := Classify(line, stati);
    ScanSnoc(os, o);
    raised, expired, applicants, bad := false, expired0, applicants0, bad0;
    match o {
      case Raises =>
        raised := true;
      case BadLine(t) =>
        bad := bad + [t];
      case ExpiredName(n) =>
        expired := expired + [n];
      case Dropped =>
      case Listed(s, n) =>
        applicants := AppendTo(applicants, s, n);
    }
  }

  /** for key in applicants: applicants[key] = sorted(applicants[key]) */
  method SortEach(d0: Dict<seq<string>>) returns (d: Dict<seq<string>>)
    requires d0.Valid()
    ensures d == SortValues(d0)
  {
    d := d0;
    var j := 0;
    while j < |d0.keys|
      invariant 0 <= j <= |d0.keys|
      invariant d == SortedUpTo(d0, j)
    {
      SortedUpToStep(d0, j);
      d := d.Put(d0.keys[j], Sort(d0.vals[d0.keys[j]]));
      j := j + 1;
    }
    assert d0.keys[..j] == d0.keys;
  }

  /** The dict with the lists of its first j keys sorted. */
  function SortedUpTo(d: Dict<seq<string>>, j: nat): (e: Dict<seq<string>>)
    requires d.Valid() && j <= |d.keys|
    ensures e.Valid()
  {
    Dict(d.keys, UpTo(d.keys, d.vals, Sort, j))
  }

  /** The values of the first j keys of the order mapped through f. */
  function UpTo(keys: seq<string>, vals: map<string, seq<string>>, f: seq<string> -> seq<string>, j: nat): (r: map<string, seq<string>>)
    requires j <= |keys|
    ensures r.Keys == vals.Keys
  {
    map k | k in vals :: if k in keys[..j] then f(vals[k]) else vals[k]
  }

  lemma SortedUpToStep(d: Dict<seq<string>>, j: nat)
    requires d.Valid() && j < |d.keys|
    ensures var k := d.keys[j];
            SortedUpTo(d, j + 1) == Dict(d.keys, SortedUpTo(d, j).vals[k := Sort(d.vals[k])])
  {
    UpToStep(d.keys, d.vals, Sort, j);
  }

  /** Mapping the values of one more key of the order. */
  lemma UpToStep(keys: seq<string>, vals: map<string, seq<string>>, f: seq<string> -> seq<string>, j: nat)
    requires forall i, i' :: 0 <= i < i' < |keys| ==> keys[i] != keys[i']
    requires j < |keys| && keys[j] in vals
    ensures UpTo(keys, vals, f, j)[keys[j] := f(vals[keys[j]])] == UpTo(keys, vals, f, j + 1)
  {
    var k := keys[j];
    assert keys[..j + 1] == keys[..j] + [k];
    assert k !in keys[..j];
  }

  /** The only exception the loop lets escape is IndexError. */
  lemma {:induction false} ScanErrIsIndexError(os: seq<Outcome>)
    ensures Scan(os).Err? ==> Scan(os) == Err(IndexError)
  {
    if os != [] {
      ScanErrIsIndexError(os[..|os| - 1]);
    }
  }

  // ---------------------------------------------------------------- reference counts

  /** How many lines file name n under status s. */
  function ListedCount(os: seq<Outcome>, s: string, n: string): nat
  {
    if os == [] then 0
    else ListedCount(os[..|os| - 1], s, n) + (if os[|os| - 1] == Listed(s, n) then 1 else 0)
  }

  /** How many lines file some name under status s. */
  function StatusCount(os: seq<Outcome>, s: string): nat
  {
    if os == [] then 0
    else
      var o := os[|os| - 1];
      StatusCount(os[..|os| - 1], s) + (if o.Listed? && o.status == s then 1 else 0)
  }

  /** The names of the expired applications, in file order. */
  function ExpiredNames(os: seq<Outcome>): seq<string>
  {
    if os == [] then []
    else
      var o := os[|os| - 1];
      ExpiredNames(os[..|os| - 1]) + (if o.ExpiredName? then [o.name] else [])
  }

  /** The bad-line reports, in file order. */
  function BadTexts(os: seq<Outcome>): seq<string>
  {
    if os == [] then []
    else
      var o := os[|os| - 1];
      BadTexts(os[..|os| - 1]) + (if o.BadLine? then [o.text] else [])
  }

  /** The loop fails exactly when some line raises. */
  lemma {:induction false} ScanFails(os: seq<Outcome>)
    ensures Scan(os).Err? <==> Raises in os
  {
    if os != [] {
      ScanFails(os[..|os| - 1]);
      assert os == os[..|os| - 1] + [os[|os| - 1]];
    }
  }

  /** What the loop gathers, line by line: the expired names and bad lines in
      order, and under each status each name as often as lines file it there;
      a status is a key exactly when some line files a name under it. */
  lemma {:induction false} ScanAccounts(os: seq<Outcome>, s: string, n: string)
    ensures Scan(os).Ok? ==>
      var a := Scan(os).value;
      && a.expired == ExpiredNames(os)
      && a.bad == BadTexts(os)
      && (s in a.applicants.vals <==> StatusCount(os, s) > 0)
      && (s in a.applicants.vals ==> multiset(a.applicants.vals[s])[n] == ListedCount(os, s, n))
      && (s !in a.applicants.vals ==> ListedCount(os, s, n) == 0)
  {
    if os != [] {
      var p := os[..|os| - 1];
      ScanAccounts(p, s, n);
      if Scan(os).Ok? {
        var b := Scan(p).value;
        var o := os[|os| - 1];
        var a := Absorb(b, o);
        assert Scan(os).value == a;
        if o.Listed? && o.status == s && s in b.applicants.vals {
          assert a.applicants.vals[s] == b.applicants.vals[s] + [o.name];
        }
      }
    }
  }

  /** gather_applicant_data as a whole, in terms of the outcomes of its lines
      (OutcomeAt gives the outcome of line i): it raises IndexError exactly
      when a line does; otherwise its expired list and bad lines are those of
      the lines in order, its statuses are those some line files a name under,
      and each status list is sorted and holds each name as often as lines
      file it there. */
  lemma GatheredSpec(lines: seq<string>, stati: seq<string>, s: string, n: string)
    ensures var os := Outcomes(lines, stati);
      && (Gathered(lines, stati).Err? <==> Raises in os)
      && (Gathered(lines, stati).Err? ==> Gathered(lines, stati) == Err(IndexError))
      && (Gathered(lines, stati).Ok? ==>
        var data := Gathered(lines, stati).value;
        && data.expired == ExpiredNames(os)
        && data.badLines == BadTexts(os)
        && (s in data.applicants.vals <==> StatusCount(os, s) > 0)
        && (s in data.applicants.vals ==>
              Sorted(data.applicants.vals[s])
              && multiset(data.applicants.vals[s])[n] == ListedCount(os, s, n))
        && (s !in data.applicants.vals ==> ListedCount(os, s, n) == 0))
  {
    var os := Outcomes(lines, stati);
    ScanFails(os);
    ScanErrIsIndexError(os);
    ScanAccounts(os, s, n);
  }

  // ---------------------------------------------------------------- single lines

  /** A first field of two words "First Last" gives the key "Last, First",
      and the fields after it decide the rest. */
  lemma NameKey(first: string, last: string, tail: string, stati: seq<string>)
    requires first != [] && NoSpace(first) && Rbc.Separator !in first
    requires last != [] && NoSpace(last) && Rbc.Separator !in last
    ensures var line := first + " " + last + [Rbc.Separator] + tail;
      Classify(line, stati) == ClassifyRest(line, last + ", " + first, Fields(tail), stati)
  {
    var name := first + " " + last;
    var line := name + [Rbc.Separator] + tail;
    assert Rbc.Separator !in name by {
      assert forall i :: 0 <= i < |name| ==> name[i] == ' ' || name[i] in first || name[i] in last;
    }
    SplitCharConcat(name, Rbc.Separator, tail);
    var parts := Fields(line);
    assert parts == [Strip(name)] + Fields(tail);
    assert name[0] == first[0] && name[|name| - 1] == last[|last| - 1];
    StripUnchanged(name);
    WordsOfTwo(first, last);
  }

  /** A two-word name with nothing after it raises IndexError. */
  lemma NameAloneRaises(first: string, last: string, stati: seq<string>)
    requires first != [] && NoSpace(first) && Rbc.Separator !in first
    requires last != [] && NoSpace(last) && Rbc.Separator !in last
    ensures Classify(first + " " + last, stati) == Raises
  {
    var name := first + " " + last;
    assert Rbc.Separator !in name by {
      assert forall i :: 0 <= i < |name| ==> name[i] == ' ' || name[i] in first || name[i] in last;
    }
    SplitCharAbsent(name, Rbc.Separator);
    assert Fields(name) == [Strip(name)];
    assert name[0] == first[0] && name[|name| - 1] == last[|last| - 1];
    StripUnchanged(name);
    WordsOfTwo(first, last);
  }

  /** A two-word name followed only by an empty field raises IndexError too. */
  lemma NameThenEmptyRaises(first: string, last: string, stati: seq<string>)
    requires first != [] && NoSpace(first) && Rbc.Separator !in first
    requires last != [] && NoSpace(last) && Rbc.Separator !in last
    ensures Classify(first + " " + last + [Rbc.Separator], stati) == Raises
  {
    NameKey(first, last, "", stati);
    assert first + " " + last + [Rbc.Separator] + "" == first + " " + last + [Rbc.Separator];
    assert SplitOn("", [Rbc.Separator]) == [""];
    assert Fields("") == [""];
  }

  /** A first field of one word is a bad line, whatever follows. */
  lemma OneWordIsBad(word: string, tail: string, stati: seq<string>)
    requires word != [] && NoSpace(word) && Rbc.Separator !in word
    ensures Classify(word + [Rbc.Separator] + tail, stati) == BadLine(word + [Rbc.Separator] + tail)
  {
    SplitCharConcat(word, Rbc.Separator, tail);
    StripUnchanged(word);
    WordsOfOne(word);
  }

  /** A trailing empty field after a non-empty last field changes nothing. */
  lemma TrailingEmptyDiscarded(line: string, name: string, rest: seq<string>, stati: seq<string>)
    requires rest != [] && rest[|rest| - 1] != ""
    ensures ClassifyRest(line, name, rest + [""], stati) == ClassifyRest(line, name, rest, stati)
  {
    assert (rest + [""])[..|rest|] == rest;
  }

  /** The fields after the name, once a trailing empty field is gone: a last
      field starting "Application" marks the application expired; otherwise
      fewer than two fields is a bad line, and the count l of fields after
      the two fee fields picks the status: l == 5 files the name under "aw"
      when the last field is "aw" and drops it otherwise, any other l files
      it under stati[l], and an l past the end of stati is reported as an
      IndexError bad line. */
  lemma StatusByCount(line: string, name: string, fs: seq<string>, stati: seq<string>)
    requires fs != [] && fs[|fs| - 1] != ""
    ensures var o := ClassifyRest(line, name, fs, stati);
      var last := fs[|fs| - 1];
      var l := |fs| - 2;
      && (StartsWith(last, "Application") ==> o == ExpiredName(name))
      && (!StartsWith(last, "Application") && |fs| < 2 ==> o == BadLine(line))
      && (!StartsWith(last, "Application") && |fs| >= 2 ==>
            && (l == 5 && last == "aw" ==> o == Listed("aw", name))
            && (l == 5 && last != "aw" ==> o == Dropped)
            && (l != 5 && l < |stati| ==> o == Listed(stati[l], name))
            && (l != 5 && l >= |stati| ==> o == BadLine("IndexError: " + line)))
  {
  }

  /** The status depends on the number of fields only: two lines whose
      fields after the name have the same count, neither ending in an empty
      or "Application" field and neither stopping at the "aw" test, file
      their names under the same status, or are both reported bad. */
  lemma StatusStable(line1: string, name1: string, fs1: seq<string>,
                     line2: string, name2: string, fs2: seq<string>, stati: seq<string>)
    requires |fs1| == |fs2| >= 2 && |fs1| != 7
    requires fs1[|fs1| - 1] != "" && !StartsWith(fs1[|fs1| - 1], "Application")
    requires fs2[|fs2| - 1] != "" && !StartsWith(fs2[|fs2| - 1], "Application")
    ensures ClassifyRest(line1, name1, fs1, stati).Listed? <==> ClassifyRest(line2, name2, fs2, stati).Listed?
    ensures ClassifyRest(line1, name1, fs1, stati).Listed? ==>
      ClassifyRest(line1, name1, fs1, stati).status == ClassifyRest(line2, name2, fs2, stati).status
    ensures ClassifyRest(line1, name1, fs1, stati).BadLine? <==> ClassifyRest(line2, name2, fs2, stati).BadLine?
  {
    StatusByCount(line1, name1, fs1, stati);
    StatusByCount(line2, name2, fs2, stati);
  }
}
