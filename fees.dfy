/** The extra-fees ledger (gather_extra_fees_data, data.py:239-302) and the
    three ways the program shows it (json_fees_by_name, present_fees_by_name
    and present_fees_by_category, data.py:305-426). The ledger is a list of
    header lines naming a category and ending in ':', each followed by lines
    "First Last: amount". */
module Fees {
  import opened Base
  import opened Strings
  import opened Sorting
  import opened Dicts
  import Rbc

  /** A (category, fee) pair in the by-name index, a (name key, fee) pair in
      the by-category index. */
  type Charge = (string, int)

  datatype ExtraFees = ExtraFees(byName: Dict<seq<Charge>>, byCategory: Dict<seq<Charge>>)

  /** The categories a header line can switch to, in the order of the
      by-category dict's first keys. */
  const FeeCategories: seq<string> := ["Kayak", "Dock", "Mooring"]

  /** What one line of the ledger is, before the current category is known. */
  datatype FeeLine =
    | Blank
    | Header(words: seq<string>)
    | Entry(key: string, fee: int)
    | Broken(error: Error)

  /** One line, stripped: empty lines are skipped; a line ending in ':' is a
      header whose words (less the ':') may switch the category; any other
      line must be "First Last...: amount", where a missing ':' or fewer than
      two names raise IndexError and an amount that is not an integer raises
      ValueError. */
  function ReadFeeLine(raw: string): (r: FeeLine)
    ensures r.Blank? <==> Strip(raw) == []
    ensures r.Broken? ==> r.error == IndexError || (r.error.ValueError? && ParseInt(r.error.text).None?)
    ensures r.Header? ==> forall i :: 0 <= i < |r.words| ==> r.words[i] != [] && NoSpace(r.words[i])
  {
    var line := Strip(raw);
    if line == [] then Blank
    else if line[|line| - 1] == ':' then Header(Words(line[..|line| - 1]))
    else
      var parts := SplitOn(line, ":");
      if |parts| < 2 then Broken(IndexError)
      else
        match ToInt(parts[1])
        case Err(e) => Broken(e)
        case Ok(fee) =>
          var names := Words(parts[0]);
          if |names| < 2 then Broken(IndexError)
          else Entry(names[1] + ", " + names[0], fee)
  }

  /** The category after a header: its last word that names a category, or
      the current one when none does. */
  function LastCategory(words: seq<string>, current: string): string
  {
    if words == [] then current
    else if words[|words| - 1] in FeeCategories then words[|words| - 1]
    else LastCategory(words[..|words| - 1], current)
  }

  /** for word in words: if word in categories: category = word */
  method SwitchCategory(words: seq<string>, category0: string) returns (category: string)
    ensures category == LastCategory(words, category0)
  {
    category := category0;
    var i := 0;
    while i < |words|
      invariant 0 <= i <= |words|
      invariant category == LastCategory(words[..i], category0)
    {
      assert words[..i + 1][..i] == words[..i];
      if words[i] in FeeCategories {
        category := words[i];
      }
      i := i + 1;
    }
    assert words[..i] == words;
  }

  /** A header switches to a category only if it names one, and then to the last named. */
  lemma {:induction false} LastCategoryIsNamed(words: seq<string>, current: string)
    ensures LastCategory(words, current) == current || LastCategory(words, current) in words
    ensures LastCategory(words, current) != current ==> LastCategory(words, current) in FeeCategories
    ensures (forall i :: 0 <= i < |words| ==> words[i] !in FeeCategories) ==> LastCategory(words, current) == current
  {
    if words != [] {
      LastCategoryIsNamed(words[..|words| - 1], current);
      var c := LastCategory(words[..|words| - 1], current);
      if c in words[..|words| - 1] {
        var j :| 0 <= j < |words| - 1 && words[..|words| - 1][j] == c;
        assert words[j] == c;
      }
      if forall i :: 0 <= i < |words| ==> words[i] !in FeeCategories {
        assert forall i :: 0 <= i < |words| - 1 ==> words[..|words| - 1][i] == words[i];
      }
    }
  }

  // ---------------------------------------------------------------- the fold

  datatype FeeState = FeeState(category: string, byName: Dict<seq<Charge>>, byCategory: Dict<seq<Charge>>)

  /** Before the first line: no category, and the three categories listed empty. */
  function Start(): (st: FeeState)
    ensures st.byName.Valid() && st.byCategory.Valid()
  {
    FeeState("", Empty(), Dict(FeeCategories, map["Kayak" := [], "Dock" := [], "Mooring" := []]))
  }

  /** d.setdefault(k, []).append(x) */
  function AppendTo(d: Dict<seq<Charge>>, k: string, x: Charge): (e: Dict<seq<Charge>>)
    requires d.Valid()
    ensures e.Valid()
    ensures e.vals == d.vals[k := (if k in d.vals then d.vals[k] else []) + [x]]
    ensures e.keys == if k in d.vals then d.keys else d.keys + [k]
  {
    d.Put(k, (if k in d.vals then d.vals[k] else []) + [x])
  }

  ghost predicate ValidState(st: FeeState)
  {
    st.byName.Valid() && st.byCategory.Valid()
  }

  /** One line that does not raise: an entry is filed under its name and
      under the current category (which may be "" before any header). */
  function Step(st: FeeState, l: FeeLine): (u: FeeState)
    requires ValidState(st)
    ensures ValidState(u)
  {
    match l
    case Blank => st
    case Broken(_) => st
    case Header(ws) => st.(category := LastCategory(ws, st.category))
    case Entry(k, fee) =>
      FeeState(st.category,
               AppendTo(st.byName, k, (st.category, fee)),
               AppendTo(st.byCategory, st.category, (k, fee)))
  }

  /** The lines of the ledger, read one by one. */
  function FeeLines(lines: seq<string>): seq<FeeLine>
  {
    if lines == [] then [] else FeeLines(lines[..|lines| - 1]) + [ReadFeeLine(lines[|lines| - 1])]
  }

  lemma FeeLinesSnoc(lines: seq<string>, i: int)
    requires 0 <= i < |lines|
    ensures FeeLines(lines[..i + 1]) == FeeLines(lines[..i]) + [ReadFeeLine(lines[i])]
  {
    assert lines[..i + 1][..i] == lines[..i];
  }

  lemma {:induction false} FeeLineAt(lines: seq<string>, i: int)
    requires 0 <= i < |lines|
    ensures |FeeLines(lines)| == |lines|
    ensures FeeLines(lines)[i] == ReadFeeLine(lines[i])
  {
    FeeLinesLength(lines[..|lines| - 1]);
    if i < |lines| - 1 {
      FeeLineAt(lines[..|lines| - 1], i);
    }
  }

  lemma {:induction false} FeeLinesLength(lines: seq<string>)
    ensures |FeeLines(lines)| == |lines|
  {
    if lines != [] {
      FeeLinesLength(lines[..|lines| - 1]);
    }
  }

  /** The loop: the first line that raises ends it with its exception. */
  function Run(ls: seq<FeeLine>): (r: Result<FeeState>)
    ensures r.Ok? ==> ValidState(r.value)
  {
    if ls == [] then Ok(Start())
    else
      match Run(ls[..|ls| - 1])
      case Err(e) => Err(e)
      case Ok(st) =>
        var l := ls[|ls| - 1];
        if l.Broken? then Err(l.error) else Ok(Step(st, l))
  }

  lemma RunSnoc(ls: seq<FeeLine>, l: FeeLine)
    requires Run(ls).Ok?
    ensures !l.Broken? ==> Run(ls + [l]) == Ok(Step(Run(ls).value, l))
    ensures l.Broken? ==> Run(ls + [l]) == Err(l.error)
  {
    assert (ls + [l])[..|ls|] == ls;
  }

  /** gather_extra_fees_data over the lines of the ledger. */
  function GatheredFees(lines: seq<string>): Result<ExtraFees>
  {
    match Run(FeeLines(lines))
    case Err(e) => Err(e)
    case Ok(st) => Ok(ExtraFees(st.byName, st.byCategory))
  }

  method GatherExtraFees(lines: seq<string>) returns (r: Result<ExtraFees>)
    ensures r == GatheredFees(lines)
  {
    var category := "";
    var byName: Dict<seq<Charge>> := Empty();
    var byCategory: Dict<seq<Charge>> := Dict(FeeCategories, map["Kayak" := [], "Dock" := [], "Mooring" := []]);
    var i := 0;
    while i < |lines|
      invariant 0 <= i <= |lines|
      invariant Run(FeeLines(lines[..i])) == Ok(FeeState(category, byName, byCategory))
    {
      FeeLinesSnoc(lines, i);
      var err: Option<Error>;
      err, category, byName, byCategory :=
        ReadLine(lines[i], FeeLines(lines[..i]), category, byName, byCategory);
      if err.Some? {
        StopsAtBrokenLine(lines, i);
        return Err(err.value);
      }
      i := i + 1;
    }
    assert lines[..i] == lines;
    r := Ok(ExtraFees(byName, byCategory));
  }

  /** A broken line after lines that read well is the gathering's exception. */
  lemma StopsAtBrokenLine(lines: seq<string>, i: nat)
    requires i < |lines| && Run(FeeLines(lines[..i])).Ok? && ReadFeeLine(lines[i]).Broken?
    ensures GatheredFees(lines) == Err(ReadFeeLine(lines[i]).error)
  {
    FeeLinesSnoc(lines, i);
    RunSnoc(FeeLines(lines[..i]), ReadFeeLine(lines[i]));
    FeeLinesPrefix(lines, i + 1);
    RunStopsAtError(FeeLines(lines), i + 1);
  }

  /** The body of the loop: one line read and filed; err is the exception it raises. */
  method ReadLine(raw: string, ghost ls: seq<FeeLine>,
                  category0: string, byName0: Dict<seq<Charge>>, byCategory0: Dict<seq<Charge>>)
    returns (err: Option<Error>, category: string, byName: Dict<seq<Charge>>, byCategory: Dict<seq<Charge>>)
    requires Run(ls) == Ok(FeeState(category0, byName0, byCategory0))
    ensures err.Some? <==> ReadFeeLine(raw).Broken?
    ensures err.Some? ==> err.value == ReadFeeLine(raw).error
    ensures err.None? ==> Run(ls + [ReadFeeLine(raw)]) == Ok(FeeState(category, byName, byCategory))
  {
    var l := ReadFeeLine(raw);
    RunSnoc(ls, l);
    err, category, byName, byCategory := None, category0, byName0, byCategory0;
    match l {
      case Blank =>
      case Broken(e) =>
        err := Some(e);
      case Header(ws) =>
        category := SwitchCategory(ws, category);
      case Entry(k, fee) =>
        byName := AppendTo(byName, k, (category, fee));
        byCategory := AppendTo(byCategory, category, (k, fee));
    }
  }

  lemma {:induction false} FeeLinesPrefix(lines: seq<string>, n: nat)
    requires n <= |lines|
    ensures |FeeLines(lines)| == |lines| && FeeLines(lines)[..n] == FeeLines(lines[..n])
    decreases |lines|
  {
    FeeLinesLength(lines);
    if n < |lines| {
      var p := lines[..|lines| - 1];
      FeeLinesLength(p);
      assert p[..n] == lines[..n];
      FeeLinesPrefix(p, n);
      assert FeeLines(lines)[..n] == FeeLines(p)[..n];
    } else {
      assert lines[..n] == lines;
    }
  }

  /** Once a line raises, the loop's result is that exception. */
  lemma {:induction false} RunStopsAtError(ls: seq<FeeLine>, n: nat)
    requires n <= |ls| && Run(ls[..n]).Err?
    ensures Run(ls) == Run(ls[..n])
    decreases |ls|
  {
    if n < |ls| {
      var p := ls[..|ls| - 1];
      assert p[..n] == ls[..n];
      RunStopsAtError(p, n);
    } else {
      assert ls[..n] == ls;
    }
  }

  // ---------------------------------------------------------------- what the fold promises

  /** The number of times x is filed under k. */
  function Occurrences(d: Dict<seq<Charge>>, k: string, x: Charge): nat
  {
    if k in d.vals then multiset(d.vals[k])[x] else 0
  }

  /** The two indexes agree: "Last, First" is charged fee under category c
      in the by-name index exactly as often as the by-category index charges
      "Last, First" that fee under c. */
  lemma {:induction false} IndexesAgree(ls: seq<FeeLine>, name: string, c: string, fee: int)
    ensures Run(ls).Ok? ==>
      var st := Run(ls).value;
      Occurrences(st.byName, name, (c, fee)) == Occurrences(st.byCategory, c, (name, fee))
  {
    if ls != [] {
      var p := ls[..|ls| - 1];
      IndexesAgree(p, name, c, fee);
      if Run(ls).Ok? {
        var st := Run(p).value;
        var l := ls[|ls| - 1];
        var u := Step(st, l);
        assert Run(ls).value == u;
        if l.Entry? {
          var k := l.key;
          var g := st.category;
          assert Occurrences(u.byName, name, (c, fee)) ==
            Occurrences(st.byName, name, (c, fee)) + (if k == name && g == c && l.fee == fee then 1 else 0);
          assert Occurrences(u.byCategory, c, (name, fee)) ==
            Occurrences(st.byCategory, c, (name, fee)) + (if k == name && g == c && l.fee == fee then 1 else 0);
        }
      }
    }
  }

  /** The three categories stay the first keys of the by-category index, in order. */
  lemma {:induction false} CategoriesFirst(ls: seq<FeeLine>)
    ensures Run(ls).Ok? ==>
      var st := Run(ls).value;
      |st.byCategory.keys| >= 3 && st.byCategory.keys[..3] == FeeCategories
  {
    if ls != [] {
      CategoriesFirst(ls[..|ls| - 1]);
      if Run(ls).Ok? {
        var st := Run(ls[..|ls| - 1]).value;
        var l := ls[|ls| - 1];
        if l.Entry? {
          var keys := st.byCategory.keys;
          assert (keys + [st.category])[..3] == keys[..3];
        }
      }
    }
  }

  /** Sum of the lengths of the lists under the given keys. */
  function Filed(keys: seq<string>, vals: map<string, seq<Charge>>): nat
  {
    if keys == [] then 0
    else Filed(keys[..|keys| - 1], vals) + (if keys[|keys| - 1] in vals then |vals[keys[|keys| - 1]]| else 0)
  }

  /** How many charges a dict holds in all. */
  function Total(d: Dict<seq<Charge>>): nat
  {
    Filed(d.keys, d.vals)
  }

  /** Changing the list of a key not listed changes nothing. */
  lemma {:induction false} FiledOther(keys: seq<string>, vals: map<string, seq<Charge>>, k: string, v: seq<Charge>)
    requires k !in keys
    ensures Filed(keys, vals[k := v]) == Filed(keys, vals)
  {
    if keys != [] {
      FiledOther(keys[..|keys| - 1], vals, k, v);
    }
  }

  /** Growing the list of a listed key by one grows the sum by one. */
  lemma {:induction false} FiledGrown(keys: seq<string>, vals: map<string, seq<Charge>>, k: string, x: Charge)
    requires k in keys && k in vals
    requires forall i, j :: 0 <= i < j < |keys| ==> keys[i] != keys[j]
    ensures Filed(keys, vals[k := vals[k] + [x]]) == Filed(keys, vals) + 1
  {
    var p := keys[..|keys| - 1];
    if keys[|keys| - 1] == k {
      assert k !in p;
      FiledOther(p, vals, k, vals[k] + [x]);
    } else {
      assert k in p;
      FiledGrown(p, vals, k, x);
    }
  }

  /** An append files one more charge. */
  lemma AppendToTotal(d: Dict<seq<Charge>>, k: string, x: Charge)
    requires d.Valid()
    ensures Total(AppendTo(d, k, x)) == Total(d) + 1
  {
    if k in d.vals {
      AppendExisting(d, k, x);
    } else {
      AppendNew(d, k, x);
    }
  }

  lemma AppendExisting(d: Dict<seq<Charge>>, k: string, x: Charge)
    requires d.Valid() && k in d.vals
    ensures Total(AppendTo(d, k, x)) == Total(d) + 1
  {
    var e := AppendTo(d, k, x);
    assert Total(e) == Filed(d.keys, d.vals[k := d.vals[k] + [x]]) by {
      assert e.keys == d.keys;
      assert e.vals == d.vals[k := d.vals[k] + [x]];
    }
    assert k in d.keys;
    FiledGrown(d.keys, d.vals, k, x);
  }

  lemma AppendNew(d: Dict<seq<Charge>>, k: string, x: Charge)
    requires d.Valid() && k !in d.vals
    ensures Total(AppendTo(d, k, x)) == Total(d) + 1
  {
    var e := AppendTo(d, k, x);
    assert Total(e) == Filed(d.keys + [k], d.vals[k := [x]]) by {
      assert e.keys == d.keys + [k];
      assert e.vals == d.vals[k := [] + [x]];
      assert [] + [x] == [x];
    }
    assert k !in d.keys;
    FiledNew(d.keys, d.vals, k, x);
  }

  /** A new key with one charge files one more charge. */
  lemma FiledNew(keys: seq<string>, vals: map<string, seq<Charge>>, k: string, x: Charge)
    requires k !in keys
    ensures Filed(keys + [k], vals[k := [x]]) == Filed(keys, vals) + 1
  {
    assert (keys + [k])[..|keys|] == keys;
    FiledOther(keys, vals, k, [x]);
  }

  /** The number of entry lines. */
  function EntryCount(ls: seq<FeeLine>): nat
  {
    if ls == [] then 0 else EntryCount(ls[..|ls| - 1]) + (if ls[|ls| - 1].Entry? then 1 else 0)
  }

  /** Both indexes hold one charge per entry line. */
  lemma {:induction false} TotalsAgree(ls: seq<FeeLine>)
    ensures Run(ls).Ok? ==>
      Total(Run(ls).value.byName) == EntryCount(ls) == Total(Run(ls).value.byCategory)
  {
    if ls == [] {
      StartTotal();
    } else {
      TotalsAgree(ls[..|ls| - 1]);
      if Run(ls).Ok? {
        var st := Run(ls[..|ls| - 1]).value;
        var l := ls[|ls| - 1];
        if l.Entry? {
          AppendToTotal(st.byName, l.key, (st.category, l.fee));
          AppendToTotal(st.byCategory, st.category, (l.key, l.fee));
        }
      }
    }
  }

  lemma StartTotal()
    ensures Total(Start().byName) == 0 && Total(Start().byCategory) == 0
  {
    var m := Start().byCategory.vals;
    assert FeeCategories[..2] == ["Kayak", "Dock"];
    assert ["Kayak", "Dock"][..1] == ["Kayak"];
    assert ["Kayak"][..0] == [];
    assert Filed(["Kayak"], m) == 0;
    assert Filed(["Kayak", "Dock"], m) == 0;
    assert Filed(FeeCategories, m) == 0;
  }

  /** Line i is the first that raises. */
  predicate FirstBrokenAt(ls: seq<FeeLine>, i: int)
  {
    0 <= i < |ls| && ls[i].Broken? && forall j :: 0 <= j < i ==> !ls[j].Broken?
  }

  /** No line raises. */
  predicate Unbroken(ls: seq<FeeLine>)
  {
    forall i :: 0 <= i < |ls| ==> !ls[i].Broken?
  }

  lemma UnbrokenSnoc(ls: seq<FeeLine>)
    requires ls != []
    ensures Unbroken(ls) <==> Unbroken(ls[..|ls| - 1]) && !ls[|ls| - 1].Broken?
  {
    var p := ls[..|ls| - 1];
    assert forall i :: 0 <= i < |p| ==> p[i] == ls[i];
  }

  /** The loop runs to the end exactly when no line raises. */
  lemma {:induction false} RunOk(ls: seq<FeeLine>)
    ensures Run(ls).Ok? <==> Unbroken(ls)
  {
    if ls != [] {
      RunOk(ls[..|ls| - 1]);
      UnbrokenSnoc(ls);
    }
  }

  /** The first line that raises decides the exception. */
  lemma RunErr(ls: seq<FeeLine>, i: int)
    requires FirstBrokenAt(ls, i)
    ensures Run(ls) == Err(ls[i].error)
  {
    var p := ls[..i];
    assert Unbroken(p) by {
      assert forall j :: 0 <= j < |p| ==> p[j] == ls[j];
    }
    RunOk(p);
    assert ls[..i + 1] == p + [ls[i]];
    RunSnoc(p, ls[i]);
    RunStopsAtError(ls, i + 1);
  }

  lemma {:induction false} FirstBrokenExists(ls: seq<FeeLine>, k: int)
    requires 0 <= k < |ls| && ls[k].Broken?
    ensures exists i :: FirstBrokenAt(ls, i)
    decreases k
  {
    if !FirstBrokenAt(ls, k) {
      var j :| 0 <= j < k && ls[j].Broken?;
      FirstBrokenExists(ls, j);
    }
  }

  /** gather_extra_fees_data raises e exactly when the first line that
      raises raises e. */
  lemma RunFails(ls: seq<FeeLine>, e: Error)
    ensures Run(ls) == Err(e) <==> exists i :: FirstBrokenAt(ls, i) && ls[i].error == e
  {
    RunOk(ls);
    if Run(ls).Err? {
      assert !Unbroken(ls);
      var k :| 0 <= k < |ls| && ls[k].Broken?;
      FirstBrokenExists(ls, k);
      var i :| FirstBrokenAt(ls, i);
      RunErr(ls, i);
      forall j | FirstBrokenAt(ls, j)
        ensures j == i
      {
      }
    }
  }

  // ---------------------------------------------------------------- single lines

  /** "First Last:amount" files amount under "Last, First". */
  lemma EntryLine(first: string, last: string, fee: int)
    requires first != [] && NoSpace(first) && ':' !in first
    requires last != [] && NoSpace(last) && ':' !in last
    ensures ReadFeeLine(first + " " + last + ":" + IntToStr(fee)) == Entry(last + ", " + first, fee)
  {
    var name := first + " " + last;
    var amount := IntToStr(fee);
    var line := name + [':'] + amount;
    assert first + " " + last + ":" + IntToStr(fee) == line;
    assert ':' !in name by {
      assert forall i :: 0 <= i < |name| ==> name[i] == ' ' || name[i] in first || name[i] in last;
    }
    assert ':' !in amount;
    assert line[0] == first[0] && line[|line| - 1] == amount[|amount| - 1];
    StripUnchanged(line);
    SplitCharConcat(name, ':', amount);
    SplitCharAbsent(amount, ':');
    ParseIntOfIntToStr(fee);
    WordsOfTwo(first, last);
  }

  /** A non-blank line that is no header and holds no ':' raises IndexError. */
  lemma NoColonRaises(raw: string)
    requires Strip(raw) != [] && ':' !in Strip(raw)
    ensures ReadFeeLine(raw) == Broken(IndexError)
  {
    SplitCharAbsent(Strip(raw), ':');
  }

  /** Any whitespace Python strips, a trailing no-break space as much as a
      newline, does not keep a fee line from being read. */
  lemma SpaceAfterEntryLine(first: string, last: string, fee: int, c: char)
    requires first != [] && NoSpace(first) && ':' !in first
    requires last != [] && NoSpace(last) && ':' !in last
    requires IsSpace(c)
    ensures ReadFeeLine(first + " " + last + ":" + IntToStr(fee) + [c]) == Entry(last + ", " + first, fee)
  {
    var line := first + " " + last + ":" + IntToStr(fee);
    var raw := line + [c];
    EntryLine(first, last, fee);
    assert line[0] == first[0];
    assert !IsSpace(line[|line| - 1]) by { ParseIntOfIntToStr(fee); }
    assert LStrip(raw) == raw;
    assert raw[..|raw| - 1] == line;
    assert RStrip(line) == line;
    assert Strip(raw) == Strip(line);
  }

  /** An amount that is not an integer raises ValueError. */
  lemma BadAmountRaises(name: string, amount: string)
    requires ':' !in name && ':' !in amount && ParseInt(amount) == None
    requires Strip(name + [':'] + amount) == name + [':'] + amount
    requires amount != [] && amount[|amount| - 1] != ':'
    ensures ReadFeeLine(name + [':'] + amount) == Broken(ValueError(amount))
  {
    SplitCharConcat(name, ':', amount);
    SplitCharAbsent(amount, ':');
  }

  // ---------------------------------------------------------------- presentation

  /** The argument of the presentation functions: either what
      gather_extra_fees_data returned, or one of its two indexes. Keys of an
      index are "Last, First" names or categories, never "by_name" or
      "by_category", so the two cases cannot be confused. */
  datatype FeeArg = WholeLedger(fees: ExtraFees) | OneIndex(index: Dict<seq<Charge>>)

  function ByName(arg: FeeArg): Dict<seq<Charge>>
  {
    match arg
    case WholeLedger(f) => f.byName
    case OneIndex(d) => d
  }

  function ByCategory(arg: FeeArg): Dict<seq<Charge>>
  {
    match arg
    case WholeLedger(f) => f.byCategory
    case OneIndex(d) => d
  }

  /** A charge as text: its category (or name), a space and its amount. */
  function ChargeText(c: Charge): string
  {
    c.0 + " " + IntToStr(c.1)
  }

  function ChargeTexts(cs: seq<Charge>): (r: seq<string>)
    ensures |r| == |cs|
    ensures forall i :: 0 <= i < |cs| ==> r[i] == ChargeText(cs[i])
  {
    if cs == [] then [] else [ChargeText(cs[0])] + ChargeTexts(cs[1..])
  }

  /** json_fees_by_name: the same names in the same order, each charge as "category amount". */
  function JsonFeesByName(arg: FeeArg): (r: Dict<seq<string>>)
    requires ByName(arg).Valid()
    ensures r.Valid() && r.keys == ByName(arg).keys
    ensures forall k :: k in r.vals ==> |r.vals[k]| == |ByName(arg).vals[k]|
    ensures forall k, i :: k in r.vals && 0 <= i < |r.vals[k]| ==>
      r.vals[k][i] == ChargeText(ByName(arg).vals[k][i])
  {
    var d := ByName(arg);
    Dict(d.keys, map k | k in d.vals :: ChargeTexts(d.vals[k]))
  }

  const ByNameHeader: seq<string> := ["Extra fees by member:", "====================="]

  /** One "Last, First: category amount, category amount" line per name. */
  function NameLines(keys: seq<string>, vals: map<string, seq<Charge>>): (r: seq<string>)
    requires forall k :: k in keys ==> k in vals
    ensures |r| == |keys|
    ensures forall i :: 0 <= i < |keys| ==> r[i] == keys[i] + ": " + JoinWith(ChargeTexts(vals[keys[i]]), ", ")
  {
    if keys == [] then []
    else [keys[0] + ": " + JoinWith(ChargeTexts(vals[keys[0]]), ", ")] + NameLines(keys[1..], vals)
  }

  /** present_fees_by_name: the header unless raw, then the name lines in sorted order. */
  function PresentFeesByName(arg: FeeArg, raw: bool): (r: seq<string>)
    requires ByName(arg).Valid()
    ensures var d := ByName(arg); var h := if raw then [] else ByNameHeader;
      && |r| == |h| + |d.keys| && r[..|h|] == h
      && Sorted(r[|h|..])
      && multiset(r[|h|..]) == multiset(NameLines(d.keys, d.vals))
  {
    var d := ByName(arg);
    var h := if raw then [] else ByNameHeader;
    var body := Sort(NameLines(d.keys, d.vals));
    assert (h + body)[|h|..] == body;
    assert (h + body)[..|h|] == h;
    h + body
  }

  /** The first line of a category's column, or AssertionError for a category
      the layout does not know. */
  function ColumnHead(category: string): Result<string>
  {
    if category == "Kayak" then Ok(category + ": $" + IntToStr(Rbc.KayakFee))
    else if category == "Dock" then Ok(category + ": $" + IntToStr(Rbc.DockFee))
    else if category == "Mooring" then Ok(category)
    else Err(AssertionError)
  }

  /** A charge in a column: moorings show their fee, the others only the name. */
  function ColumnEntries(category: string, cs: seq<Charge>): (r: seq<string>)
    ensures |r| == |cs|
    ensures forall i :: 0 <= i < |cs| ==>
      r[i] == if category == "Mooring" then cs[i].0 + ": $" + IntToStr(cs[i].1) else cs[i].0
  {
    if cs == [] then []
    else
      [if category == "Mooring" then cs[0].0 + ": $" + IntToStr(cs[0].1) else cs[0].0]
      + ColumnEntries(category, cs[1..])
  }

  /** The longest of the lines, and at least w. */
  function Widest(lines: seq<string>, w: nat): (m: nat)
    ensures m >= w
    ensures forall i :: 0 <= i < |lines| ==> |lines[i]| <= m
    ensures m == w || exists i :: 0 <= i < |lines| && |lines[i]| == m
  {
    if lines == [] then w
    else
      var m := Widest(lines[..|lines| - 1], w);
      var last := lines[|lines| - 1];
      assert forall i :: 0 <= i < |lines| - 1 ==> lines[i] == lines[..|lines| - 1][i];
      if |last| > m then |last| else m
  }

  /** A column: head, a rule of dashes as long as the head, the entries. */
  function Column(category: string, cs: seq<Charge>): Result<seq<string>>
  {
    match ColumnHead(category)
    case Err(e) => Err(e)
    case Ok(head) => Ok([head, Copies('-', |head|)] + ColumnEntries(category, cs))
  }

  /** The columns of the sorted categories, in order; the first unknown
      category raises AssertionError. */
  function Columns(categories: seq<string>, vals: map<string, seq<Charge>>): (r: Result<seq<seq<string>>>)
    requires forall c :: c in categories ==> c in vals
    ensures r.Ok? ==> |r.value| == |categories|
    ensures r.Ok? ==> forall i :: 0 <= i < |categories| ==> Column(categories[i], vals[categories[i]]) == Ok(r.value[i])
    ensures r.Err? ==> r == Err(AssertionError)
    ensures r.Err? <==> exists c :: c in categories && c !in FeeCategories
  {
    if categories == [] then Ok([])
    else
      var c := categories[0];
      assert forall x :: x in categories <==> x == c || x in categories[1..];
      assert Column(c, vals[c]).Err? <==> c !in FeeCategories;
      match Column(c, vals[c])
      case Err(e) => Err(e)
      case Ok(col) =>
        match Columns(categories[1..], vals)
        case Err(e) => Err(e)
        case Ok(rest) => Ok([col] + rest)
  }

  /** Each line padded with spaces to width w, then blank lines of width w to n lines. */
  function PadColumn(col: seq<string>, w: nat, n: nat): (r: seq<string>)
    requires forall i :: 0 <= i < |col| ==> |col[i]| <= w
    requires |col| <= n
    ensures |r| == n
    ensures forall i :: 0 <= i < n ==> |r[i]| == w
    ensures forall i :: 0 <= i < |col| ==> r[i] == LJust(col[i], w)
    ensures forall i :: |col| <= i < n ==> r[i] == Copies(' ', w)
  {
    seq(n, i requires 0 <= i < n => if i < |col| then LJust(col[i], w) else Copies(' ', w))
  }

  /** The longest column's length. */
  function Tallest(cols: seq<seq<string>>): (n: nat)
    ensures forall i :: 0 <= i < |cols| ==> |cols[i]| <= n
  {
    if cols == [] then 0
    else
      var n := Tallest(cols[..|cols| - 1]);
      assert forall i :: 0 <= i < |cols| - 1 ==> cols[i] == cols[..|cols| - 1][i];
      if |cols[|cols| - 1]| > n then |cols[|cols| - 1]| else n
  }

  function PadAll(cols: seq<seq<string>>, n: nat): (r: seq<seq<string>>)
    requires forall i :: 0 <= i < |cols| ==> |cols[i]| <= n
    ensures |r| == |cols|
    ensures forall i :: 0 <= i < |cols| ==> r[i] == PadColumn(cols[i], Widest(cols[i], 0), n)
  {
    if cols == [] then []
    else [PadColumn(cols[0], Widest(cols[0], 0), n)] + PadAll(cols[1..], n)
  }

  /** zip the columns and format each row '{} {} {}': no columns give no
      rows, fewer than three give too few values for the format (IndexError),
      and a fourth column would be ignored. */
  function Rows(cols: seq<seq<string>>, n: nat): (r: Result<seq<string>>)
    requires forall i :: 0 <= i < |cols| ==> |cols[i]| == n
  {
    if cols == [] || n == 0 then Ok([])
    else if |cols| < 3 then Err(IndexError)
    else Ok(seq(n, i requires 0 <= i < n => cols[0][i] + " " + cols[1][i] + " " + cols[2][i]))
  }

  /** present_fees_by_category: one column per category, in sorted order,
      each padded to its widest line and to the tallest column, laid side by
      side. The header lines it prepares are never returned. */
  function PresentFeesByCategory(arg: FeeArg): (r: Result<seq<string>>)
    requires ByCategory(arg).Valid()
    ensures r == Err(AssertionError) <==> exists c :: c in ByCategory(arg).vals && c !in FeeCategories
    ensures r.Err? ==> r.error == AssertionError || r.error == IndexError
  {
    var d := ByCategory(arg);
    var categories := SortedSet(d.vals.Keys);
    match Columns(categories, d.vals)
    case Err(e) => Err(e)
    case Ok(cols) => LayOut(cols)
  }

  /** The columns padded to their widths and to the tallest, side by side. */
  function LayOut(cols: seq<seq<string>>): Result<seq<string>>
  {
    var n := Tallest(cols);
    Rows(PadAll(cols, n), n)
  }

  /** Three columns lay out as one row per line of the tallest, each row
      line j of the three padded columns with a space between, and so as wide
      as the three widest lines and two spaces. */
  lemma LayOutOfThree(cols: seq<seq<string>>)
    requires |cols| == 3 && Tallest(cols) > 0
    ensures var n := Tallest(cols);
      var ws := [Widest(cols[0], 0), Widest(cols[1], 0), Widest(cols[2], 0)];
      var r := LayOut(cols);
      && r.Ok? && |r.value| == n
      && (forall j :: 0 <= j < n ==>
            r.value[j] == PadColumn(cols[0], ws[0], n)[j] + " " + PadColumn(cols[1], ws[1], n)[j] + " " + PadColumn(cols[2], ws[2], n)[j])
      && (forall j :: 0 <= j < n ==> |r.value[j]| == ws[0] + ws[1] + ws[2] + 2)
  {
    var n := Tallest(cols);
    var ws := [Widest(cols[0], 0), Widest(cols[1], 0), Widest(cols[2], 0)];
    var p := PadAll(cols, n);
    assert p[0] == PadColumn(cols[0], ws[0], n);
    assert p[1] == PadColumn(cols[1], ws[1], n);
    assert p[2] == PadColumn(cols[2], ws[2], n);
  }

  /** The ledger's own three categories give three columns of at least two lines. */
  lemma ThreeColumns(vals: map<string, seq<Charge>>)
    requires vals.Keys == {"Kayak", "Dock", "Mooring"}
    ensures var cols := Columns(["Dock", "Kayak", "Mooring"], vals);
      cols.Ok? && |cols.value| == 3 && Tallest(cols.value) >= 2
  {
    var s := ["Dock", "Kayak", "Mooring"];
    assert forall c :: c in s ==> c in FeeCategories;
    var cols := Columns(s, vals);
    assert Column(s[0], vals[s[0]]) == Ok(cols.value[0]);
    assert |cols.value[0]| >= 2;
  }

  /** The ledger's own three categories lay out as three columns, Dock,
      Kayak and Mooring in that order, each padded to its widest line and to
      the tallest column. */
  lemma CategoryLayout(arg: FeeArg)
    requires ByCategory(arg).Valid()
    requires ByCategory(arg).vals.Keys == {"Kayak", "Dock", "Mooring"}
    ensures var d := ByCategory(arg);
      var cols := Columns(["Dock", "Kayak", "Mooring"], d.vals);
      && cols.Ok?
      && PresentFeesByCategory(arg) == LayOut(cols.value)
      && |cols.value| == 3 && Tallest(cols.value) >= 2
  {
    SortedThree(ByCategory(arg).vals.Keys);
    ThreeColumns(ByCategory(arg).vals);
  }

  /** sorted({"Kayak", "Dock", "Mooring"}) */
  lemma SortedThree(keys: set<string>)
    requires keys == {"Kayak", "Dock", "Mooring"}
    ensures SortedSet(keys) == ["Dock", "Kayak", "Mooring"]
  {
    var r := SortedSet(keys);
    assert |r| == 3;
    ThreeOrder();
    assert "Dock" in r && "Mooring" in r;
    SortedHead(r, "Dock");
    SortedLast(r, "Mooring");
    assert r[1] in keys;
  }

  lemma ThreeOrder()
    ensures !StrLe("Kayak", "Dock") && !StrLe("Mooring", "Dock") && !StrLe("Mooring", "Kayak")
  {
    assert "Kayak"[0] == 'K' && "Dock"[0] == 'D' && "Mooring"[0] == 'M';
  }

  /** A sorted list that holds m, and nothing else at or below m, starts with m. */
  lemma SortedHead(r: seq<string>, m: string)
    requires Sorted(r) && m in r
    requires forall x :: x in r && x != m ==> !StrLe(x, m)
    ensures r[0] == m
  {
    var i :| 0 <= i < |r| && r[i] == m;
    if i > 0 {
      assert StrLe(r[0], r[i]);
    }
  }

  /** A sorted list that holds m, and nothing else at or above m, ends with m. */
  lemma SortedLast(r: seq<string>, m: string)
    requires Sorted(r) && m in r
    requires forall x :: x in r && x != m ==> !StrLe(m, x)
    ensures r[|r| - 1] == m
  {
    var i :| 0 <= i < |r| && r[i] == m;
    if i < |r| - 1 {
      assert StrLe(r[i], r[|r| - 1]);
    }
  }

  /** Any category other than Dock, Kayak and Mooring makes the layout fail
      with AssertionError; a ledger with an entry before its first header, for
      one, has the category "". */
  lemma UnknownCategoryFails(arg: FeeArg)
    requires ByCategory(arg).Valid()
    requires exists c :: c in ByCategory(arg).vals && c !in FeeCategories
    ensures PresentFeesByCategory(arg) == Err(AssertionError)
  {
    var d := ByCategory(arg);
    var c :| c in d.vals && c !in FeeCategories;
    var categories := SortedSet(d.vals.Keys);
    assert c in categories;
  }
}
