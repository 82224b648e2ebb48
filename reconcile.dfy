/** The integrity check of the club's data (ck_data, data.py:595-888): the
    gathered membership, contacts, applicant and extra-fees data are checked
    against each other and a report is assembled, while the membership and
    contacts email dicts and the by-status dict are pruned in place.

    The report is specified phase by phase, in the order the program runs
    them, as functions on a Stage (the report lists, the three dicts the
    check changes and its other locals); CkData runs the same phases on the
    club's dicts in place and is proved to end where Report does. */
module Reconcile {
  import opened Base
  import opened Strings
  import opened Sorting
  import opened Dicts
  import opened Problems
  import Rbc
  import Fees

  type Charges = seq<Fees.Charge>

  /** What the gatherers produced that the check only reads. */
  datatype Gathered = Gathered(
    malformed: seq<string>,                  // club.malformed
    gByGroup: map<string, set<string>>,      // club.g_by_group
    msByFeeCategory: Dict<Charges>,          // club.ms_by_fee_category
    feeCategoryByM: Dict<Charges>,           // club.fee_category_by_m
    extraFees: Fees.ExtraFees,               // gather_extra_fees_data
    aApplicants: Dict<seq<string>>)          // gather_applicant_data(...)["applicants"]

  datatype Options = Options(reportStatus: bool, feeDetails: bool, raw: bool, formfeed: bool)

  /** Helpers whose code is not part of this model, and Python's text for
      values the report prints. */
  datatype Helpers = Helpers(
    addHeader: (string, seq<string>, char, bool) -> seq<string>,  // the list add_header2list leaves
    showDict: Dict<seq<string>> -> seq<string>,                   // show_dict
    reprFees: Dict<Charges> -> string,                            // repr of a fees dict
    reprCharges: Charges -> string,                               // str of a list of (key, fee)
    reprNames: seq<string> -> string)                             // str of an unresolved collection of names

  /** The report's lists, the dicts the check changes, and its other locals. */
  datatype Stage = Stage(
    ret: seq<string>, ok: seq<string>,
    ms: Dict<Owner>, g: Dict<Owner>, stati: Dict<seq<string>>,
    sharedM: seq<string>, sharedG: seq<string>, nonMembers: seq<string>,
    notice: string, varying: seq<string>)

  /** A stage reached, and the exception that stopped the check there, if any. */
  datatype Run = Run(st: Stage, err: Option<Error>)

  /** The stages hold the same three dicts. */
  predicate SameDicts(a: Stage, b: Stage)
  {
    a.ms == b.ms && a.g == b.g && a.stati == b.stati
  }

  ghost predicate Wf(st: Stage)
  {
    st.ms.Valid() && st.g.Valid() && st.stati.Valid()
  }

  // ---------------------------------------------------------------- opening and malformed records

  const FirstLine := "Report Regarding Data Integrity"
  const FirstRule := "###############################"
  const NoMalformed := "No malformed records found."
  const MalformedHeader := "Malformed Records"

  /** The title and its rule, unless the report is raw or form-fed. */
  function Opening(o: Options): seq<string>
  {
    if !(o.raw || o.formfeed) then [FirstLine, FirstRule] else []
  }

  function MalformedPhase(st: Stage, malformed: seq<string>): Stage
  {
    if malformed == [] then st.(ok := st.ok + [NoMalformed])
    else st.(ret := Reported(st.ret, MalformedHeader, malformed))
  }

  // ---------------------------------------------------------------- dangling emails

  const DanglingMembers := "Dangling Member Email(s)"
  const DanglingContacts := "Dangling Contact Email(s)"

  /** One email dict after the resolver and the strict removal of its
      dangling emails, the report after them, and the shared entries. */
  datatype Side = Side(d: Dict<Owner>, ret: seq<string>, shared: seq<string>, err: Option<Error>)

  function Settle(d: Dict<Owner>, ret: seq<string>, header: string): (s: Side)
    requires d.Valid()
    ensures s.d.Valid()
    ensures s.err.Some? ==> s.err.value.KeyError?
  {
    ResolveKeepsKeys(d, |d.keys|);
    var r := Resolve(d);
    if r.dangling == [] then Side(r.d, ret, r.shared, None)
    else
      var removed := RemoveKeys(r.d, r.dangling, false);
      Side(removed.0, Reported(ret, header, r.dangling), r.shared, removed.1)
  }

  // ---------------------------------------------------------------- shared emails

  const SharedBoth := "Shared Emails (in both Membership Data & Gmail)"
  const SharedMembers := "Shared Member Email(s)"
  const SharedContacts := "Shared Contact Email(s)"

  function SharedPhase(st: Stage): (r: Run)
    requires Wf(st)
    ensures Wf(r.st)
    ensures r.err.Some? ==> r.err.value.KeyError?
  {
    if st.sharedM == [] && st.sharedG == [] then Run(st, None)
    else if st.sharedM == st.sharedG then Run(st.(ret := Reported(st.ret, SharedBoth, st.sharedM)), None)
    else if st.sharedM != [] then
      var p := RemoveKeys(st.ms, FirstPartsOnly(st.sharedM), false);
      Run(st.(ret := Reported(st.ret, SharedMembers, st.sharedM), ms := p.0), p.1)
    else
      var p := RemoveKeys(st.g, FirstPartsOnly(st.sharedG), false);
      Run(st.(ret := Reported(st.ret, SharedContacts, st.sharedG), g := p.0), p.1)
  }

  // ---------------------------------------------------------------- members with a status

  const StatusTitle := "Members /w 'status' Content"
  const StatusTitleRule := "==========================="

  /** The values of k, none when k is missing. */
  function ListAt<T>(d: Dict<seq<T>>, k: string): seq<T>
  {
    if k in d.vals then d.vals[k] else []
  }

  /** add2problems of each status in ks, with its members sorted, underlined
      with "-". */
  function StatusListing(ret: seq<string>, ks: seq<string>, d: Dict<seq<string>>): seq<string>
  {
    if ks == [] then ret
    else
      var k := ks[|ks| - 1];
      WithProblems(StatusListing(ret, ks[..|ks| - 1], d), k, Sort(ListAt(d, k)), [""], ["-"])
  }

  function StatusPhase(st: Stage, o: Options): Stage
  {
    if !o.reportStatus then st
    else
      var ret := st.ret + (if o.formfeed then [""] else [])
                        + (if !o.raw then ["", StatusTitle, StatusTitleRule] else []);
      st.(ret := StatusListing(ret, Sort(st.stati.keys), st.stati))
  }

  // ---------------------------------------------------------------- email coverage

  const MissingHeader := "Emails Missing from Google Contacts"
  const NoneMissing := "No emails missing from gmail contacts."

  /** The keys among the first n of d, in order, that other does not have. */
  function Unmatched(d: Dict<Owner>, other: map<string, Owner>, n: nat): seq<string>
    requires n <= |d.keys|
  {
    if n == 0 then []
    else
      var k := d.keys[n - 1];
      Unmatched(d, other, n - 1) + (if k !in other then [k] else [])
  }

  /** How an owner prints: its name, or the collection it still is. */
  function OwnerText(h: Helpers, o: Owner): string
  {
    match o
    case Name(n) => n
    case Names(ns) => h.reprNames(ns)
  }

  /** An email followed by its owner in parentheses. */
  function Described(h: Helpers, d: Dict<Owner>, k: string): string
  {
    k + " (" + (if k in d.vals then OwnerText(h, d.vals[k]) else "") + ")"
  }

  function Describe(h: Helpers, d: Dict<Owner>, ks: seq<string>): (r: seq<string>)
    ensures |r| == |ks|
  {
    if ks == [] then []
    else Describe(h, d, ks[..|ks| - 1]) + [Described(h, d, ks[|ks| - 1])]
  }

  function CoveragePhase(st: Stage, h: Helpers): Stage
  {
    var missing := Describe(h, st.ms, Unmatched(st.ms, st.g.vals, |st.ms.keys|));
    var st' := if missing != [] then st.(ret := Reported(st.ret, MissingHeader, missing))
               else st.(ok := st.ok + [NoneMissing]);
    st'.(nonMembers := Describe(h, st.g, Unmatched(st.g, st.ms.vals, |st.g.keys|)))
  }

  // ---------------------------------------------------------------- applicant groups and stati

  const GroupsMatch := "Gmail groups match Club data."

  /** The members under the first n of d's statuses that hold an 'a'. */
  function ApplicantNames(d: Dict<seq<string>>, n: nat): set<string>
    requires n <= |d.keys|
  {
    if n == 0 then {}
    else
      var k := d.keys[n - 1];
      ApplicantNames(d, n - 1) + (if 'a' in k then set x | x in ListAt(d, k) else {})
  }

  /** The lines for applicant groups that differ from the applicant stati. */
  function Mismatch(gApplicants: set<string>, mApplicants: set<string>): seq<string>
  {
    ["\nMismatch: Gmail groups vs Club data", "===================================",
     "", "Gmail groups", "------------"] + SortedSet(gApplicants)
    + ["", "Club status", "-----------"] + SortedSet(mApplicants)
  }

  /** The statuses, in order, that hold no 'a'. */
  function NonApplicant(ks: seq<string>): seq<string>
  {
    if ks == [] then []
    else (if 'a' in ks[0] then [] else [ks[0]]) + NonApplicant(ks[1..])
  }

  function GroupsPhase(st: Stage, gByGroup: map<string, set<string>>): (r: Run)
    requires Wf(st)
    ensures Wf(r.st)
    ensures r.err.Some? ==> r.err.value.KeyError?
    ensures r.err.None? ==> Rbc.ApplicantGroup in gByGroup && Rbc.MemberGroup in gByGroup
  {
    if Rbc.ApplicantGroup !in gByGroup then Run(st, Some(KeyError(Rbc.ApplicantGroup)))
    else
      var mApplicants := ApplicantNames(st.stati, |st.stati.keys|);
      var gApplicants := gByGroup[Rbc.ApplicantGroup];
      var st' := if mApplicants == gApplicants then st.(ok := st.ok + [GroupsMatch])
                 else st.(ret := st.ret + Mismatch(gApplicants, mApplicants));
      if Rbc.MemberGroup !in gByGroup then Run(st', Some(KeyError(Rbc.MemberGroup)))
      else
        var p := RemoveKeys(st.stati, NonApplicant(st.stati.keys), false);
        Run(st'.(stati := p.0), p.1)
  }

  const NoApplicantProblem := "No applicant problem."

  function ApplicantsPhase(st: Stage, a: Dict<seq<string>>, h: Helpers): (r: Stage)
    ensures SameDicts(r, st)
  {
    if a.vals != st.stati.vals then
      st.(ret := st.ret + ["\nApplicant problem:", "The following-"] + h.showDict(a)
                 + ["- is not the same as what follows-"] + h.showDict(st.stati)
                 + ["- End of comparison -"])
    else st.(ok := st.ok + [NoApplicantProblem])
  }

  const NonMembersHeader := "Contacts that are Not Members"
  const NoNonMembers := "No contacts that are not members."

  function NonMembersPhase(st: Stage): (r: Stage)
    ensures SameDicts(r, st)
  {
    if st.nonMembers != [] then st.(ret := Reported(st.ret, NonMembersHeader, st.nonMembers))
    else st.(ok := st.ok + [NoNonMembers])
  }

  // ---------------------------------------------------------------- fees

  const NoCategoryProblem := "No fees by category problem."
  const CategoryNotice := "Fee amounts (by category) don't match"
  const NoNameProblem := "No fees by name problem."
  const NameNotice := "Fee amounts don't match"
  const NameNoticeBrief := "Fee amounts don't match (try -d option for details)"

  /** The fees recorded for k, none when k is missing. */
  function ChargesAt(d: Dict<Charges>, k: string): Charges
  {
    if k in d.vals then d.vals[k] else []
  }

  function CategoryDump(h: Helpers, file: Dict<Charges>, club: Dict<Charges>): seq<string>
  {
    ["\nFees problem (by fee category):", "extra_fees_info[club.CATEGORY_KEY]:", h.reprFees(file),
     "###  !=  ###", "club.ms_by_fee_category:", h.reprFees(club)]
  }

  function NameDump(h: Helpers, file: Dict<Charges>, club: Dict<Charges>): seq<string>
  {
    ["\nFees problem (by name):", "extra_fees_info[club.NAME_KEY]:", h.reprFees(file),
     "###  !=  ###", "club.fee_category_by_m:", h.reprFees(club)]
  }

  /** The fees by category in the ledger against the club's. */
  function FeesByCategory(st: Stage, file: Dict<Charges>, club: Dict<Charges>, h: Helpers): (r: Stage)
    ensures SameDicts(r, st)
  {
    if file.vals == club.vals then st.(ok := st.ok + [NoCategoryProblem])
    else if file.vals.Keys == club.vals.Keys then st.(notice := CategoryNotice)
    else st.(ret := st.ret + CategoryDump(h, file, club))
  }

  /** The keys of ks, in order, whose fees differ between file and club. */
  function Differing(ks: seq<string>, file: Dict<Charges>, club: Dict<Charges>): seq<string>
  {
    if ks == [] then []
    else
      var k := ks[|ks| - 1];
      Differing(ks[..|ks| - 1], file, club) + (if ChargesAt(file, k) != ChargesAt(club, k) then [k] else [])
  }

  /** A name, then its fees from the file and from the club, separated by " != ". */
  function VaryLine(h: Helpers, file: Dict<Charges>, club: Dict<Charges>, k: string): string
  {
    k + ": " + h.reprCharges(ChargesAt(file, k)) + " != " + h.reprCharges(ChargesAt(club, k))
  }

  function VaryLines(h: Helpers, file: Dict<Charges>, club: Dict<Charges>, ks: seq<string>): (r: seq<string>)
    ensures |r| == |ks|
  {
    if ks == [] then []
    else VaryLines(h, file, club, ks[..|ks| - 1]) + [VaryLine(h, file, club, ks[|ks| - 1])]
  }

  /** The fees by name in the ledger against the club's; with details, the
      names whose fees differ are listed in sorted order. */
  function FeesByName(st: Stage, file: Dict<Charges>, club: Dict<Charges>, details: bool, h: Helpers): (r: Stage)
    ensures SameDicts(r, st)
  {
    if file.vals == club.vals then st.(ok := st.ok + [NoNameProblem])
    else if file.vals.Keys == club.vals.Keys then
      if details then
        var ks := SortedSet(file.vals.Keys);
        st.(notice := NameNotice, varying := st.varying + VaryLines(h, file, club, Differing(ks, file, club)))
      else st.(notice := NameNoticeBrief)
    else st.(ret := st.ret + NameDump(h, file, club))
  }

  // ---------------------------------------------------------------- closing

  const OkHeader := "No Problems with the Following"
  const AiNotice := "Acceptable Inconsistency"
  const DisparitiesHeader := "Fee Disparities: probably some have paid"

  function Closing(st: Stage, h: Helpers): seq<string>
  {
    var r1 := if st.ok != [] then Reported(st.ret, OkHeader, st.ok) else st.ret;
    var r2 := if st.notice != "" then h.addHeader(AiNotice, r1, '=', false) + [st.notice] else r1;
    if st.varying != [] then h.addHeader(DisparitiesHeader, r2, '-', true) + st.varying else r2
  }

  // ---------------------------------------------------------------- the whole check

  /** The dangling and shared emails of both email dicts. */
  function EmailPhases(st: Stage): (r: Run)
    requires Wf(st)
    ensures Wf(r.st) && r.st.stati == st.stati
    ensures r.err.Some? ==> r.err.value.KeyError?
  {
    var m := Settle(st.ms, st.ret, DanglingMembers);
    var s1 := st.(ms := m.d, ret := m.ret, sharedM := m.shared);
    if m.err.Some? then Run(s1, m.err)
    else
      var c := Settle(s1.g, s1.ret, DanglingContacts);
      var s2 := s1.(g := c.d, ret := c.ret, sharedG := c.shared);
      if c.err.Some? then Run(s2, c.err)
      else SharedPhase(s2)
  }

  /** The status listing, the email coverage and the applicant groups. */
  function ListingPhases(st: Stage, gd: Gathered, o: Options, h: Helpers): (r: Run)
    requires Wf(st)
    ensures Wf(r.st)
    ensures r.err.Some? ==> r.err.value.KeyError?
    ensures r.err.None? ==> Rbc.ApplicantGroup in gd.gByGroup && Rbc.MemberGroup in gd.gByGroup
  {
    var s1 := CoveragePhase(StatusPhase(st, o), h);
    assert Wf(s1);
    GroupsPhase(s1, gd.gByGroup)
  }

  /** The applicants, the non-members, the fees and the closing summary. */
  function FinalPhases(st: Stage, gd: Gathered, o: Options, h: Helpers): Stage
  {
    var s1 := NonMembersPhase(ApplicantsPhase(st, gd.aApplicants, h));
    var s2 := FeesByCategory(s1, gd.extraFees.byCategory, gd.msByFeeCategory, h);
    var s3 := FeesByName(s2, gd.extraFees.byName, gd.feeCategoryByM, o.feeDetails, h);
    s3.(ret := Closing(s3, h))
  }

  /** ck_data on the gathered data and the club's three dicts: the stage it
      ends in, with the report in its ret, or the exception it raises. */
  function Report(gd: Gathered, o: Options, h: Helpers,
                  ms: Dict<Owner>, g: Dict<Owner>, stati: Dict<seq<string>>): (r: Run)
    requires ms.Valid() && g.Valid() && stati.Valid()
    ensures r.err.Some? ==> r.err.value.KeyError?
    ensures r.err.None? ==> Rbc.ApplicantGroup in gd.gByGroup && Rbc.MemberGroup in gd.gByGroup
  {
    var s0 := MalformedPhase(Stage(Opening(o), [], ms, g, stati, [], [], [], "", []), gd.malformed);
    assert Wf(s0);
    var r1 := EmailPhases(s0);
    if r1.err.Some? then r1
    else
      var r2 := ListingPhases(r1.st, gd, o, h);
      if r2.err.Some? then r2
      else Run(FinalPhases(r2.st, gd, o, h), None)
  }

  // ---------------------------------------------------------------- the check, in place

  /** The resolver and the strict removal of the dangling emails, on one of
      the club's email dicts. */
  method SettleEmails(byEmail: PyDict<Owner>, ret: PyList, header: string) returns (shared: seq<string>, err: Option<Error>)
    requires byEmail.d.Valid() && Unresolved(byEmail.d)
    modifies byEmail, ret
    ensures Side(byEmail.d, ret.items, shared, err) == Settle(old(byEmail.d), old(ret.items), header)
  {
    ghost var d0 := byEmail.d;
    var dangling;
    dangling, shared := ResolveEmails(byEmail);
    ResolveKeepsKeys(d0, |d0.keys|);
    err := None;
    if dangling != [] {
      Add2Problems(header, dangling, ret, [""], ["="]);
      err := RemoveUnwantedItems(byEmail, dangling, false);
    }
  }

  /** The lines "{} ({})" for the emails of d, in order, that other lacks. */
  method UnmatchedLines(d: Dict<Owner>, other: map<string, Owner>, h: Helpers) returns (lines: seq<string>)
    ensures lines == Describe(h, d, Unmatched(d, other, |d.keys|))
  {
    lines := [];
    for i := 0 to |d.keys|
      invariant lines == Describe(h, d, Unmatched(d, other, i))
    {
      var k := d.keys[i];
      ghost var u := Unmatched(d, other, i);
      assert Unmatched(d, other, i + 1) == u + (if k !in other then [k] else []);
      if k !in other {
        assert (u + [k])[..|u|] == u;
        assert Describe(h, d, u + [k]) == Describe(h, d, u) + [Described(h, d, k)];
        lines := lines + [Described(h, d, k)];
        assert lines == Describe(h, d, Unmatched(d, other, i + 1));
      } else {
        assert Unmatched(d, other, i + 1) == u;
      }
    }
  }

  /** The members of the statuses holding an 'a'. */
  method MemberApplicants(d: Dict<seq<string>>) returns (names: set<string>)
    ensures names == ApplicantNames(d, |d.keys|)
  {
    names := {};
    for i := 0 to |d.keys|
      invariant names == ApplicantNames(d, i)
    {
      var k := d.keys[i];
      if 'a' in k {
        var members := ListAt(d, k);
        for j := 0 to |members|
          invariant names == ApplicantNames(d, i) + set x | x in members[..j]
        {
          ghost var before := members[..j];
          ghost var after := members[..j + 1];
          assert after == before + [members[j]];
          assert (set x | x in after) == (set x | x in before) + {members[j]};
          names := names + {members[j]};
        }
        assert members[..|members|] == members;
      }
    }
  }

  /** Pops every status without an 'a', in the dict's order; every pop
      finds its key. */
  method PopNonApplicant(stati: PyDict<seq<string>>)
    requires stati.d.Valid()
    modifies stati
    ensures RemoveKeys(old(stati.d), NonApplicant(old(stati.d).keys), false) == (stati.d, None)
  {
    ghost var d0 := stati.d;
    var keys := stati.d.keys;
    for i := 0 to |keys|
      invariant stati.d.Valid()
      invariant forall j :: i <= j < |keys| ==> keys[j] in stati.d.vals
      invariant forall j, l :: 0 <= j < l < |keys| ==> keys[j] != keys[l]
      invariant RemoveKeys(stati.d, NonApplicant(keys[i..]), false) == RemoveKeys(d0, NonApplicant(keys), false)
    {
      PopIfNonApplicant(stati, keys, i);
    }
    assert keys[|keys|..] == [];
  }

  /** One turn of the pop loop, at keys[i]. */
  method PopIfNonApplicant(stati: PyDict<seq<string>>, keys: seq<string>, i: nat)
    requires stati.d.Valid() && i < |keys|
    requires forall j :: i <= j < |keys| ==> keys[j] in stati.d.vals
    requires forall j, l :: 0 <= j < l < |keys| ==> keys[j] != keys[l]
    modifies stati
    ensures stati.d.Valid()
    ensures forall j :: i + 1 <= j < |keys| ==> keys[j] in stati.d.vals
    ensures RemoveKeys(stati.d, NonApplicant(keys[i + 1..]), false) == RemoveKeys(old(stati.d), NonApplicant(keys[i..]), false)
  {
    ghost var t := NonApplicant(keys[i + 1..]);
    assert keys[i..][1..] == keys[i + 1..];
    assert NonApplicant(keys[i..]) == (if 'a' in keys[i] then [] else [keys[i]]) + t;
    if 'a' !in keys[i] {
      ghost var d0 := stati.d;
      assert ([keys[i]] + t)[1..] == t;
      assert RemoveKeys(d0, [keys[i]] + t, false) == RemoveKeys(d0.Del(keys[i]), t, false);
      var _ := stati.Delete(keys[i]);
      forall j | i + 1 <= j < |keys| ensures keys[j] in stati.d.vals {
        assert keys[j] != keys[i];
      }
      assert stati.d == d0.Del(keys[i]);
    } else {
      assert [] + t == t;
    }
  }

  /** The '{}: {} != {}' lines of the names whose fees differ, in the order of ks. */
  method VaryingAmounts(file: Dict<Charges>, club: Dict<Charges>, ks: seq<string>, h: Helpers) returns (lines: seq<string>)
    ensures lines == VaryLines(h, file, club, Differing(ks, file, club))
  {
    lines := [];
    for i := 0 to |ks|
      invariant lines == VaryLines(h, file, club, Differing(ks[..i], file, club))
    {
      var k := ks[i];
      assert ks[..i + 1][..i] == ks[..i];
      ghost var u := Differing(ks[..i], file, club);
      assert Differing(ks[..i + 1], file, club) == u + (if ChargesAt(file, k) != ChargesAt(club, k) then [k] else []);
      if ChargesAt(file, k) != ChargesAt(club, k) {
        assert (u + [k])[..|u|] == u;
        assert VaryLines(h, file, club, u + [k]) == VaryLines(h, file, club, u) + [VaryLine(h, file, club, k)];
        lines := lines + [VaryLine(h, file, club, k)];
        assert lines == VaryLines(h, file, club, Differing(ks[..i + 1], file, club));
      } else {
        assert Differing(ks[..i + 1], file, club) == u;
      }
    }
    assert ks[..|ks|] == ks;
  }

  /** add2problems of each status of ks in turn. */
  method StatusSections(ret: PyList, ks: seq<string>, d: Dict<seq<string>>)
    modifies ret
    ensures ret.items == StatusListing(old(ret.items), ks, d)
  {
    ghost var ret0 := ret.items;
    for i := 0 to |ks|
      invariant ret.items == StatusListing(ret0, ks[..i], d)
    {
      assert ks[..i + 1][..i] == ks[..i];
      Add2Problems(ks[i], Sort(ListAt(d, ks[i])), ret, [""], ["-"]);
    }
    assert ks[..|ks|] == ks;
  }

  /** ck_data's state: its report lists, the club's dicts it changes and its
      other locals. */
  class Check {
    const ret: PyList
    const ok: PyList
    const ms: PyDict<Owner>
    const g: PyDict<Owner>
    const stati: PyDict<seq<string>>
    var sharedM: seq<string>
    var sharedG: seq<string>
    var nonMembers: seq<string>
    var notice: string
    var varying: seq<string>

    ghost predicate Distinct()
      reads this
    {
      ret != ok && ms != g
    }

    ghost function Now(): Stage
      reads this, ret, ok, ms, g, stati
    {
      Stage(ret.items, ok.items, ms.d, g.d, stati.d, sharedM, sharedG, nonMembers, notice, varying)
    }

    constructor (ret: PyList, ok: PyList, ms: PyDict<Owner>, g: PyDict<Owner>, stati: PyDict<seq<string>>)
      ensures this.ret == ret && this.ok == ok && this.ms == ms && this.g == g && this.stati == stati
      ensures sharedM == [] && sharedG == [] && nonMembers == [] && notice == "" && varying == []
    {
      this.ret, this.ok, this.ms, this.g, this.stati := ret, ok, ms, g, stati;
      sharedM, sharedG, nonMembers, notice, varying := [], [], [], "", [];
    }

    method Malformed(malformed: seq<string>)
      requires Distinct()
      modifies ret, ok
      ensures Now() == MalformedPhase(old(Now()), malformed)
    {
      if malformed == [] {
        ok.Append(NoMalformed);
      } else {
        Add2Problems(MalformedHeader, malformed, ret, [""], ["="]);
      }
    }

    method Emails() returns (err: Option<Error>)
      requires Distinct() && Wf(Now()) && Unresolved(ms.d) && Unresolved(g.d)
      modifies this, ret, ms, g
      ensures Run(Now(), err) == EmailPhases(old(Now()))
    {
      sharedM, err := SettleEmails(ms, ret, DanglingMembers);
      if err.Some? {
        return;
      }
      sharedG, err := SettleEmails(g, ret, DanglingContacts);
      if err.Some? {
        return;
      }
      err := Shared();
    }

    method Shared() returns (err: Option<Error>)
      requires Distinct() && Wf(Now())
      modifies ret, ms, g
      ensures Run(Now(), err) == SharedPhase(old(Now()))
    {
      err := None;
      if sharedM != [] || sharedG != [] {
        if sharedM == sharedG {
          Add2Problems(SharedBoth, sharedM, ret, [""], ["="]);
        } else if sharedM != [] {
          Add2Problems(SharedMembers, sharedM, ret, [""], ["="]);
          err := RemoveUnwantedItems(ms, FirstPartsOnly(sharedM), false);
        } else if sharedG != [] {
          Add2Problems(SharedContacts, sharedG, ret, [""], ["="]);
          err := RemoveUnwantedItems(g, FirstPartsOnly(sharedG), false);
        } else {
          assert false;
        }
      }
    }

    method Status(o: Options)
      requires Distinct()
      modifies ret
      ensures Now() == StatusPhase(old(Now()), o)
    {
      ghost var st := Now();
      if o.reportStatus {
        if o.formfeed {
          ret.Append("");
        }
        if !o.raw {
          ret.Extend(["", StatusTitle, StatusTitleRule]);
        }
        assert ret.items == st.ret + (if o.formfeed then [""] else [])
                            + (if !o.raw then ["", StatusTitle, StatusTitleRule] else []);
        StatusSections(ret, Sort(stati.d.keys), stati.d);
        assert Now() == st.(ret := ret.items);
      }
    }

    method Coverage(h: Helpers)
      requires Distinct()
      modifies this, ret, ok
      ensures Now() == CoveragePhase(old(Now()), h)
    {
      var missing := UnmatchedLines(ms.d, g.d.vals, h);
      if missing != [] {
        Add2Problems(MissingHeader, missing, ret, [""], ["="]);
      } else {
        ok.Append(NoneMissing);
      }
      nonMembers := UnmatchedLines(g.d, ms.d.vals, h);
    }

    method Groups(gByGroup: map<string, set<string>>) returns (err: Option<Error>)
      requires Distinct() && Wf(Now())
      modifies ret, ok, stati
      ensures Run(Now(), err) == GroupsPhase(old(Now()), gByGroup)
    {
      var mApplicants := MemberApplicants(stati.d);
      if Rbc.ApplicantGroup !in gByGroup {
        return Some(KeyError(Rbc.ApplicantGroup));
      }
      var gApplicants := gByGroup[Rbc.ApplicantGroup];
      if mApplicants == gApplicants {
        ok.Append(GroupsMatch);
      } else {
        ret.Extend(Mismatch(gApplicants, mApplicants));
      }
      if Rbc.MemberGroup !in gByGroup {
        return Some(KeyError(Rbc.MemberGroup));
      }
      PopNonApplicant(stati);
      err := None;
    }

    method Applicants(a: Dict<seq<string>>, h: Helpers)
      requires Distinct()
      modifies ret, ok
      ensures Now() == ApplicantsPhase(old(Now()), a, h)
    {
      ghost var st := Now();
      if a.vals != stati.d.vals {
        ret.Append("\nApplicant problem:");
        ret.Append("The following-");
        ret.Extend(h.showDict(a));
        ret.Append("- is not the same as what follows-");
        ret.Extend(h.showDict(stati.d));
        ret.Append("- End of comparison -");
        assert ret.items == ApplicantsPhase(st, a, h).ret;
        assert Now() == st.(ret := ret.items);
      } else {
        ok.Append(NoApplicantProblem);
      }
    }

    method NonMembers()
      requires Distinct()
      modifies ret, ok
      ensures Now() == NonMembersPhase(old(Now()))
    {
      if nonMembers != [] {
        Add2Problems(NonMembersHeader, nonMembers, ret, [""], ["="]);
      } else {
        ok.Append(NoNonMembers);
      }
    }

    method ByCategory(file: Dict<Charges>, club: Dict<Charges>, h: Helpers)
      requires Distinct()
      modifies this, ret, ok
      ensures Now() == FeesByCategory(old(Now()), file, club, h)
    {
      if file.vals != club.vals {
        if file.vals.Keys == club.vals.Keys {
          notice := CategoryNotice;
        } else {
          ret.Extend(CategoryDump(h, file, club));
        }
      } else {
        ok.Append(NoCategoryProblem);
      }
    }

    method ByName(file: Dict<Charges>, club: Dict<Charges>, details: bool, h: Helpers)
      requires Distinct()
      modifies this, ret, ok
      ensures Now() == FeesByName(old(Now()), file, club, details, h)
    {
      ghost var st := Now();
      if file.vals != club.vals {
        if file.vals.Keys == club.vals.Keys {
          if details {
            var ks := SortedSet(file.vals.Keys);
            var lines := VaryingAmounts(file, club, ks, h);
            notice := NameNotice;
            varying := varying + lines;
            assert Now() == st.(notice := NameNotice, varying := st.varying + lines);
          } else {
            notice := NameNoticeBrief;
            assert Now() == st.(notice := NameNoticeBrief);
          }
        } else {
          ret.Extend(NameDump(h, file, club));
          assert Now() == st.(ret := st.ret + NameDump(h, file, club));
        }
      } else {
        ok.Append(NoNameProblem);
        assert Now() == st.(ok := st.ok + [NoNameProblem]);
      }
    }

    method Close(h: Helpers)
      requires Distinct()
      modifies ret
      ensures Now() == old(Now()).(ret := Closing(old(Now()), h))
    {
      if ok.items != [] {
        Add2Problems(OkHeader, ok.items, ret, [""], ["="]);
      }
      if notice != "" {
        ret.items := h.addHeader(AiNotice, ret.items, '=', false);
        ret.Append(notice);
      }
      if varying != [] {
        ret.items := h.addHeader(DisparitiesHeader, ret.items, '-', true);
        ret.Extend(varying);
      }
    }

    /** The status listing, the email coverage and the applicant groups. */
    method Listing(gd: Gathered, o: Options, h: Helpers) returns (err: Option<Error>)
      requires Distinct() && Wf(Now())
      modifies this, ret, ok, stati
      ensures Run(Now(), err) == ListingPhases(old(Now()), gd, o, h)
    {
      Status(o);
      Coverage(h);
      err := Groups(gd.gByGroup);
    }

    /** The applicants, the non-members, the fees and the closing summary. */
    method Final(gd: Gathered, o: Options, h: Helpers)
      requires Distinct()
      modifies this, ret, ok
      ensures Now() == FinalPhases(old(Now()), gd, o, h)
    {
      Applicants(gd.aApplicants, h);
      NonMembers();
      ByCategory(gd.extraFees.byCategory, gd.msByFeeCategory, h);
      ByName(gd.extraFees.byName, gd.feeCategoryByM, o.feeDetails, h);
      Close(h);
    }
  }

  /** ck_data: the report, or the exception raised; the club's email dicts
      and its by-status dict are left as Report says. */
  method CkData(gd: Gathered, o: Options, h: Helpers,
                ms: PyDict<Owner>, g: PyDict<Owner>, stati: PyDict<seq<string>>) returns (result: Result<seq<string>>)
    requires ms != g
    requires ms.d.Valid() && g.d.Valid() && stati.d.Valid() && Unresolved(ms.d) && Unresolved(g.d)
    modifies ms, g, stati
    ensures var run := Report(gd, o, h, old(ms.d), old(g.d), old(stati.d));
            && ms.d == run.st.ms && g.d == run.st.g && stati.d == run.st.stati
            && result == if run.err.Some? then Err(run.err.value) else Ok(run.st.ret)
  {
    var ret := new PyList([]);
    var ok := new PyList([]);
    if !(o.raw || o.formfeed) {
      ret.Append(FirstLine);
      ret.Append(FirstRule);
    }
    var c := new Check(ret, ok, ms, g, stati);
    ghost var s0 := c.Now();
    assert s0 == Stage(Opening(o), [], old(ms.d), old(g.d), old(stati.d), [], [], [], "", []);
    c.Malformed(gd.malformed);
    ghost var s1 := c.Now();
    assert s1 == MalformedPhase(s0, gd.malformed);
    var err := c.Emails();
    ghost var r1 := EmailPhases(s1);
    assert Run(c.Now(), err) == r1;
    if err.Some? {
      return Err(err.value);
    }
    err := c.Listing(gd, o, h);
    ghost var r2 := ListingPhases(r1.st, gd, o, h);
    assert Run(c.Now(), err) == r2;
    if err.Some? {
      return Err(err.value);
    }
    c.Final(gd, o, h);
    assert c.Now() == FinalPhases(r2.st, gd, o, h);
    result := Ok(ret.items);
  }
}
