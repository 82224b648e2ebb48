/** What the integrity check guarantees: how each email of the club's two
    email dicts ends up, when the check raises, which statuses survive, and
    how the fee comparisons and the report's sections come out. */
module ReconcileFacts {
  import opened Base
  import opened Strings
  import opened Sorting
  import opened Dicts
  import opened Problems
  import opened Reconcile
  import Rbc

  /** No email holds a space, so first_parts_only gives each shared entry's
      email back. */
  predicate NoSpaces(d: Dict<Owner>)
  {
    forall k :: k in d.vals ==> ' ' !in k
  }

  /** The value an email of d has once its set is resolved. */
  function SettledOwner(d: Dict<Owner>, k: string): Owner
    requires k in d.vals
  {
    var s := NamesOf(d, k);
    if |s| == 1 then Name(s[0]) else d.vals[k]
  }

  /** An email that ck_data keeps: one with a single name, or one with several
      when its side's shared emails are not removed. */
  predicate Kept(d: Dict<Owner>, k: string, dropShared: bool)
  {
    |NamesOf(d, k)| == 1 || (|NamesOf(d, k)| >= 2 && !dropShared)
  }

  // ---------------------------------------------------------------- one email dict

  /** The emails without a name, in the dict's order, are exactly those. */
  lemma EmailsWithExactly(d: Dict<Owner>, several: bool)
    requires d.Valid()
    ensures forall k :: k in EmailsWith(d, |d.keys|, several) <==> k in d.vals && Picked(d, k, several)
  {
    EmailsWithPicked(d, |d.keys|, several);
    EmailsWithComplete(d, |d.keys|, several);
    forall k | k in d.vals && Picked(d, k, several) ensures k in EmailsWith(d, |d.keys|, several) {
      var m :| 0 <= m < |d.keys| && d.keys[m] == k;
    }
  }

  /** Resolving an email dict and deleting its dangling emails never raises;
      an email stays exactly when it has a name, and then holds its name if
      it had one, or its names if it had several. */
  lemma SettleOutcome(d: Dict<Owner>, ret: seq<string>, header: string)
    requires d.Valid() && Unresolved(d)
    ensures var s := Settle(d, ret, header);
            && s.err == None
            && (forall k :: k in s.d.vals <==> k in d.vals && |NamesOf(d, k)| != 0)
            && (forall k :: k in s.d.vals ==> k in d.vals && s.d.vals[k] == SettledOwner(d, k))
  {
    var r := Resolve(d);
    DanglingRemoval(d);
    ResolveKeepsKeys(d, |d.keys|);
    ResolvedLists(d, |d.keys|);
    EmailsWithExactly(d, false);
    forall k | k in d.vals ensures k in r.d.vals && r.d.vals[k] == SettledOwner(d, k) {
      var m :| 0 <= m < |d.keys| && d.keys[m] == k;
      ResolvedValue(d, m);
    }
  }

  /** The dangling section lists, in the dict's order, exactly the emails
      without a name, and appears only when there is one. */
  lemma SettleReport(d: Dict<Owner>, ret: seq<string>, header: string)
    requires d.Valid()
    ensures var e := EmailsWith(d, |d.keys|, false);
            && (forall k :: k in e <==> k in d.vals && |NamesOf(d, k)| == 0)
            && Settle(d, ret, header).ret == if e == [] then ret else Reported(ret, header, e)
  {
    ResolvedLists(d, |d.keys|);
    EmailsWithExactly(d, false);
  }

  /** The strict removal of a settled dict's shared emails never raises and
      leaves exactly the emails with one name, with their values. */
  lemma SettledSharedRemoval(d: Dict<Owner>, ret: seq<string>, header: string)
    requires d.Valid() && Unresolved(d) && NoSpaces(d)
    ensures var s := Settle(d, ret, header);
            var p := RemoveKeys(s.d, FirstPartsOnly(s.shared), false);
            && p.1 == None
            && (forall k :: k in p.0.vals <==> k in d.vals && |NamesOf(d, k)| == 1)
            && (forall k :: k in p.0.vals ==> k in s.d.vals && p.0.vals[k] == s.d.vals[k])
  {
    var s := Settle(d, ret, header);
    var e := EmailsWith(d, |d.keys|, true);
    SettleOutcome(d, ret, header);
    SharedRemoval(d);
    EmailsWithPicked(d, |d.keys|, true);
    EmailsWithDistinct(d, |d.keys|, true);
    EmailsWithExactly(d, true);
    assert FirstPartsOnly(s.shared) == e;
    RemoveStrict(s.d, e);
  }

  // ---------------------------------------------------------------- both email dicts

  /** ck_data's email phases never raise when no email holds a space. Each
      member email is kept exactly when it has one name, or several and the
      member side's shared emails are not removed (they are removed when the
      two sides' shared lists differ and the member side has some); each
      contact email likewise, its side's shared emails being removed only
      when the lists differ and the member side has none. A kept email holds
      its settled value, and each side's shared entries name, in order, the
      emails with several names. */
  lemma EmailPhasesOutcome(st: Stage)
    requires Wf(st) && Unresolved(st.ms) && Unresolved(st.g) && NoSpaces(st.ms) && NoSpaces(st.g)
    ensures var r := EmailPhases(st);
            var dropM := r.st.sharedM != r.st.sharedG && r.st.sharedM != [];
            var dropG := r.st.sharedM != r.st.sharedG && r.st.sharedM == [];
            && r.err == None
            && (forall k :: k in r.st.ms.vals <==> k in st.ms.vals && Kept(st.ms, k, dropM))
            && (forall k :: k in r.st.ms.vals ==> k in st.ms.vals && r.st.ms.vals[k] == SettledOwner(st.ms, k))
            && (forall k :: k in r.st.g.vals <==> k in st.g.vals && Kept(st.g, k, dropG))
            && (forall k :: k in r.st.g.vals ==> k in st.g.vals && r.st.g.vals[k] == SettledOwner(st.g, k))
            && FirstPartsOnly(r.st.sharedM) == EmailsWith(st.ms, |st.ms.keys|, true)
            && FirstPartsOnly(r.st.sharedG) == EmailsWith(st.g, |st.g.keys|, true)
  {
    var m := Settle(st.ms, st.ret, DanglingMembers);
    var c := Settle(st.g, m.ret, DanglingContacts);
    var s2 := st.(ms := m.d, ret := c.ret, sharedM := m.shared, g := c.d, sharedG := c.shared);
    assert EmailPhases(st) == SharedPhase(s2) by {
      SettleOutcome(st.ms, st.ret, DanglingMembers);
      SettleOutcome(st.g, m.ret, DanglingContacts);
    }
    SettledSharedRemoval(st.ms, st.ret, DanglingMembers);
    SettledSharedRemoval(st.g, m.ret, DanglingContacts);
    SharedPhaseSides(s2);
    SideOutcome(st.ms, st.ret, DanglingMembers, m.shared != c.shared && m.shared != []);
    SideOutcome(st.g, m.ret, DanglingContacts, m.shared != c.shared && m.shared == []);
    SharedRemoval(st.ms);
    SharedRemoval(st.g);
  }

  /** The shared phase removes one side's shared emails at most: the member
      side's when the lists differ and it has some, else the contact side's
      when the lists differ. It raises only if that removal does. */
  lemma SharedPhaseSides(st: Stage)
    requires Wf(st)
    requires RemoveKeys(st.ms, FirstPartsOnly(st.sharedM), false).1 == None
    requires RemoveKeys(st.g, FirstPartsOnly(st.sharedG), false).1 == None
    ensures var r := SharedPhase(st);
            && r.err == None
            && r.st.sharedM == st.sharedM && r.st.sharedG == st.sharedG
            && r.st.ms == SideAfter(Side(st.ms, [], st.sharedM, None), st.sharedM != st.sharedG && st.sharedM != [])
            && r.st.g == SideAfter(Side(st.g, [], st.sharedG, None), st.sharedM != st.sharedG && st.sharedM == [])
            && (st.sharedM == [] && st.sharedG == [] ==> r.st.ret == st.ret)
            && (st.sharedM == st.sharedG && st.sharedM != [] ==> r.st.ret == Reported(st.ret, SharedBoth, st.sharedM))
            && (st.sharedM != st.sharedG && st.sharedM != [] ==> r.st.ret == Reported(st.ret, SharedMembers, st.sharedM))
            && (st.sharedM != st.sharedG && st.sharedM == [] ==> r.st.ret == Reported(st.ret, SharedContacts, st.sharedG))
  {
  }

  /** One side's dict after the shared phase: its settled dict, less its
      shared emails when they are dropped. */
  function SideAfter(s: Side, drop: bool): Dict<Owner>
    requires s.d.Valid()
  {
    if drop then RemoveKeys(s.d, FirstPartsOnly(s.shared), false).0 else s.d
  }

  /** Which emails one side keeps, and with what value. */
  lemma SideOutcome(d: Dict<Owner>, ret: seq<string>, header: string, drop: bool)
    requires d.Valid() && Unresolved(d) && NoSpaces(d)
    ensures var f := SideAfter(Settle(d, ret, header), drop);
            && (forall k :: k in f.vals <==> k in d.vals && Kept(d, k, drop))
            && (forall k :: k in f.vals ==> k in d.vals && f.vals[k] == SettledOwner(d, k))
  {
    SettleOutcome(d, ret, header);
    SettledSharedRemoval(d, ret, header);
  }

  // ---------------------------------------------------------------- email coverage

  lemma {:induction false} UnmatchedUpTo(d: Dict<Owner>, other: map<string, Owner>, n: nat)
    requires n <= |d.keys|
    ensures forall k :: k in Unmatched(d, other, n) <==> k !in other && exists m :: 0 <= m < n && d.keys[m] == k
  {
    if n > 0 {
      UnmatchedUpTo(d, other, n - 1);
    }
  }

  /** The emails reported as missing from the other dict are exactly the
      emails of d that the other dict lacks. */
  lemma UnmatchedExactly(d: Dict<Owner>, other: map<string, Owner>)
    requires d.Valid()
    ensures forall k :: k in Unmatched(d, other, |d.keys|) <==> k in d.vals && k !in other
  {
    UnmatchedUpTo(d, other, |d.keys|);
  }

  /** "No emails missing" is recorded exactly when every member email is a
      contact, and the report is then left as it was; the non-member
      contacts are none exactly when every contact email is a member's. */
  lemma CoverageOutcome(st: Stage, h: Helpers)
    requires Wf(st)
    ensures var r := CoveragePhase(st, h);
            && ((forall k :: k in st.ms.vals ==> k in st.g.vals) <==> r.ok == st.ok + [NoneMissing])
            && ((forall k :: k in st.ms.vals ==> k in st.g.vals) ==> r.ret == st.ret)
            && ((forall k :: k in st.g.vals ==> k in st.ms.vals) <==> r.nonMembers == [])
            && r.ms == st.ms && r.g == st.g && r.stati == st.stati
  {
    UnmatchedExactly(st.ms, st.g.vals);
    UnmatchedExactly(st.g, st.ms.vals);
    var u := Unmatched(st.ms, st.g.vals, |st.ms.keys|);
    if u != [] {
      assert u[0] in u;
    }
    var v := Unmatched(st.g, st.ms.vals, |st.g.keys|);
    if v != [] {
      assert v[0] in v;
    }
  }

  // ---------------------------------------------------------------- applicant groups and stati

  lemma {:induction false} ApplicantNamesUpTo(d: Dict<seq<string>>, n: nat)
    requires n <= |d.keys|
    ensures forall x :: x in ApplicantNames(d, n) <==>
              exists m :: 0 <= m < n && 'a' in d.keys[m] && x in ListAt(d, d.keys[m])
  {
    if n > 0 {
      ApplicantNamesUpTo(d, n - 1);
    }
  }

  /** The club's applicants are exactly the members of its statuses that hold
      an 'a'. */
  lemma ApplicantNamesExactly(d: Dict<seq<string>>)
    requires d.Valid()
    ensures forall x :: x in ApplicantNames(d, |d.keys|) <==>
              exists k :: k in d.vals && 'a' in k && x in d.vals[k]
  {
    ApplicantNamesUpTo(d, |d.keys|);
    forall x | exists k :: k in d.vals && 'a' in k && x in d.vals[k]
      ensures x in ApplicantNames(d, |d.keys|)
    {
      var k :| k in d.vals && 'a' in k && x in d.vals[k];
      var m :| 0 <= m < |d.keys| && d.keys[m] == k;
      assert x in ListAt(d, d.keys[m]);
    }
  }

  /** The statuses chosen for popping are those without an 'a', once each
      when the statuses are. */
  lemma {:induction false} NonApplicantExactly(ks: seq<string>)
    ensures forall x :: x in NonApplicant(ks) <==> x in ks && 'a' !in x
    ensures (forall i, j :: 0 <= i < j < |ks| ==> ks[i] != ks[j]) ==>
            forall i, j :: 0 <= i < j < |NonApplicant(ks)| ==> NonApplicant(ks)[i] != NonApplicant(ks)[j]
  {
    if ks != [] {
      NonApplicantExactly(ks[1..]);
      assert forall x :: x in ks <==> x == ks[0] || x in ks[1..];
      if forall i, j :: 0 <= i < j < |ks| ==> ks[i] != ks[j] {
        HeadNotInTail(ks);
        DistinctTail(ks);
      }
    }
  }

  /** The groups check raises KeyError for a missing applicant group, then
      for a missing member group. Past both, it leaves exactly the statuses
      holding an 'a', with their members. "Gmail groups match" is recorded
      exactly when the applicant group holds the club's applicants, and the
      mismatch is reported otherwise. */
  lemma GroupsOutcome(st: Stage, gByGroup: map<string, set<string>>)
    requires Wf(st)
    ensures var r := GroupsPhase(st, gByGroup);
            var mApplicants := ApplicantNames(st.stati, |st.stati.keys|);
            && r.err == (if Rbc.ApplicantGroup !in gByGroup then Some(KeyError(Rbc.ApplicantGroup))
                         else if Rbc.MemberGroup !in gByGroup then Some(KeyError(Rbc.MemberGroup))
                         else None)
            && (r.err == None ==> forall k :: k in r.st.stati.vals <==> k in st.stati.vals && 'a' in k)
            && (r.err == None ==> forall k :: k in r.st.stati.vals ==> r.st.stati.vals[k] == st.stati.vals[k])
            && (Rbc.ApplicantGroup in gByGroup ==>
                  (r.st.ok == st.ok + [GroupsMatch] <==> gByGroup[Rbc.ApplicantGroup] == mApplicants)
                  && (gByGroup[Rbc.ApplicantGroup] != mApplicants ==>
                        r.st.ret == st.ret + Mismatch(gByGroup[Rbc.ApplicantGroup], mApplicants)))
            && r.st.ms == st.ms && r.st.g == st.g
  {
    var keys := st.stati.keys;
    var na := NonApplicant(keys);
    NonApplicantExactly(keys);
    forall i | 0 <= i < |na| ensures na[i] in st.stati.vals {
      assert na[i] in na;
    }
    RemoveStrict(st.stati, na);
  }

  // ---------------------------------------------------------------- fees

  /** The names listed as differing are exactly those of ks whose fees differ. */
  lemma {:induction false} DifferingExactly(ks: seq<string>, file: Dict<Charges>, club: Dict<Charges>)
    ensures forall k :: k in Differing(ks, file, club) <==> k in ks && ChargesAt(file, k) != ChargesAt(club, k)
  {
    if ks != [] {
      var p := ks[..|ks| - 1];
      DifferingExactly(p, file, club);
      assert forall k :: k in ks <==> k in p || k == ks[|ks| - 1];
    }
  }

  /** Differing keeps the order of ks, so sorted names stay sorted. */
  lemma {:induction false} DifferingSorted(ks: seq<string>, file: Dict<Charges>, club: Dict<Charges>)
    requires Sorted(ks)
    ensures Sorted(Differing(ks, file, club))
  {
    if ks != [] {
      var p := ks[..|ks| - 1];
      var last := ks[|ks| - 1];
      var dp := Differing(p, file, club);
      DifferingSorted(p, file, club);
      DifferingExactly(p, file, club);
      forall x | x in dp ensures StrLe(x, last) {
        var i :| 0 <= i < |p| && p[i] == x;
      }
      var r := Differing(ks, file, club);
      forall i, j | 0 <= i < j < |r| ensures StrLe(r[i], r[j]) {
        if j == |dp| {
          assert r[i] == dp[i] && dp[i] in dp;
        }
      }
    }
  }

  /** Equal fees by category are recorded as fine; fees that differ over
      the same categories give only the soft notice; different categories
      give the dump. */
  lemma FeesByCategoryOutcome(st: Stage, file: Dict<Charges>, club: Dict<Charges>, h: Helpers)
    ensures var r := FeesByCategory(st, file, club, h);
            && (file.vals == club.vals <==> r.ok == st.ok + [NoCategoryProblem])
            && (file.vals != club.vals && file.vals.Keys == club.vals.Keys ==>
                  r.ret == st.ret && r.ok == st.ok && r.notice == CategoryNotice)
            && (file.vals.Keys != club.vals.Keys ==>
                  r.ret == st.ret + CategoryDump(h, file, club) && r.ok == st.ok && r.notice == st.notice)
  {
    if file.vals == club.vals {
      assert file.vals.Keys == club.vals.Keys;
    }
  }

  /** The same three outcomes by name; with details, the disparities then
      list, in sorted order and one line each, exactly the names whose fees
      differ, and there is at least one. */
  lemma FeesByNameOutcome(st: Stage, file: Dict<Charges>, club: Dict<Charges>, details: bool, h: Helpers)
    ensures var r := FeesByName(st, file, club, details, h);
            var soft := file.vals != club.vals && file.vals.Keys == club.vals.Keys;
            var ds := Differing(SortedSet(file.vals.Keys), file, club);
            && (file.vals == club.vals <==> r.ok == st.ok + [NoNameProblem])
            && (soft ==> r.ret == st.ret && r.ok == st.ok
                         && r.notice == (if details then NameNotice else NameNoticeBrief))
            && (file.vals.Keys != club.vals.Keys ==>
                  r.ret == st.ret + NameDump(h, file, club) && r.ok == st.ok && r.notice == st.notice)
            && (soft && details ==>
                  && r.varying == st.varying + VaryLines(h, file, club, ds)
                  && Sorted(ds) && ds != []
                  && forall k :: k in ds <==> k in file.vals && file.vals[k] != club.vals[k])
            && (!(soft && details) ==> r.varying == st.varying)
  {
    if file.vals == club.vals {
      assert file.vals.Keys == club.vals.Keys;
    }
    var ks := SortedSet(file.vals.Keys);
    var ds := Differing(ks, file, club);
    DifferingSorted(ks, file, club);
    DifferingExactly(ks, file, club);
    if file.vals != club.vals && file.vals.Keys == club.vals.Keys {
      var k :| k in file.vals && file.vals[k] != club.vals[k];
      assert k in ds;
    }
  }

  // ---------------------------------------------------------------- the report's sections

  /** A raw or form-fed report starts empty, and add2problems leaves an empty
      list empty, so malformed records then go unreported; otherwise they
      follow the title under their own header. */
  lemma MalformedOutcome(st: Stage, o: Options, malformed: seq<string>)
    requires st.ret == Opening(o)
    ensures var r := MalformedPhase(st, malformed);
            && (malformed == [] <==> r.ok == st.ok + [NoMalformed])
            && ((o.raw || o.formfeed) ==> r.ret == [])
            && (!(o.raw || o.formfeed) && malformed != [] ==>
                  r.ret == [FirstLine, FirstRule, "", MalformedHeader, Repeat("=", |MalformedHeader|)] + malformed)
  {
  }

  /** The status listing keeps the report as its prefix and adds nothing to
      an empty report. */
  lemma {:induction false} StatusListingLayout(ret: seq<string>, ks: seq<string>, d: Dict<seq<string>>)
    ensures ret <= StatusListing(ret, ks, d)
    ensures ret == [] ==> StatusListing(ret, ks, d) == []
  {
    if ks != [] {
      StatusListingLayout(ret, ks[..|ks| - 1], d);
    }
  }

  /** Without the status option nothing changes; with it the report grows
      by its listing, except that a raw, unfed, empty report stays empty. */
  lemma StatusOutcome(st: Stage, o: Options)
    ensures var r := StatusPhase(st, o);
            && r.(ret := st.ret) == st
            && (!o.reportStatus ==> r.ret == st.ret)
            && st.ret <= r.ret
            && (o.raw && !o.formfeed && st.ret == [] ==> r.ret == [])
  {
    if o.reportStatus {
      var ret := st.ret + (if o.formfeed then [""] else [])
                        + (if !o.raw then ["", StatusTitle, StatusTitleRule] else []);
      StatusListingLayout(ret, Sort(st.stati.keys), st.stati);
    }
  }

  /** "No applicant problem" is recorded exactly when the gathered
      applicants agree with the club's by-status dict; otherwise the report
      keeps what it had and grows by the comparison. */
  lemma ApplicantsOutcome(st: Stage, a: Dict<seq<string>>, h: Helpers)
    ensures var r := ApplicantsPhase(st, a, h);
            && (a.vals == st.stati.vals <==> r.ok == st.ok + [NoApplicantProblem])
            && (a.vals == st.stati.vals ==> r.ret == st.ret)
            && (a.vals != st.stati.vals ==>
                  r.ok == st.ok && st.ret < r.ret && r.ret[|st.ret|] == "\nApplicant problem:")
  {
  }

  /** "No contacts that are not members" is recorded exactly when there are
      none; otherwise they are reported under their header, which an empty
      report does not receive. */
  lemma NonMembersOutcome(st: Stage)
    ensures var r := NonMembersPhase(st);
            && (st.nonMembers == [] <==> r.ok == st.ok + [NoNonMembers])
            && (st.nonMembers == [] ==> r.ret == st.ret)
            && (st.nonMembers != [] && st.ret == [] ==> r.ret == [])
            && (st.nonMembers != [] && st.ret != [] ==>
                  r.ok == st.ok && st.ret < r.ret
                  && r.ret[|st.ret| + 1] == NonMembersHeader
                  && r.ret[|r.ret| - |st.nonMembers|..] == st.nonMembers)
  {
    if st.nonMembers != [] && st.ret != [] {
      var r := NonMembersPhase(st);
      assert r.ret == st.ret + [""] + [NonMembersHeader, Repeat("=", |NonMembersHeader|)] + st.nonMembers;
    }
  }

  /** Without an acceptable-inconsistency notice or fee disparities, the
      closing lists what was found in order under its own header after the
      report, and nothing at all when the report is empty. */
  lemma ClosingOutcome(st: Stage, h: Helpers)
    requires st.notice == "" && st.varying == []
    ensures st.ok == [] ==> Closing(st, h) == st.ret
    ensures st.ret == [] ==> Closing(st, h) == []
    ensures st.ok != [] && st.ret != [] ==>
              var c := Closing(st, h);
              && |c| == |st.ret| + 3 + |st.ok|
              && c[..|st.ret|] == st.ret
              && c[|st.ret| + 1] == OkHeader
              && c[|st.ret| + 3..] == st.ok
  {
    if st.ok != [] && st.ret != [] {
      assert Closing(st, h) == st.ret + [""] + [OkHeader, Repeat("=", |OkHeader|)] + st.ok;
    }
  }

  // ---------------------------------------------------------------- the whole check

  /** ck_data on the club's data, when no email holds a space, raises only
      for a missing applicant or member group. Every email left in either
      email dict was there before and holds its settled value; an email with
      exactly one name is always left; and, when nothing is raised, the
      by-status dict keeps exactly the statuses holding an 'a'. */
  lemma ReportOutcome(gd: Gathered, o: Options, h: Helpers,
                      ms: Dict<Owner>, g: Dict<Owner>, stati: Dict<seq<string>>)
    requires ms.Valid() && g.Valid() && stati.Valid()
    requires Unresolved(ms) && Unresolved(g) && NoSpaces(ms) && NoSpaces(g)
    ensures var r := Report(gd, o, h, ms, g, stati);
            && r.err == (if Rbc.ApplicantGroup !in gd.gByGroup then Some(KeyError(Rbc.ApplicantGroup))
                         else if Rbc.MemberGroup !in gd.gByGroup then Some(KeyError(Rbc.MemberGroup))
                         else None)
            && (forall k :: k in r.st.ms.vals ==> k in ms.vals && r.st.ms.vals[k] == SettledOwner(ms, k))
            && (forall k :: k in r.st.g.vals ==> k in g.vals && r.st.g.vals[k] == SettledOwner(g, k))
            && (forall k :: k in ms.vals && |NamesOf(ms, k)| == 1 ==> k in r.st.ms.vals)
            && (forall k :: k in g.vals && |NamesOf(g, k)| == 1 ==> k in r.st.g.vals)
            && (r.err == None ==> forall k :: k in r.st.stati.vals <==> k in stati.vals && 'a' in k)
  {
    var s0 := MalformedPhase(Stage(Opening(o), [], ms, g, stati, [], [], [], "", []), gd.malformed);
    assert Wf(s0) && s0.ms == ms && s0.g == g && s0.stati == stati;
    var r1 := EmailPhases(s0);
    EmailPhasesOutcome(s0);
    var r2 := ListingPhases(r1.st, gd, o, h);
    ListingOutcome(r1.st, gd, o, h);
    FinalKeepsDicts(r2.st, gd, o, h);
  }

  /** A shared email holding a space is cut at the space by first_parts_only,
      so the key removed is not the email; when that part is no key of the
      membership dict, the strict removal raises KeyError. */
  lemma SpacedSharedEmailRaises(st: Stage, e: string, names: seq<string>)
    requires Wf(st)
    requires st.sharedM == [SharedEntry(e, names)] && st.sharedG == []
    requires ' ' in e
    requires SplitOn(SharedEntry(e, names), " ")[0] !in st.ms.vals
    ensures var k := SplitOn(SharedEntry(e, names), " ")[0];
            k != e && SharedPhase(st).err == Some(KeyError(k))
  {
    var k := SplitOn(SharedEntry(e, names), " ")[0];
    SplitFirstPart(SharedEntry(e, names), ' ');
    assert FirstPartsOnly(st.sharedM) == [k];
  }

  /** The listing phases change no email dict, and raise only for a missing
      group; past them the by-status dict keeps exactly the statuses
      holding an 'a'. */
  lemma ListingOutcome(st: Stage, gd: Gathered, o: Options, h: Helpers)
    requires Wf(st)
    ensures var r := ListingPhases(st, gd, o, h);
            && r.err == (if Rbc.ApplicantGroup !in gd.gByGroup then Some(KeyError(Rbc.ApplicantGroup))
                         else if Rbc.MemberGroup !in gd.gByGroup then Some(KeyError(Rbc.MemberGroup))
                         else None)
            && r.st.ms == st.ms && r.st.g == st.g
            && (r.err == None ==> forall k :: k in r.st.stati.vals <==> k in st.stati.vals && 'a' in k)
  {
    var s1 := CoveragePhase(StatusPhase(st, o), h);
    StatusOutcome(st, o);
    CoverageOutcome(StatusPhase(st, o), h);
    GroupsOutcome(s1, gd.gByGroup);
  }

  /** The final phases only report: no dict changes. */
  lemma FinalKeepsDicts(st: Stage, gd: Gathered, o: Options, h: Helpers)
    ensures SameDicts(FinalPhases(st, gd, o, h), st)
  {
  }
}
