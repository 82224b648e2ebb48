/** The Google contacts export: one record per contact, normalised by
    get_gmail_record and folded by gather_contacts_data into the indexes the
    integrity check reads (data.py:67-162). */
module Contacts {
  import opened Strings
  import opened Dicts

  /** The columns of a contacts.csv row that the program reads. */
  datatype ContactRow = ContactRow(
    email: string,            // "E-mail 1 - Value"
    groupMembership: string,  // "Group Membership"
    given: string,            // "Given Name"
    additional: string,       // "Additional Name"
    family: string,           // "Family Name"
    suffix: string)           // "Name Suffix"

  /** The dict get_gmail_record returns. */
  datatype GmailRecord = GmailRecord(
    gname: string,
    alias: string,
    muttname: string,
    email: string,
    groups: set<string>)

  const GroupSeparator := " ::: "
  /** The pseudo-group Google appends to every contact's membership field. */
  const AllContacts := "* myContacts"

  /** The group field cut on the separator, with a final "* myContacts" piece
      taken off (a "* myContacts" piece anywhere else is kept). */
  function GroupList(field: string): seq<string>
  {
    var g := SplitOn(field, GroupSeparator);
    if g[|g| - 1] == AllContacts then g[..|g| - 1] else g
  }

  /** "First Additional", stripped. */
  function FirstName(r: ContactRow): string
  {
    Strip(r.given + " " + r.additional)
  }

  /** "Family Suffix", stripped. */
  function LastName(r: ContactRow): string
  {
    Strip(r.family + " " + r.suffix)
  }

  function GetGmailRecord(r: ContactRow): (rec: GmailRecord)
    ensures |rec.muttname| == |rec.alias| + 1 && |rec.gname| == |rec.alias| + 2
    ensures rec.email == r.email
    ensures forall x :: x in rec.groups ==> x in SplitOn(r.groupMembership, GroupSeparator)
  {
    var first := FirstName(r);
    var last := LastName(r);
    GmailRecord(last + ", " + first, first + last, first + " " + last,
                r.email, set x | x in GroupList(r.groupMembership))
  }

  /** The record's groups are the pieces of the membership field, less a
      final "* myContacts" (one anywhere else is kept); putting that piece
      back and joining with the separator gives the field again. */
  lemma GroupsOfRecord(r: ContactRow)
    ensures var g := SplitOn(r.groupMembership, GroupSeparator);
      && (forall x :: x in GetGmailRecord(r).groups <==> x in GroupList(r.groupMembership))
      && (g[|g| - 1] == AllContacts ==> GroupList(r.groupMembership) + [AllContacts] == g)
      && (g[|g| - 1] != AllContacts ==> GroupList(r.groupMembership) == g)
      && JoinWith(g, GroupSeparator) == r.groupMembership
  {
    JoinSplit(r.groupMembership, GroupSeparator);
  }

  /** A contact with one given and one family name and nothing else is keyed
      "Family, Given", aliased "GivenFamily" and addressed "Given Family". */
  lemma GnameOfPlainRow(r: ContactRow)
    requires r.given != [] && NoSpace(r.given) && r.additional == []
    requires r.family != [] && NoSpace(r.family) && r.suffix == []
    ensures GetGmailRecord(r).gname == r.family + ", " + r.given
    ensures GetGmailRecord(r).alias == r.given + r.family
    ensures GetGmailRecord(r).muttname == r.given + " " + r.family
  {
    assert r.given + " " + r.additional == r.given + " ";
    assert r.family + " " + r.suffix == r.family + " ";
    StripOfTrailingSpace(r.given);
    StripOfTrailingSpace(r.family);
  }

  /** A word followed by one space strips back to the word. */
  lemma StripOfTrailingSpace(a: string)
    requires a != [] && NoSpace(a)
    ensures Strip(a + " ") == a
  {
    var s := a + " ";
    assert s[0] == a[0] && !IsSpace(a[0]);
    assert LStrip(s) == s;
    assert s[..|s| - 1] == a;
    assert !IsSpace(a[|a| - 1]);
    assert RStrip(a) == a;
    assert RStrip(s) == RStrip(a);
  }

  // ---------------------------------------------------------------- the fold

  /** d.setdefault(k, set()).add(n) */
  function AddName(d: Dict<set<string>>, k: string, n: string): (e: Dict<set<string>>)
    requires d.Valid()
    ensures e.Valid()
    ensures e.vals == d.vals[k := (if k in d.vals then d.vals[k] else {}) + {n}]
  {
    d.Put(k, (if k in d.vals then d.vals[k] else {}) + {n})
  }

  /** n added to the set of every key in ks, a missing key starting empty. */
  function AddToAll(m: map<string, set<string>>, ks: set<string>, n: string): map<string, set<string>>
  {
    map k | k in m.Keys + ks :: (if k in m then m[k] else {}) + (if k in ks then {n} else {})
  }

  /** The normalised records of the rows, in order. */
  function Records(rows: seq<ContactRow>): seq<GmailRecord>
  {
    if rows == [] then []
    else Records(rows[..|rows| - 1]) + [GetGmailRecord(rows[|rows| - 1])]
  }

  /** Record i is row i normalised. */
  lemma {:induction false} RecordAt(rows: seq<ContactRow>, i: int)
    requires 0 <= i < |rows|
    ensures |Records(rows)| == |rows|
    ensures Records(rows)[i] == GetGmailRecord(rows[i])
  {
    RecordsLength(rows[..|rows| - 1]);
    if i < |rows| - 1 {
      RecordAt(rows[..|rows| - 1], i);
    }
  }

  lemma {:induction false} RecordsLength(rows: seq<ContactRow>)
    ensures |Records(rows)| == |rows|
  {
    if rows != [] {
      RecordsLength(rows[..|rows| - 1]);
    }
  }

  /** g_by_email after the records, read in order. */
  function EmailIndex(recs: seq<GmailRecord>): (d: Dict<set<string>>)
    ensures d.Valid()
  {
    if recs == [] then Empty()
    else
      var g := recs[|recs| - 1];
      AddName(EmailIndex(recs[..|recs| - 1]), g.email, g.gname)
  }

  /** gmail_by_name after the records: the last email seen for each name. */
  function EmailByName(recs: seq<GmailRecord>): (d: Dict<string>)
    ensures d.Valid()
  {
    if recs == [] then Empty()
    else
      var g := recs[|recs| - 1];
      EmailByName(recs[..|recs| - 1]).Put(g.gname, g.email)
  }

  /** groups_by_name after the records: the groups of the last record of each name. */
  function GroupsByName(recs: seq<GmailRecord>): (d: Dict<set<string>>)
    ensures d.Valid()
  {
    if recs == [] then Empty()
    else
      var g := recs[|recs| - 1];
      GroupsByName(recs[..|recs| - 1]).Put(g.gname, g.groups)
  }

  /** The mapping of g_by_group after the records. The order in which its
      keys were first inserted follows Python's iteration over a set, which
      the program does not fix, so only the mapping is specified. */
  function GroupIndex(recs: seq<GmailRecord>): map<string, set<string>>
  {
    if recs == [] then map[]
    else
      var g := recs[|recs| - 1];
      AddToAll(GroupIndex(recs[..|recs| - 1]), g.groups, g.gname)
  }

  /** The four indexes gather_contacts_data leaves on the club. */
  datatype ContactsData = ContactsData(
    gmailByName: Dict<string>,
    groupsByName: Dict<set<string>>,
    gByEmail: Dict<set<string>>,
    gByGroup: Dict<set<string>>)

  /** gather_contacts_data over the rows of contacts.csv. */
  method GatherContacts(rows: seq<ContactRow>) returns (data: ContactsData)
    ensures data.gByEmail == EmailIndex(Records(rows))
    ensures data.gmailByName == EmailByName(Records(rows))
    ensures data.groupsByName == GroupsByName(Records(rows))
    ensures data.gByGroup.Valid() && data.gByGroup.vals == GroupIndex(Records(rows))
  {
    var gmailByName: Dict<string> := Empty();
    var groupsByName: Dict<set<string>> := Empty();
    var gByEmail: Dict<set<string>> := Empty();
    var gByGroup: Dict<set<string>> := Empty();
    var i := 0;
    while i < |rows|
      invariant 0 <= i <= |rows|
      invariant gByEmail == EmailIndex(Records(rows[..i]))
      invariant gmailByName == EmailByName(Records(rows[..i]))
      invariant groupsByName == GroupsByName(Records(rows[..i]))
      invariant gByGroup.Valid() && gByGroup.vals == GroupIndex(Records(rows[..i]))
    {
      var g := GetGmailRecord(rows[i]);
      assert rows[..i + 1][..i] == rows[..i];
      assert Records(rows[..i + 1]) == Records(rows[..i]) + [g];
      gByEmail, gmailByName, groupsByName, gByGroup :=
        FileRecord(gByEmail, gmailByName, groupsByName, gByGroup, Records(rows[..i]), g);
      i := i + 1;
    }
    assert rows[..i] == rows;
    data := ContactsData(gmailByName, groupsByName, gByEmail, gByGroup);
  }

  /** The body of gather_contacts_data's loop: one record filed in the four indexes. */
  method FileRecord(gByEmail0: Dict<set<string>>, gmailByName0: Dict<string>,
                    groupsByName0: Dict<set<string>>, gByGroup0: Dict<set<string>>,
                    ghost p: seq<GmailRecord>, g: GmailRecord)
    returns (gByEmail: Dict<set<string>>, gmailByName: Dict<string>,
             groupsByName: Dict<set<string>>, gByGroup: Dict<set<string>>)
    requires gByEmail0 == EmailIndex(p)
    requires gmailByName0 == EmailByName(p)
    requires groupsByName0 == GroupsByName(p)
    requires gByGroup0.Valid() && gByGroup0.vals == GroupIndex(p)
    ensures gByEmail == EmailIndex(p + [g])
    ensures gmailByName == EmailByName(p + [g])
    ensures groupsByName == GroupsByName(p + [g])
    ensures gByGroup.Valid() && gByGroup.vals == GroupIndex(p + [g])
  {
    assert (p + [g])[..|p|] == p;
    gByEmail := AddName(gByEmail0, g.email, g.gname);
    gmailByName := gmailByName0.Put(g.gname, g.email);
    groupsByName := groupsByName0.Put(g.gname, g.groups);
    gByGroup := AddToGroups(gByGroup0, g.groups, g.gname);
  }

  /** for key in groups: by_group.setdefault(key, set()).add(name) */
  method AddToGroups(byGroup: Dict<set<string>>, groups: set<string>, name: string)
    returns (d: Dict<set<string>>)
    requires byGroup.Valid()
    ensures d.Valid() && d.vals == AddToAll(byGroup.vals, groups, name)
  {
    d := byGroup;
    var remaining := groups;
    while remaining != {}
      invariant remaining <= groups
      invariant d.Valid()
      invariant d.vals == AddToAll(byGroup.vals, groups - remaining, name)
      decreases |remaining|
    {
      var key :| key in remaining;
      AddToAllGrows(byGroup.vals, groups - remaining, key, name);
      d := AddName(d, key, name);
      assert groups - (remaining - {key}) == (groups - remaining) + {key};
      remaining := remaining - {key};
    }
    assert groups - remaining == groups;
  }

  /** One more group for the name. */
  lemma AddToAllGrows(m: map<string, set<string>>, ks: set<string>, k: string, n: string)
    ensures var a := AddToAll(m, ks, n);
      AddToAll(m, ks + {k}, n) == a[k := (if k in a then a[k] else {}) + {n}]
  {
    var a := AddToAll(m, ks, n);
    var b := AddToAll(m, ks + {k}, n);
    var c := a[k := (if k in a then a[k] else {}) + {n}];
    assert b.Keys == c.Keys;
    forall x | x in b.Keys
      ensures b[x] == c[x]
    {
      if x == k {
        assert c[x] == (if k in m then m[k] else {}) + {n};
      } else {
        assert c[x] == a[x];
      }
    }
  }

  // ---------------------------------------------------------------- what the fold promises

  /** Every email maps to at least one name, so the check never meets an
      email without an owner among the contacts. */
  lemma {:induction false} EmailIndexNonEmpty(recs: seq<GmailRecord>)
    ensures forall e :: e in EmailIndex(recs).vals ==> EmailIndex(recs).vals[e] != {}
  {
    if recs != [] {
      EmailIndexNonEmpty(recs[..|recs| - 1]);
    }
  }

  /** Some record has name n and email e. */
  predicate Filed(recs: seq<GmailRecord>, e: string, n: string)
  {
    exists i :: 0 <= i < |recs| && recs[i].email == e && recs[i].gname == n
  }

  /** Filed over a longer list: the shorter list's pairs, and the last record's. */
  lemma FiledSnoc(recs: seq<GmailRecord>, e: string, n: string)
    requires recs != []
    ensures var p := recs[..|recs| - 1]; var g := recs[|recs| - 1];
      Filed(recs, e, n) <==> Filed(p, e, n) || (g.email == e && g.gname == n)
  {
    var p := recs[..|recs| - 1];
    if Filed(p, e, n) {
      var i :| 0 <= i < |p| && p[i].email == e && p[i].gname == n;
      assert recs[i] == p[i];
    }
    if Filed(recs, e, n) {
      var i :| 0 <= i < |recs| && recs[i].email == e && recs[i].gname == n;
      if i < |p| {
        assert p[i] == recs[i];
      }
    }
  }

  /** A name is filed under an email exactly when some record has that name
      and that email. */
  lemma {:induction false} EmailIndexExact(recs: seq<GmailRecord>, e: string, n: string)
    ensures (e in EmailIndex(recs).vals && n in EmailIndex(recs).vals[e]) <==> Filed(recs, e, n)
  {
    if recs != [] {
      var p := recs[..|recs| - 1];
      var g := recs[|recs| - 1];
      var before := EmailIndex(p).vals;
      var after := EmailIndex(recs).vals;
      assert after == before[g.email := (if g.email in before then before[g.email] else {}) + {g.gname}];
      assert (e in after && n in after[e]) <==>
             (e in before && n in before[e]) || (e == g.email && n == g.gname);
      EmailIndexExact(p, e, n);
      FiledSnoc(recs, e, n);
    }
  }

  /** Every contact without an email is pooled under the empty key. */
  lemma {:induction false} EmptyEmailsPooled(rows: seq<ContactRow>, i: int)
    requires 0 <= i < |rows| && rows[i].email == ""
    ensures "" in EmailIndex(Records(rows)).vals
    ensures GetGmailRecord(rows[i]).gname in EmailIndex(Records(rows)).vals[""]
  {
    var recs := Records(rows);
    RecordAt(rows, i);
    EmailIndexExact(recs, "", recs[i].gname);
    assert Filed(recs, "", recs[i].gname);
  }

  /** A name is filed under a group exactly when some record has that name
      and lists that group. */
  lemma {:induction false} GroupIndexExact(recs: seq<GmailRecord>, k: string, n: string)
    ensures (k in GroupIndex(recs) && n in GroupIndex(recs)[k]) <==>
            exists i :: 0 <= i < |recs| && k in recs[i].groups && recs[i].gname == n
  {
    if recs != [] {
      var p := recs[..|recs| - 1];
      GroupIndexExact(p, k, n);
      if exists i :: 0 <= i < |p| && k in p[i].groups && p[i].gname == n {
        var i :| 0 <= i < |p| && k in p[i].groups && p[i].gname == n;
        assert recs[i] == p[i];
      }
      if exists i :: 0 <= i < |recs| && k in recs[i].groups && recs[i].gname == n {
        var i :| 0 <= i < |recs| && k in recs[i].groups && recs[i].gname == n;
        if i < |p| {
          assert p[i] == recs[i];
        }
      }
    }
  }
}
