/** The helpers the integrity check builds its report and prunes the club's
    dicts with (add2problems, remove_unwanted_items, first_parts_only), and
    the resolver that turns each email's set of owners into a single name. */
module Problems {
  import opened Base
  import opened Strings
  import opened Sorting
  import opened Dicts

  // ---------------------------------------------------------------- add2problems

  /** The header, its underline (the first underline string repeated to the
      header's length) and the remaining underline strings; nothing for an
      empty header. */
  function HeaderBlock(header: string, underline: seq<string>): seq<string>
  {
    if header == "" then []
    else [header] + (if underline == [] then [] else [Repeat(underline[0], |header|)] + underline[1..])
  }

  /** The list add2problems leaves behind. */
  function WithProblems(list: seq<string>, header: string, news: seq<string>,
                        separator: seq<string>, underline: seq<string>): seq<string>
  {
    if list == [] then [] else list + separator + HeaderBlock(header, underline) + news
  }

  /** add2problems with its default separator [""] and underline ["="]. */
  function Reported(list: seq<string>, header: string, news: seq<string>): seq<string>
  {
    WithProblems(list, header, news, [""], ["="])
  }

  /** add2problems: extends the caller's list in place. */
  method Add2Problems(header: string, news: seq<string>, problemList: PyList,
                      separator: seq<string>, underline: seq<string>)
    modifies problemList
    ensures problemList.items == WithProblems(old(problemList.items), header, news, separator, underline)
  {
    if problemList.items != [] {
      ghost var start := problemList.items;
      if separator != [] {
        problemList.Extend(separator);
      }
      assert problemList.items == start + separator;
      if header != "" {
        problemList.Append(header);
        if underline != [] {
          var rule := Repeat(underline[0], |header|);
          problemList.Append(rule);
          problemList.Extend(underline[1..]);
          assert problemList.items == (start + separator) + ([header] + ([rule] + underline[1..]));
        }
      }
      assert problemList.items == start + separator + HeaderBlock(header, underline);
      problemList.Extend(news);
    }
  }

  /** An empty list stays empty. Otherwise the old list is kept as a prefix,
      then come the separator, the header, an underline of the header's length
      (for a one-character underline string), and last the new problems,
      in the order given (they are not sorted). */
  lemma WithProblemsLayout(list: seq<string>, header: string, news: seq<string>,
                           separator: seq<string>, underline: seq<string>)
    ensures var r := WithProblems(list, header, news, separator, underline);
            && (list == [] ==> r == [])
            && (list != [] ==>
                  && |r| == |list| + |separator| + |HeaderBlock(header, underline)| + |news|
                  && r[..|list|] == list
                  && r[|list|..|list| + |separator|] == separator
                  && r[|r| - |news|..] == news)
            && (list != [] && header != "" ==> r[|list| + |separator|] == header)
            && (list != [] && header != "" && underline != [] && |underline[0]| == 1 ==>
                  r[|list| + |separator| + 1] == Copies(underline[0][0], |header|))
  {
    if list != [] {
      var r := WithProblems(list, header, news, separator, underline);
      var hb := HeaderBlock(header, underline);
      assert r == list + separator + hb + news;
      assert r[..|list|] == list;
      assert r[|list|..|list| + |separator|] == separator;
      assert r[|r| - |news|..] == news;
      if header != "" {
        assert r[|list| + |separator|] == hb[0] == header;
        if underline != [] && |underline[0]| == 1 {
          assert r[|list| + |separator| + 1] == hb[1] == Repeat(underline[0], |header|);
          assert underline[0] == [underline[0][0]];
          RepeatOfChar(underline[0][0], |header|);
        }
      }
    }
  }

  // ---------------------------------------------------------------- remove_unwanted_items

  /** remove_unwanted_items on a dict value: the dict after deleting the keys in
      turn, and the KeyError (when not ignored) of the first key that is no
      longer there, at which point the deletions stop. */
  function RemoveKeys<V>(d: Dict<V>, keys: seq<string>, ignore: bool): (r: (Dict<V>, Option<Error>))
    requires d.Valid()
    ensures r.0.Valid()
    ensures r.1.Some? ==> r.1.value.KeyError? && r.1.value.key in keys
    decreases |keys|
  {
    if keys == [] then (d, None)
    else if keys[0] in d.vals then RemoveKeys(d.Del(keys[0]), keys[1..], ignore)
    else if ignore then RemoveKeys(d, keys[1..], ignore)
    else (d, Some(KeyError(keys[0])))
  }

  /** remove_unwanted_items: deletes from the caller's dict in place. */
  method RemoveUnwantedItems<V>(dictionary: PyDict<V>, keys: seq<string>, ignore: bool) returns (err: Option<Error>)
    requires dictionary.d.Valid()
    modifies dictionary
    ensures (dictionary.d, err) == RemoveKeys(old(dictionary.d), keys, ignore)
  {
    var i := 0;
    while i < |keys|
      invariant 0 <= i <= |keys|
      invariant dictionary.d.Valid()
      invariant RemoveKeys(dictionary.d, keys[i..], ignore) == RemoveKeys(old(dictionary.d), keys, ignore)
    {
      assert keys[i..][1..] == keys[i + 1..];
      var e := dictionary.Delete(keys[i]);
      if e.Some? && !ignore {
        return e;
      }
      i := i + 1;
    }
    err := None;
  }

  /** With KeyErrors ignored, exactly the listed keys are removed. */
  lemma {:induction false} RemoveIgnoring<V>(d: Dict<V>, keys: seq<string>)
    requires d.Valid()
    ensures RemoveKeys(d, keys, true).1 == None
    ensures RemoveKeys(d, keys, true).0.vals == d.vals - set k | k in keys
    decreases |keys|
  {
    if keys != [] {
      KeySetCons(keys);
      if keys[0] in d.vals {
        RemoveIgnoring(d.Del(keys[0]), keys[1..]);
      } else {
        RemoveIgnoring(d, keys[1..]);
      }
    }
  }

  /** Not ignoring KeyErrors, keys that are all present and listed once are
      removed exactly, without an error. */
  lemma {:induction false} RemoveStrict<V>(d: Dict<V>, keys: seq<string>)
    requires d.Valid()
    requires forall i :: 0 <= i < |keys| ==> keys[i] in d.vals
    requires forall i, j :: 0 <= i < j < |keys| ==> keys[i] != keys[j]
    ensures RemoveKeys(d, keys, false).1 == None
    ensures RemoveKeys(d, keys, false).0.vals == d.vals - set k | k in keys
    decreases |keys|
  {
    if keys != [] {
      var t := keys[1..];
      var d' := d.Del(keys[0]);
      assert RemoveKeys(d, keys, false) == RemoveKeys(d', t, false);
      StrictTail(d, keys);
      RemoveStrict(d', t);
      assert d'.vals - (set k | k in t) == d.vals - (set k | k in keys) by {
        KeySetCons(keys);
        MinusTwice(d.vals, keys[0], set k | k in t);
      }
    }
  }

  /** What RemoveStrict needs of the keys left after the first deletion. */
  lemma StrictTail<V>(d: Dict<V>, keys: seq<string>)
    requires d.Valid() && keys != []
    requires forall i :: 0 <= i < |keys| ==> keys[i] in d.vals
    requires forall i, j :: 0 <= i < j < |keys| ==> keys[i] != keys[j]
    ensures forall i :: 0 <= i < |keys[1..]| ==> keys[1..][i] in d.Del(keys[0]).vals
    ensures forall i, j :: 0 <= i < j < |keys[1..]| ==> keys[1..][i] != keys[1..][j]
  {
    var t := keys[1..];
    forall i | 0 <= i < |t| ensures t[i] in d.Del(keys[0]).vals {
      assert t[i] == keys[i + 1] && keys[i + 1] != keys[0];
    }
    DistinctTail(keys);
  }

  lemma DistinctTail(s: seq<string>)
    requires s != [] && forall i, j :: 0 <= i < j < |s| ==> s[i] != s[j]
    ensures forall i, j :: 0 <= i < j < |s[1..]| ==> s[1..][i] != s[1..][j]
  {
    forall i, j | 0 <= i < j < |s[1..]| ensures s[1..][i] != s[1..][j] {
      assert s[1..][i] == s[i + 1] && s[1..][j] == s[j + 1];
    }
  }

  lemma KeySetCons(keys: seq<string>)
    requires keys != []
    ensures (set k | k in keys) == {keys[0]} + set k | k in keys[1..]
  {
    assert keys == [keys[0]] + keys[1..];
    forall x ensures x in keys <==> x == keys[0] || x in keys[1..] {
    }
  }

  lemma MinusTwice<V>(m: map<string, V>, a: string, ks: set<string>)
    ensures m - {a} - ks == m - ({a} + ks)
  {
  }

  /** Not ignoring KeyErrors, a listed key that is missing from the dict makes
      the removal raise KeyError, for a listed key. */
  lemma {:induction false} RemoveMissing<V>(d: Dict<V>, keys: seq<string>, missing: string)
    requires d.Valid() && missing in keys && missing !in d.vals
    ensures RemoveKeys(d, keys, false).1.Some?
    ensures RemoveKeys(d, keys, false).1.value.KeyError?
    ensures RemoveKeys(d, keys, false).1.value.key in keys
    decreases |keys|
  {
    if keys[0] in d.vals {
      assert missing in keys[1..];
      RemoveMissing(d.Del(keys[0]), keys[1..], missing);
      assert RemoveKeys(d, keys, false) == RemoveKeys(d.Del(keys[0]), keys[1..], false);
    }
  }

  // ---------------------------------------------------------------- first_parts_only

  /** first_parts_only: the part of each item before its first space. */
  function FirstPartsOnly(items: seq<string>): (r: seq<string>)
    ensures |r| == |items|
    ensures forall i :: 0 <= i < |items| ==> r[i] <= items[i] && ' ' !in r[i]
  {
    SplitFirstParts(items, ' ');
    seq(|items|, i requires 0 <= i < |items| => SplitOn(items[i], " ")[0])
  }

  // ---------------------------------------------------------------- the email resolver

  /** What an email maps to: the names gathered for it, or, once resolved,
      the one name. A contacts email's set of names enters as its sorted list:
      the resolver only takes its size, its one element and its sorted
      elements, which a set and its sorted list share. */
  datatype Owner = Names(names: seq<string>) | Name(name: string)

  /** Every email still maps to its gathered names. */
  predicate Unresolved(d: Dict<Owner>)
  {
    forall k :: k in d.vals ==> d.vals[k].Names?
  }

  /** The report line for an email that several names share. */
  function SharedEntry(email: string, names: seq<string>): string
  {
    email + " <== [" + JoinWith(Sort(names), "; ") + "]"
  }

  /** The first part of a shared-email entry is the email, when the email
      holds no space. */
  lemma SharedEntryFirstPart(email: string, names: seq<string>)
    requires ' ' !in email
    ensures SplitOn(SharedEntry(email, names), " ")[0] == email
  {
    var rest := "<== [" + JoinWith(Sort(names), "; ") + "]";
    assert SharedEntry(email, names) == email + [' '] + rest;
    SplitCharConcat(email, ' ', rest);
  }

  /** The resolver's result: the dict with each singleton set replaced by its
      name, the emails without a name and the entries of the shared emails. */
  datatype Resolution = Resolution(d: Dict<Owner>, dangling: seq<string>, shared: seq<string>)

  /** The names k maps to in d (none when k is missing or resolved). */
  function NamesOf(d: Dict<Owner>, k: string): seq<string>
  {
    if k in d.vals && d.vals[k].Names? then d.vals[k].names else []
  }

  /** The resolver's treatment of one email k whose set is s: no name makes it
      dangling, one name replaces the set, several names make it shared. */
  function ResolveStep(r: Resolution, k: string, s: seq<string>): (r': Resolution)
    ensures r'.d.keys == r.d.keys
    ensures r'.dangling == r.dangling + (if |s| == 0 then [k] else [])
    ensures r'.shared == r.shared + (if |s| >= 2 then [SharedEntry(k, s)] else [])
  {
    if |s| == 0 then r.(dangling := r.dangling + [k])
    else if |s| == 1 then r.(d := Dict(r.d.keys, r.d.vals[k := Name(s[0])]))
    else r.(shared := r.shared + [SharedEntry(k, s)])
  }

  /** The resolver after the first n keys of d0, in insertion order: the keys
      and their order do not change. */
  function ResolveUpTo(d0: Dict<Owner>, n: nat): (r: Resolution)
    requires n <= |d0.keys|
    ensures r.d.keys == d0.keys
  {
    if n == 0 then Resolution(d0, [], [])
    else
      var k := d0.keys[n - 1];
      ResolveStep(ResolveUpTo(d0, n - 1), k, NamesOf(d0, k))
  }

  function Resolve(d0: Dict<Owner>): Resolution
  {
    ResolveUpTo(d0, |d0.keys|)
  }

  /** The resolver changes values only: the dict keeps its keys, so it stays
      well formed. */
  lemma {:induction false} ResolveKeepsKeys(d0: Dict<Owner>, n: nat)
    requires d0.Valid() && n <= |d0.keys|
    ensures ResolveUpTo(d0, n).d.vals.Keys == d0.vals.Keys
    ensures ResolveUpTo(d0, n).d.Valid()
  {
    if n > 0 {
      ResolveKeepsKeys(d0, n - 1);
      assert d0.keys[n - 1] in d0.vals;
    }
    SameShape(d0, ResolveUpTo(d0, n).d);
  }

  /** The resolver loop of ck_data, run over one of the club's email dicts. */
  method ResolveEmails(byEmail: PyDict<Owner>) returns (dangling: seq<string>, shared: seq<string>)
    requires byEmail.d.Valid() && Unresolved(byEmail.d)
    modifies byEmail
    ensures Resolution(byEmail.d, dangling, shared) == Resolve(old(byEmail.d))
  {
    ghost var d0 := byEmail.d;
    var keys := byEmail.d.keys;
    dangling, shared := [], [];
    for i := 0 to |keys|
      invariant Resolution(byEmail.d, dangling, shared) == ResolveUpTo(d0, i)
    {
      ResolveOne(d0, i, byEmail, dangling, shared);
      var email := keys[i];
      var names := byEmail.d.vals[email].names;
      if |names| == 0 {
        dangling := dangling + [email];
      } else if |names| == 1 {
        byEmail.Set(email, Name(names[0]));
      } else {
        shared := shared + [SharedEntry(email, names)];
      }
    }
  }

  /** What the loop body of ResolveEmails relies on at key i. */
  lemma ResolveOne(d0: Dict<Owner>, i: nat, byEmail: PyDict<Owner>, dangling: seq<string>, shared: seq<string>)
    requires d0.Valid() && Unresolved(d0) && i < |d0.keys|
    requires Resolution(byEmail.d, dangling, shared) == ResolveUpTo(d0, i)
    ensures byEmail.d.Valid() && byEmail.d.keys == d0.keys
    ensures var k := d0.keys[i];
            && k in byEmail.d.vals && byEmail.d.vals[k].Names?
            && byEmail.d.vals[k].names == NamesOf(d0, k)
            && ResolveUpTo(d0, i + 1) == ResolveStep(ResolveUpTo(d0, i), k, NamesOf(d0, k))
  {
    ResolveKeepsKeys(d0, i);
    Untouched(d0, i, i);
    assert d0.keys[i] in d0.vals;
  }

  /** A step for one email leaves every other email's value alone. */
  lemma StepKeeps(r: Resolution, k': string, s: seq<string>, k: string)
    requires k != k'
    ensures k in ResolveStep(r, k', s).d.vals <==> k in r.d.vals
    ensures k in r.d.vals ==> ResolveStep(r, k', s).d.vals[k] == r.d.vals[k]
  {
  }

  /** A key the resolver has not reached yet still holds its original value. */
  lemma {:induction false} Untouched(d0: Dict<Owner>, n: nat, m: nat)
    requires d0.Valid() && n <= m < |d0.keys|
    ensures d0.keys[m] in ResolveUpTo(d0, n).d.vals
    ensures ResolveUpTo(d0, n).d.vals[d0.keys[m]] == d0.vals[d0.keys[m]]
  {
    if n > 0 {
      Untouched(d0, n - 1, m);
      var k' := d0.keys[n - 1];
      assert k' != d0.keys[m];
      StepKeeps(ResolveUpTo(d0, n - 1), k', NamesOf(d0, k'), d0.keys[m]);
    } else {
      assert d0.keys[m] in d0.vals;
    }
  }

  /** A key the resolver has passed keeps the value it was given. */
  lemma {:induction false} Settled(d0: Dict<Owner>, m: nat, n: nat)
    requires forall i, j :: 0 <= i < j < |d0.keys| ==> d0.keys[i] != d0.keys[j]
    requires m < n <= |d0.keys|
    ensures var k := d0.keys[m];
            k in ResolveUpTo(d0, m + 1).d.vals ==>
              k in ResolveUpTo(d0, n).d.vals
              && ResolveUpTo(d0, n).d.vals[k] == ResolveUpTo(d0, m + 1).d.vals[k]
  {
    if n > m + 1 {
      Settled(d0, m, n - 1);
      var k' := d0.keys[n - 1];
      assert k' != d0.keys[m];
      StepKeeps(ResolveUpTo(d0, n - 1), k', NamesOf(d0, k'), d0.keys[m]);
    }
  }

  /** Each email ends up as follows: a list of one name is replaced by that
      name; an empty list or one of several names is left as it was. */
  lemma ResolvedValue(d0: Dict<Owner>, m: nat)
    requires d0.Valid() && Unresolved(d0) && m < |d0.keys|
    ensures var k := d0.keys[m];
            var s := d0.vals[k].names;
            var r := Resolve(d0);
            && k in r.d.vals
            && (|s| == 1 ==> r.d.vals[k] == Name(s[0]) && s == [s[0]])
            && (|s| != 1 ==> r.d.vals[k] == d0.vals[k])
  {
    var k := d0.keys[m];
    assert k in d0.vals;
    var s := d0.vals[k].names;
    assert NamesOf(d0, k) == s;
    Untouched(d0, m, m);
    Settled(d0, m, |d0.keys|);
  }

  /** An email with no name is listed as dangling, and one with several names
      is reported with its names sorted. */
  lemma ResolvedListed(d0: Dict<Owner>, m: nat)
    requires d0.Valid() && Unresolved(d0) && m < |d0.keys|
    ensures var k := d0.keys[m];
            var s := d0.vals[k].names;
            var r := Resolve(d0);
            && (|s| == 0 ==> k in r.dangling)
            && (|s| >= 2 ==> SharedEntry(k, s) in r.shared)
  {
    var k := d0.keys[m];
    assert k in d0.vals;
    var s := d0.vals[k].names;
    assert NamesOf(d0, k) == s;
    var after := ResolveUpTo(d0, m + 1);
    assert (|s| == 0 ==> k in after.dangling) && (|s| >= 2 ==> SharedEntry(k, s) in after.shared) by {
      StepListed(ResolveUpTo(d0, m), k, s);
    }
    ListsGrow(d0, m + 1, |d0.keys|);
    var r := Resolve(d0);
    if |s| == 0 {
      InPrefix(after.dangling, r.dangling, k);
    } else if |s| >= 2 {
      InPrefix(after.shared, r.shared, SharedEntry(k, s));
    }
  }

  lemma InPrefix(a: seq<string>, b: seq<string>, x: string)
    requires a <= b && x in a
    ensures x in b
  {
    var i :| 0 <= i < |a| && a[i] == x;
    assert b[i] == x;
  }

  /** A step for an email with no name lists it as dangling, and one for an
      email with several names adds its shared entry. */
  lemma StepListed(r: Resolution, k: string, s: seq<string>)
    ensures |s| == 0 ==> k in ResolveStep(r, k, s).dangling
    ensures |s| >= 2 ==> SharedEntry(k, s) in ResolveStep(r, k, s).shared
  {
    var r' := ResolveStep(r, k, s);
    assert |s| == 0 ==> r'.dangling[|r'.dangling| - 1] == k;
    assert |s| >= 2 ==> r'.shared[|r'.shared| - 1] == SharedEntry(k, s);
  }

  lemma {:induction false} ListsGrow(d0: Dict<Owner>, n: nat, n': nat)
    requires n <= n' <= |d0.keys|
    ensures ResolveUpTo(d0, n).dangling <= ResolveUpTo(d0, n').dangling
    ensures ResolveUpTo(d0, n).shared <= ResolveUpTo(d0, n').shared
  {
    if n < n' {
      ListsGrow(d0, n, n' - 1);
    }
  }

  /** The emails among the first n keys, in order, that have no name
      (several false) or several names (several true). */
  function EmailsWith(d0: Dict<Owner>, n: nat, several: bool): seq<string>
    requires n <= |d0.keys|
  {
    if n == 0 then []
    else
      var k := d0.keys[n - 1];
      EmailsWith(d0, n - 1, several) + (if Picked(d0, k, several) then [k] else [])
  }

  /** k has no name (several false) or several names (several true). */
  predicate Picked(d0: Dict<Owner>, k: string, several: bool)
  {
    if several then |NamesOf(d0, k)| >= 2 else |NamesOf(d0, k)| == 0
  }

  /** A key not yet reached is not picked. */
  lemma {:induction false} NotPicked(d0: Dict<Owner>, n: nat, m: nat, several: bool)
    requires d0.Valid() && n <= m < |d0.keys|
    ensures d0.keys[m] !in EmailsWith(d0, n, several)
  {
    if n > 0 {
      NotPicked(d0, n - 1, m, several);
      assert d0.keys[n - 1] != d0.keys[m];
    }
  }

  /** The picked emails are keys of the dict, with no name or with several
      names as asked. */
  lemma {:induction false} EmailsWithPicked(d0: Dict<Owner>, n: nat, several: bool)
    requires d0.Valid() && n <= |d0.keys|
    ensures forall i :: 0 <= i < |EmailsWith(d0, n, several)| ==>
              EmailsWith(d0, n, several)[i] in d0.vals && Picked(d0, EmailsWith(d0, n, several)[i], several)
  {
    if n > 0 {
      EmailsWithPicked(d0, n - 1, several);
      var p := EmailsWith(d0, n - 1, several);
      var e := EmailsWith(d0, n, several);
      var k := d0.keys[n - 1];
      assert k in d0.vals;
      assert e == p + (if Picked(d0, k, several) then [k] else []);
    }
  }

  /** Every picked email among the first n keys is listed. */
  lemma {:induction false} EmailsWithComplete(d0: Dict<Owner>, n: nat, several: bool)
    requires n <= |d0.keys|
    ensures forall m :: 0 <= m < n && Picked(d0, d0.keys[m], several) ==> d0.keys[m] in EmailsWith(d0, n, several)
  {
    if n > 0 {
      EmailsWithComplete(d0, n - 1, several);
    }
  }

  /** The picked emails are listed once each. */
  lemma {:induction false} EmailsWithDistinct(d0: Dict<Owner>, n: nat, several: bool)
    requires d0.Valid() && n <= |d0.keys|
    ensures var e := EmailsWith(d0, n, several);
            forall i, j :: 0 <= i < j < |e| ==> e[i] != e[j]
  {
    if n > 0 {
      EmailsWithDistinct(d0, n - 1, several);
      NotPicked(d0, n - 1, n - 1, several);
    }
  }

  /** The dangling emails are those with no name, and the shared entries are,
      one for one, those of the emails with several names. */
  lemma {:induction false} ResolvedLists(d0: Dict<Owner>, n: nat)
    requires n <= |d0.keys|
    ensures var r := ResolveUpTo(d0, n);
            var e := EmailsWith(d0, n, true);
            && r.dangling == EmailsWith(d0, n, false)
            && |r.shared| == |e|
            && (forall i :: 0 <= i < |e| ==> r.shared[i] == SharedEntry(e[i], NamesOf(d0, e[i])))
  {
    if n > 0 {
      ResolvedLists(d0, n - 1);
    }
  }

  /** For emails without spaces, the first parts of the shared entries are the
      emails with several names, so ck_data's strict removal of them deletes
      exactly those keys and raises no KeyError. */
  lemma SharedRemoval(d0: Dict<Owner>)
    requires d0.Valid()
    requires forall k :: k in d0.vals ==> ' ' !in k
    ensures var r := Resolve(d0);
            var e := EmailsWith(d0, |d0.keys|, true);
            && FirstPartsOnly(r.shared) == e
            && r.d.Valid()
            && RemoveKeys(r.d, e, false).1 == None
            && RemoveKeys(r.d, e, false).0.vals == r.d.vals - set k | k in e
  {
    var r := Resolve(d0);
    var e := EmailsWith(d0, |d0.keys|, true);
    ResolvedLists(d0, |d0.keys|);
    EmailsWithPicked(d0, |d0.keys|, true);
    EmailsWithDistinct(d0, |d0.keys|, true);
    forall i | 0 <= i < |e| ensures FirstPartsOnly(r.shared)[i] == e[i] {
      SharedEntryFirstPart(e[i], NamesOf(d0, e[i]));
    }
    ResolveKeepsKeys(d0, |d0.keys|);
    RemoveStrict(r.d, e);
  }

  /** The dangling emails are keys of the resolved dict listed once each, so
      ck_data's strict removal of them deletes exactly those keys and raises
      no KeyError. */
  lemma DanglingRemoval(d0: Dict<Owner>)
    requires d0.Valid()
    ensures var r := Resolve(d0);
            && r.d.Valid()
            && RemoveKeys(r.d, r.dangling, false).1 == None
            && RemoveKeys(r.d, r.dangling, false).0.vals == r.d.vals - set k | k in r.dangling
  {
    var r := Resolve(d0);
    ResolvedLists(d0, |d0.keys|);
    EmailsWithPicked(d0, |d0.keys|, false);
    EmailsWithDistinct(d0, |d0.keys|, false);
    ResolveKeepsKeys(d0, |d0.keys|);
    RemoveStrict(r.d, r.dangling);
  }
}
