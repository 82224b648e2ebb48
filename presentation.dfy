/** The listings built from the gathered applicant data (present_expired,
    present_applicants) and the generic dict listing and comparison used on
    the fee data (data_listed, compare). Each builds a fresh list of lines. */
module Presentation {
  import opened Strings
  import opened Sorting
  import opened Dicts

  const ExpiredHeader := "Applicants whos applications have expired:"
  const ExpiredRule := "=========================================="
  const StatusHeader := "Applicants by status:"
  const StatusRule := "====================="

  /** A header and its underline, unless the listing is raw. */
  function Banner(header: string, rule: string, raw: bool): seq<string>
  {
    if raw then [] else [header, rule]
  }

  // ---------------------------------------------------------------- present_expired

  /** present_expired: the expired names, unchanged and in the order given,
      under a two-line banner unless raw. */
  function PresentExpired(names: seq<string>, raw: bool): (r: seq<string>)
    ensures var h := if raw then 0 else 2;
            |r| == h + |names| && r[h..] == names
    ensures !raw ==> r[..2] == [ExpiredHeader, ExpiredRule] && |ExpiredRule| == |ExpiredHeader|
  {
    Banner(ExpiredHeader, ExpiredRule, raw) + names
  }

  // ---------------------------------------------------------------- present_applicants

  /** One status: a blank line unless raw, "<status>:", then its names sorted. */
  function StatusSection(status: string, names: seq<string>, raw: bool): seq<string>
  {
    (if raw then [] else [""]) + [status + ":"] + Sort(names)
  }

  /** The lines of the blocks, one block after another. */
  function Concat(bs: seq<seq<string>>): seq<string>
  {
    if bs == [] then [] else Concat(bs[..|bs| - 1]) + bs[|bs| - 1]
  }

  /** Where block j begins within Concat(bs). */
  function BlockStart(bs: seq<seq<string>>, j: nat): nat
    requires j <= |bs|
  {
    |Concat(bs[..j])|
  }

  lemma {:induction false} ConcatPrefix(bs: seq<seq<string>>, j: nat)
    requires j <= |bs|
    ensures |Concat(bs[..j])| <= |Concat(bs)|
    ensures Concat(bs)[..|Concat(bs[..j])|] == Concat(bs[..j])
  {
    if j < |bs| {
      var p := bs[..|bs| - 1];
      assert p[..j] == bs[..j];
      ConcatPrefix(p, j);
    } else {
      assert bs[..j] == bs;
    }
  }

  /** Blocks of at least k lines each make at least k lines per block. */
  lemma {:induction false} ConcatAtLeast(bs: seq<seq<string>>, k: nat)
    requires forall j :: 0 <= j < |bs| ==> |bs[j]| >= k
    ensures |Concat(bs)| >= k * |bs|
  {
    if bs != [] {
      var p := bs[..|bs| - 1];
      ConcatAtLeast(p, k);
      assert k * |bs| == k * |p| + k;
    }
  }

  /** Block j sits, whole, at BlockStart(bs, j). */
  lemma {:induction false} ConcatAt(bs: seq<seq<string>>, j: nat)
    requires j < |bs|
    ensures BlockStart(bs, j) + |bs[j]| <= |Concat(bs)|
    ensures Concat(bs)[BlockStart(bs, j)..BlockStart(bs, j) + |bs[j]|] == bs[j]
  {
    ConcatPrefix(bs, j + 1);
    var q := bs[..j + 1];
    assert q[..|q| - 1] == bs[..j];
    var r := Concat(bs);
    var i := BlockStart(bs, j);
    assert Concat(q) == Concat(bs[..j]) + bs[j];
    assert r[i..i + |bs[j]|] == Concat(q)[i..i + |bs[j]|];
  }

  /** One-line blocks concatenate to the list of their lines. */
  lemma {:induction false} ConcatOfSingles(bs: seq<seq<string>>, i: nat)
    requires forall j :: 0 <= j < |bs| ==> |bs[j]| == 1
    requires i < |bs|
    ensures |Concat(bs)| == |bs| && Concat(bs)[i] == bs[i][0]
  {
    var p := bs[..|bs| - 1];
    if i < |p| {
      ConcatOfSingles(p, i);
    } else if p != [] {
      ConcatOfSingles(p, 0);
    }
  }

  /** The section of each status, in the order of ks. */
  function StatusBlocks(ks: seq<string>, d: Dict<seq<string>>, raw: bool): (bs: seq<seq<string>>)
    requires forall k :: k in ks ==> k in d.vals
    ensures |bs| == |ks|
  {
    seq(|ks|, i requires 0 <= i < |ks| => StatusSection(ks[i], d.vals[ks[i]], raw))
  }

  /** sorted(d.keys()) */
  function SortedKeys<V>(d: Dict<V>): (ks: seq<string>)
    requires d.Valid()
    ensures forall k :: k in ks <==> k in d.vals
    ensures |ks| == |d.keys| && Sorted(ks)
  {
    SortMembers(d.keys);
    Sort(d.keys)
  }

  /** present_applicants: the statuses in sorted order, each with its names sorted. */
  function PresentApplicants(d: Dict<seq<string>>, raw: bool): (r: seq<string>)
    requires d.Valid()
    ensures raw ==> |r| >= |d.keys|
    ensures !raw ==> |r| >= 2 + 2 * |d.keys| && r[..2] == [StatusHeader, StatusRule]
  {
    var bs := StatusBlocks(SortedKeys(d), d, raw);
    ConcatAtLeast(bs, if raw then 1 else 2);
    Banner(StatusHeader, StatusRule, raw) + Concat(StatusBlocks(SortedKeys(d), d, raw))
  }

  /** Below the banner every status gets its section, in sorted order of
      status: the heading line, then all of its names, sorted. The j-th
      status's section starts after the banner and the sections of the
      statuses before it. */
  lemma PresentApplicantsSection(d: Dict<seq<string>>, raw: bool, j: nat)
    requires d.Valid() && j < |d.keys|
    ensures var ks := SortedKeys(d);
            var sec := StatusSection(ks[j], d.vals[ks[j]], raw);
            var h := |Banner(StatusHeader, StatusRule, raw)| + BlockStart(StatusBlocks(ks, d, raw), j);
            h + |sec| <= |PresentApplicants(d, raw)| && PresentApplicants(d, raw)[h..h + |sec|] == sec
  {
    var ks := SortedKeys(d);
    var bs := StatusBlocks(ks, d, raw);
    var banner := Banner(StatusHeader, StatusRule, raw);
    assert PresentApplicants(d, raw) == banner + Concat(bs);
    PrefixedConcatAt(banner, bs, j);
  }

  /** Block j of a listing that follows a fixed prefix. */
  lemma PrefixedConcatAt(prefix: seq<string>, bs: seq<seq<string>>, j: nat)
    requires j < |bs|
    ensures var h := |prefix| + BlockStart(bs, j);
            h + |bs[j]| <= |prefix + Concat(bs)| && (prefix + Concat(bs))[h..h + |bs[j]|] == bs[j]
  {
    ConcatAt(bs, j);
    var i := BlockStart(bs, j);
    assert (prefix + Concat(bs))[|prefix| + i..|prefix| + i + |bs[j]|] == Concat(bs)[i..i + |bs[j]|];
  }

  // ---------------------------------------------------------------- data_listed

  /** One key of data_listed: inline "<key> :<v1>, <v2>..." or a block of
      "\n<key>", the underline repeated to the key's length, and the values. */
  function Entry(key: string, values: seq<string>, underline: string, inline: bool): seq<string>
  {
    if inline then [key + " :" + JoinWith(Sort(values), ", ")]
    else ["\n" + key, Repeat(underline, |key|)] + Sort(values)
  }

  function Entries(ks: seq<string>, d: Dict<seq<string>>, underline: string, inline: bool): (bs: seq<seq<string>>)
    requires forall k :: k in ks ==> k in d.vals
    ensures |bs| == |ks|
  {
    seq(|ks|, i requires 0 <= i < |ks| => Entry(ks[i], d.vals[ks[i]], underline, inline))
  }

  /** data_listed: every key in sorted order with its values sorted. */
  function DataListed(d: Dict<seq<string>>, underline: string, inline: bool): (r: seq<string>)
    requires d.Valid()
    ensures inline ==> |r| == |d.keys|
    ensures !inline ==> |r| >= 2 * |d.keys|
  {
    var bs := Entries(SortedKeys(d), d, underline, inline);
    ConcatAtLeast(bs, if inline then 1 else 2);
    if inline && bs != [] then ConcatOfSingles(bs, 0); Concat(bs) else
    Concat(Entries(SortedKeys(d), d, underline, inline))
  }

  /** An inline listing has one line per key: the i-th key in sorted order,
      " :", and its values sorted and joined by ", ". */
  lemma {:induction false} InlineListing(d: Dict<seq<string>>, underline: string, i: nat)
    requires d.Valid() && i < |d.keys|
    ensures var ks := SortedKeys(d);
            var r := DataListed(d, underline, true);
            |r| == |d.keys| && r[i] == ks[i] + " :" + JoinWith(Sort(d.vals[ks[i]]), ", ")
  {
    var ks := SortedKeys(d);
    var bs := Entries(ks, d, underline, true);
    assert forall j :: 0 <= j < |bs| ==> |bs[j]| == 1;
    ConcatOfSingles(bs, i);
  }

  /** A block listing shows the j-th key in sorted order as a "\n"-prefixed
      heading over an underline of the key's length, followed by every value of
      that key, sorted; it starts after the blocks of the keys before it. */
  lemma BlockListing(d: Dict<seq<string>>, underline: string, j: nat)
    requires d.Valid() && j < |d.keys|
    ensures var ks := SortedKeys(d);
            var block := ["\n" + ks[j], Repeat(underline, |ks[j]|)] + Sort(d.vals[ks[j]]);
            var h := BlockStart(Entries(ks, d, underline, false), j);
            h + |block| <= |DataListed(d, underline, false)| && DataListed(d, underline, false)[h..h + |block|] == block
  {
    var ks := SortedKeys(d);
    var bs := Entries(ks, d, underline, false);
    assert DataListed(d, underline, false) == [] + Concat(bs);
    PrefixedConcatAt([], bs, j);
  }

  /** Equal dicts list alike, whatever order their keys were inserted in. */
  lemma DataListedOrderFree(d1: Dict<seq<string>>, d2: Dict<seq<string>>, underline: string, inline: bool)
    requires d1.Valid() && d2.Valid() && d1.vals == d2.vals
    ensures DataListed(d1, underline, inline) == DataListed(d2, underline, inline)
  {
    SortDistinct(d1.keys, d2.keys);
    EntriesSameValues(SortedKeys(d1), d1, d2, underline, inline);
  }

  lemma EntriesSameValues(ks: seq<string>, d1: Dict<seq<string>>, d2: Dict<seq<string>>,
                          underline: string, inline: bool)
    requires d1.vals == d2.vals && forall k :: k in ks ==> k in d1.vals
    ensures Entries(ks, d1, underline, inline) == Entries(ks, d2, underline, inline)
  {
    assert forall i :: 0 <= i < |ks| ==> Entries(ks, d1, underline, inline)[i] == Entries(ks, d2, underline, inline)[i];
  }

  // ---------------------------------------------------------------- compare

  const GoodNews := "Good News: data1 == data2"
  const BadNews := "Bad News: data1 != data2"

  const Listing1 := "\nListing1..."
  const Listing2 := "\nListing2..."
  const EndOfListings := "... end of listings"

  /** compare: a verdict that is good exactly when the dicts are equal, then
      both listings, in order, between markers. */
  function Compare(d1: Dict<seq<string>>, d2: Dict<seq<string>>, underline: string, inline: bool): (r: seq<string>)
    requires d1.Valid() && d2.Valid()
    ensures |r| >= 4 && (r[0] == GoodNews <==> d1.vals == d2.vals)
    ensures var l1 := DataListed(d1, underline, inline);
            var l2 := DataListed(d2, underline, inline);
            r == [r[0], Listing1] + l1 + [Listing2] + l2 + [EndOfListings]
  {
    var verdict := if d1.vals == d2.vals then GoodNews else BadNews;
    assert verdict == GoodNews <==> d1.vals == d2.vals;
    [verdict, Listing1] + DataListed(d1, underline, inline) + [Listing2]
      + DataListed(d2, underline, inline) + [EndOfListings]
  }

  /** When the dicts are equal the verdict is good and the two listings are
      the same lines. */
  lemma CompareEqual(d1: Dict<seq<string>>, d2: Dict<seq<string>>, underline: string, inline: bool)
    requires d1.Valid() && d2.Valid() && d1.vals == d2.vals
    ensures Compare(d1, d2, underline, inline)[0] == GoodNews
    ensures DataListed(d1, underline, inline) == DataListed(d2, underline, inline)
  {
    DataListedOrderFree(d1, d2, underline, inline);
  }
}
