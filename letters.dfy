/** The letter and email templates (content.py:530-613): padding text out
    to a printer's window (expand), the post-scripts, and the assembly of a
    letter for a given printer and of an email. The templates' named fields
    ({first}, {last}, ...) stay literal text here; they are filled in later,
    outside this model. */
module Letters {
  import opened Base
  import opened Strings

  // ---------------------------------------------------------------- expand

  /** What expand is given and gives back: one string of "\n"-separated
      lines, or a list that the caller holds a reference to. */
  datatype Content = Text(text: string) | Lines(list: PyList)

  /** s padded to n lines: (n - |s|) / 2 empty lines before it, the rest
      after it. */
  function Padded(s: seq<string>, n: nat): seq<string>
    requires |s| <= n
  {
    var lead := (n - |s|) / 2;
    Copies("", lead) + s + Copies("", n - |s| - lead)
  }

  /** expand on a string: its lines padded to n and joined again, or the
      failed assertion when it has more than n lines. */
  function ExpandedText(text: string, n: int): (r: Result<string>)
    ensures r.Err? ==> r == Err(AssertionError)
    ensures r.Ok? <==> |SplitOn(text, "\n")| <= n
    ensures |SplitOn(text, "\n")| == n ==> r == Ok(text)
  {
    var lines := SplitOn(text, "\n");
    JoinSplit(text, "\n");
    assert |lines| == n ==> Padded(lines, n) == lines;
    if |lines| > n then Err(AssertionError) else Ok(JoinWith(Padded(lines, n), "\n"))
  }

  /** expand: pads the content to nlines lines, in the form it was given.
      Padding adds an empty line at each end while two or more are missing,
      each time into a new list, and appends the last one when one is
      missing; so a caller's list one line short is padded in place, one
      two or more short is left alone and a new list is returned. */
  method Expand(content: Content, nlines: int) returns (r: Result<Content>)
    modifies if content.Lines? then {content.list} else {}
    ensures content.Text? ==>
              match ExpandedText(content.text, nlines)
              case Ok(t) => r == Ok(Text(t))
              case Err(e) => r == Err(e)
    ensures content.Lines? ==>
              var s := old(content.list.items);
              && (|s| > nlines ==> r == Err(AssertionError) && content.list.items == s)
              && (|s| <= nlines ==>
                    && r.Ok? && r.value.Lines?
                    && r.value.list.items == Padded(s, nlines)
                    && (nlines - |s| <= 1 ==> r.value.list == content.list)
                    && (nlines - |s| >= 2 ==> fresh(r.value.list) && content.list.items == s))
  {
    var cur: PyList;
    if content.Text? {
      cur := new PyList(SplitOn(content.text, "\n"));
    } else {
      cur := content.list;
    }
    if |cur.items| > nlines {
      return Err(AssertionError);
    }
    cur := Pad(cur, nlines);
    if content.Text? {
      r := Ok(Text(JoinWith(cur.items, "\n")));
    } else {
      r := Ok(Lines(cur));
    }
  }

  /** The while loop of expand, on the list it starts from. */
  method Pad(list: PyList, nlines: int) returns (cur: PyList)
    requires |list.items| <= nlines
    modifies list
    ensures cur.items == Padded(old(list.items), nlines)
    ensures nlines - |old(list.items)| <= 1 ==> cur == list
    ensures nlines - |old(list.items)| >= 2 ==> fresh(cur) && list.items == old(list.items)
  {
    cur := list;
    ghost var s := list.items;
    ghost var lead: nat := 0;
    ghost var trail: nat := 0;
    while nlines > |cur.items|
      invariant cur.items == Copies("", lead) + s + Copies("", trail)
      invariant |cur.items| == lead + |s| + trail <= nlines
      invariant trail == lead || (trail == lead + 1 && |cur.items| == nlines)
      invariant lead == 0 ==> cur == list
      invariant lead > 0 ==> fresh(cur) && list.items == s
      decreases nlines - |cur.items|
    {
      if nlines - |cur.items| >= 2 {
        GrowBoth(lead, s, trail);
        cur := new PyList([""] + cur.items + [""]);
        lead, trail := lead + 1, trail + 1;
      } else {
        GrowTrail(lead, s, trail);
        cur.Append("");
        trail := trail + 1;
      }
    }
    PadDone(s, nlines, lead, trail);
  }

  /** The loop stops with the gap split as Padded splits it. */
  lemma PadDone(s: seq<string>, n: int, lead: nat, trail: nat)
    requires lead + |s| + trail == n && (trail == lead || trail == lead + 1)
    ensures |s| <= n && Copies("", lead) + s + Copies("", trail) == Padded(s, n)
  {
    Halves(n - |s|, lead, trail);
  }

  lemma GrowBoth(lead: nat, s: seq<string>, trail: nat)
    ensures [""] + (Copies("", lead) + s + Copies("", trail)) + [""] == Copies("", lead + 1) + s + Copies("", trail + 1)
  {
    CopiesGrow(lead);
    CopiesGrow(trail);
  }

  lemma GrowTrail(lead: nat, s: seq<string>, trail: nat)
    ensures (Copies("", lead) + s + Copies("", trail)) + [""] == Copies("", lead) + s + Copies("", trail + 1)
  {
    CopiesGrow(trail);
  }

  lemma CopiesGrow(n: nat)
    ensures Copies("", n + 1) == [""] + Copies("", n) == Copies("", n) + [""]
  {
  }

  /** A gap split into two parts that differ by at most one, the second the
      larger, has the half of the gap, rounded down, as its first part. */
  lemma Halves(gap: int, lead: nat, trail: nat)
    requires gap == lead + trail && (trail == lead || trail == lead + 1)
    ensures lead == gap / 2 && trail == gap - lead
  {
  }

  /** Padding centres: lead empty lines, the lines themselves, then lead or
      lead + 1 empty lines, n in all. */
  lemma PaddedShape(s: seq<string>, n: nat)
    requires |s| <= n
    ensures var p := Padded(s, n);
            var lead := (n - |s|) / 2;
            && |p| == n && p[lead..lead + |s|] == s
            && (forall i :: 0 <= i < lead ==> p[i] == "")
            && (forall i :: lead + |s| <= i < n ==> p[i] == "")
            && lead <= n - |s| - lead <= lead + 1
  {
    var lead := (n - |s|) / 2;
    var p := Padded(s, n);
    assert p[lead..lead + |s|] == s;
  }

  /** The text's lines: one more than it has line breaks, none holding one. */
  function TextLines(text: string): (lines: seq<string>)
    ensures |lines| == multiset(text)['\n'] + 1
    ensures forall i :: 0 <= i < |lines| ==> '\n' !in lines[i]
  {
    SplitCharCount(text, '\n');
    SplitOn(text, "\n")
  }

  /** expand fails on a string exactly when it has n or more line breaks;
      otherwise the result, split into lines again, is the text's lines
      padded to n. */
  lemma ExpandedTextLines(text: string, n: int)
    ensures ExpandedText(text, n).Err? <==> multiset(text)['\n'] >= n
    ensures ExpandedText(text, n).Err? ==> ExpandedText(text, n) == Err(AssertionError)
    ensures ExpandedText(text, n).Ok? ==>
              var lines := TextLines(text);
              |lines| <= n && SplitOn(ExpandedText(text, n).value, "\n") == Padded(lines, n)
  {
    var lines := TextLines(text);
    if |lines| <= n {
      var p := Padded(lines, n);
      PaddedShape(lines, n);
      forall i | 0 <= i < |p| ensures '\n' !in p[i] {
        var lead := (n - |lines|) / 2;
        if lead <= i < lead + |lines| {
          assert p[i] == p[lead..lead + |lines|][i - lead];
        }
      }
      SplitCharJoin(p, '\n');
    }
  }

  /** A text that already has n lines comes back unchanged. */
  lemma ExpandedTextExact(text: string, n: int)
    requires multiset(text)['\n'] + 1 == n
    ensures ExpandedText(text, n) == Ok(text)
  {
    var lines := TextLines(text);
    assert Padded(lines, n) == lines;
    JoinSplit(text, "\n");
  }

  // ---------------------------------------------------------------- get_postscripts

  /** The n-th post-script (from 0): a line break, n extra P's, "PS", the text. */
  function PostScript(n: nat, text: string): string
  {
    "\n" + Copies('P', n) + "PS" + text
  }

  /** What get_postscripts returns: every post-script marked by its position. */
  function PostScripts(ps: seq<string>): seq<string>
  {
    seq(|ps|, i requires 0 <= i < |ps| => PostScript(i, ps[i]))
  }

  /** get_postscripts: one entry per post-script, in order. */
  method GetPostscripts(ps: seq<string>) returns (ret: seq<string>)
    ensures ret == PostScripts(ps)
  {
    ret := [];
    var n := 0;
    while n < |ps|
      invariant 0 <= n <= |ps|
      invariant ret == PostScripts(ps[..n])
    {
      assert PostScripts(ps[..n + 1]) == PostScripts(ps[..n]) + [PostScript(n, ps[n])];
      ret := ret + [PostScript(n, ps[n])];
      n := n + 1;
    }
    assert ps[..n] == ps;
  }

  /** The i-th entry starts a new paragraph, carries i + 1 P's before "S",
      and its text is recovered after the marker. */
  lemma PostScriptsMarked(ps: seq<string>, i: nat)
    requires i < |ps|
    ensures var r := PostScripts(ps);
            && |r| == |ps| && |r[i]| == i + 3 + |ps[i]|
            && r[i][0] == '\n' && r[i][1..i + 3] == Copies('P', i + 1) + "S"
            && r[i][i + 3..] == ps[i]
            && SplitOn(r[i], "\n") == [""] + SplitOn(r[i][1..], "\n")
  {
    var r := PostScripts(ps);
    var x := r[i];
    assert x == "\n" + (Copies('P', i) + "PS" + ps[i]);
    assert x[1..i + 3] == Copies('P', i + 1) + "S";
    assert x[i + 3..] == ps[i];
    SplitCharAround("", '\n', x[1..]);
    assert [] + ['\n'] + x[1..] == x;
  }

  // ---------------------------------------------------------------- letters

  /** One of the authors a letter goes out from. */
  datatype Sender = Sender(first: string, last: string, address: string, town: string,
                           state: string, postalCode: string, country: string, email: string,
                           emailSignature: string, mailSignature: string)

  /** One content type: its subject, optional salutation, body, author and
      post-scripts. */
  datatype Letter = Letter(subject: string, salutation: Option<string>, body: string,
                           from: Sender, postScripts: seq<string>)

  /** The layout of a page for one printer, in lines: the top margin, the
      return-address window, the gap before the recipient window, that
      window, and the space below it. The second member of each window and
      the indent are widths, which letter_format does not use. */
  datatype Printer = Printer(indent: nat, top: nat, frm: (nat, nat), date: nat,
                             to: (nat, nat), re: nat)

  /** The printers dict. */
  function PrinterNamed(name: string): (r: Option<Printer>)
    ensures r.Some? <==> name in {"X6505", "HL2170", "Janice"}
    ensures r.Some? ==> r.value.frm == (5, 25) && r.value.date == 4 && r.value.to == (7, 29) && r.value.re == 3
  {
    if name == "X6505" then Some(Printer(4, 1, (5, 25), 4, (7, 29), 3))
    else if name == "HL2170" then Some(Printer(3, 1, (5, 25), 4, (7, 29), 3))
    else if name == "Janice" then Some(Printer(4, 4, (5, 25), 4, (7, 29), 3))
    else None
  }

  /** The address template, line by line; its fields stay to be filled per
      recipient. */
  const AddressTemplate: seq<string> :=
    ["{first} {last}", "{address}", "{town}, {state} {postal_code}", "{country}"]

  /** address_format: the template's lines, one below the other. */
  const AddressFormat := JoinWith(AddressTemplate, "\n")

  /** The address template's lines filled from a sender. */
  function AddressOf(s: Sender): seq<string>
  {
    [s.first + " " + s.last, s.address, s.town + ", " + s.state + " " + s.postalCode, s.country]
  }

  /** The return address: the address template filled with the sender's fields. */
  function ReturnAddress(s: Sender): string
  {
    JoinWith(AddressOf(s), "\n")
  }

  /** The template has four lines, so it fits any window of four or more. */
  lemma AddressFormatLines()
    ensures TextLines(AddressFormat) == AddressTemplate
  {
    var ls := AddressTemplate;
    assert '\n' !in ls[0] && '\n' !in ls[1] && '\n' !in ls[2] && '\n' !in ls[3];
    SplitCharJoin(ls, '\n');
  }

  /** A sender whose fields hold no line break has a four-line return
      address, so it fits every printer's return window. */
  lemma ReturnAddressLines(s: Sender)
    requires '\n' !in s.first && '\n' !in s.last && '\n' !in s.address && '\n' !in s.town
    requires '\n' !in s.state && '\n' !in s.postalCode && '\n' !in s.country
    ensures TextLines(ReturnAddress(s)) == AddressOf(s)
  {
    var ls := AddressOf(s);
    assert '\n' !in ls[0] && '\n' !in ls[2];
    SplitCharJoin(ls, '\n');
  }

  /** The salutation line: the letter's own, or the template's. */
  function Salutation(w: Letter): string
  {
    match w.salutation
    case Some(s) => s + "\n"
    case None => "Dear {first} {last},\n"
  }

  /** What follows the windows: salutation, body, mail signature, post-scripts. */
  function LetterTail(w: Letter): seq<string>
  {
    [Salutation(w), w.body, w.from.mailSignature] + PostScripts(w.postScripts)
  }

  /** The pieces letter_format joins, or the failed assertion of expand. */
  function LetterPieces(w: Letter, p: Printer, datestamp: string): Result<seq<string>>
  {
    var a := ExpandedText(ReturnAddress(w.from), p.frm.0);
    var d := ExpandedText(datestamp, p.date);
    var t := ExpandedText(AddressFormat, p.to.0);
    var r := ExpandedText("Re: " + w.subject, p.re);
    if a.Err? then Err(a.error)
    else if d.Err? then Err(d.error)
    else if t.Err? then Err(t.error)
    else if r.Err? then Err(r.error)
    else Ok(Copies("", p.top) + [a.value, d.value, t.value, r.value] + LetterTail(w))
  }

  /** letter_format, with the date stamp given. */
  function LetterFormat(w: Letter, printer: string, datestamp: string): (r: Result<string>)
    ensures r == Err(KeyError(printer)) <==> PrinterNamed(printer).None?
    ensures r.Err? && PrinterNamed(printer).Some? ==> r == Err(AssertionError)
  {
    match PrinterNamed(printer)
    case None => Err(KeyError(printer))
    case Some(p) =>
      match LetterPieces(w, p, datestamp)
      case Err(e) => Err(e)
      case Ok(ls) => Ok(JoinWith(ls, "\n"))
  }

  /** The lines of a list of texts, one text after another. */
  function LinesOf(ts: seq<string>): seq<string>
  {
    if ts == [] then [] else TextLines(ts[0]) + LinesOf(ts[1..])
  }

  lemma {:induction false} LinesOfAppend(xs: seq<string>, ys: seq<string>)
    ensures LinesOf(xs + ys) == LinesOf(xs) + LinesOf(ys)
  {
    if xs != [] {
      assert (xs + ys)[1..] == xs[1..] + ys;
      LinesOfAppend(xs[1..], ys);
    } else {
      assert xs + ys == ys;
    }
  }

  lemma {:induction false} LinesOfBlanks(n: nat)
    ensures LinesOf(Copies("", n)) == Copies("", n)
  {
    if n > 0 {
      assert Copies("", n)[1..] == Copies("", n - 1);
      LinesOfBlanks(n - 1);
      SplitCharAbsent("", '\n');
    }
  }

  lemma LinesOfFour(a: string, b: string, c: string, d: string)
    ensures LinesOf([a, b, c, d]) == TextLines(a) + TextLines(b) + TextLines(c) + TextLines(d)
  {
    assert LinesOf([d]) == TextLines(d) by {
      assert [d][1..] == [];
    }
    assert LinesOf([c, d]) == TextLines(c) + TextLines(d) by {
      assert [c, d][1..] == [d];
    }
    assert LinesOf([b, c, d]) == TextLines(b) + (TextLines(c) + TextLines(d)) by {
      assert [b, c, d][1..] == [c, d];
    }
    assert LinesOf([a, b, c, d]) == TextLines(a) + (TextLines(b) + (TextLines(c) + TextLines(d))) by {
      assert [a, b, c, d][1..] == [b, c, d];
    }
    Assoc4(TextLines(a), TextLines(b), TextLines(c), TextLines(d));
  }

  lemma Assoc4(x: seq<string>, y: seq<string>, z: seq<string>, u: seq<string>)
    ensures x + (y + (z + u)) == x + y + z + u
  {
  }

  /** Splitting a join of texts gives the lines of each, in order. */
  lemma {:induction false} JoinedLines(ts: seq<string>)
    requires ts != []
    ensures SplitOn(JoinWith(ts, "\n"), "\n") == LinesOf(ts)
  {
    if |ts| == 1 {
      assert LinesOf(ts) == TextLines(ts[0]) + LinesOf([]);
    } else {
      JoinedLines(ts[1..]);
      SplitCharAround(ts[0], '\n', JoinWith(ts[1..], "\n"));
    }
  }

  /** Assembling the pieces fails, with the failed assertion of expand,
      exactly when the return address, the date stamp or the "Re:" line has
      more lines than its window, given a recipient window the template fits. */
  lemma LetterPiecesErrors(w: Letter, p: Printer, datestamp: string)
    requires p.to.0 >= 4
    ensures LetterPieces(w, p, datestamp).Err? <==>
              || multiset(ReturnAddress(w.from))['\n'] >= p.frm.0
              || multiset(datestamp)['\n'] >= p.date
              || multiset("Re: " + w.subject)['\n'] >= p.re
    ensures LetterPieces(w, p, datestamp).Err? ==> LetterPieces(w, p, datestamp) == Err(AssertionError)
  {
    ExpandedTextLines(ReturnAddress(w.from), p.frm.0);
    ExpandedTextLines(datestamp, p.date);
    ExpandedTextLines(AddressFormat, p.to.0);
    ExpandedTextLines("Re: " + w.subject, p.re);
    AddressFormatLines();
  }

  /** letter_format fails with KeyError for a printer it does not know, and
      otherwise with the failed assertion of expand exactly when the return
      address, the date stamp or the "Re:" line has more lines than its
      window. */
  lemma LetterFormatErrors(w: Letter, printer: string, datestamp: string)
    ensures PrinterNamed(printer).None? ==> LetterFormat(w, printer, datestamp) == Err(KeyError(printer))
    ensures PrinterNamed(printer).Some? ==>
              var p := PrinterNamed(printer).value;
              (LetterFormat(w, printer, datestamp).Err? <==>
                 || multiset(ReturnAddress(w.from))['\n'] >= p.frm.0
                 || multiset(datestamp)['\n'] >= p.date
                 || multiset("Re: " + w.subject)['\n'] >= p.re)
              && (LetterFormat(w, printer, datestamp).Err? ==>
                    LetterFormat(w, printer, datestamp) == Err(AssertionError))
  {
    if PrinterNamed(printer).Some? {
      LetterPiecesErrors(w, PrinterNamed(printer).value, datestamp);
    }
  }

  /** One window: the text expanded to n lines has the text's lines padded to n. */
  lemma WindowLines(text: string, n: nat)
    requires |TextLines(text)| <= n
    ensures ExpandedText(text, n).Ok? && TextLines(ExpandedText(text, n).value) == Padded(TextLines(text), n)
  {
    ExpandedTextLines(text, n);
  }

  /** The lines of the pieces: the top margin, each window's lines centred
      in it, then the lines of the salutation, body, signature and
      post-scripts. */
  lemma LetterPiecesLines(w: Letter, p: Printer, datestamp: string)
    requires |TextLines(ReturnAddress(w.from))| <= p.frm.0 && |TextLines(datestamp)| <= p.date
    requires |TextLines("Re: " + w.subject)| <= p.re && p.to.0 >= 4
    ensures LetterPieces(w, p, datestamp).Ok?
    ensures LinesOf(LetterPieces(w, p, datestamp).value) ==
              Copies("", p.top)
              + Padded(TextLines(ReturnAddress(w.from)), p.frm.0)
              + Padded(TextLines(datestamp), p.date)
              + Padded(AddressTemplate, p.to.0)
              + Padded(TextLines("Re: " + w.subject), p.re)
              + LinesOf(LetterTail(w))
  {
    var a := ExpandedText(ReturnAddress(w.from), p.frm.0);
    var d := ExpandedText(datestamp, p.date);
    var t := ExpandedText(AddressFormat, p.to.0);
    var r := ExpandedText("Re: " + w.subject, p.re);
    WindowsPadded(w, p, datestamp);
    PiecesValue(w, p, datestamp);
    PiecesLines(p.top, a.value, d.value, t.value, r.value, LetterTail(w));
  }

  /** Each of the four windows fits, and holds its text's lines padded. */
  lemma WindowsPadded(w: Letter, p: Printer, datestamp: string)
    requires |TextLines(ReturnAddress(w.from))| <= p.frm.0 && |TextLines(datestamp)| <= p.date
    requires |TextLines("Re: " + w.subject)| <= p.re && p.to.0 >= 4
    ensures ExpandedText(ReturnAddress(w.from), p.frm.0).Ok?
    ensures ExpandedText(datestamp, p.date).Ok?
    ensures ExpandedText(AddressFormat, p.to.0).Ok?
    ensures ExpandedText("Re: " + w.subject, p.re).Ok?
    ensures TextLines(ExpandedText(ReturnAddress(w.from), p.frm.0).value) == Padded(TextLines(ReturnAddress(w.from)), p.frm.0)
    ensures TextLines(ExpandedText(datestamp, p.date).value) == Padded(TextLines(datestamp), p.date)
    ensures TextLines(ExpandedText(AddressFormat, p.to.0).value) == Padded(AddressTemplate, p.to.0)
    ensures TextLines(ExpandedText("Re: " + w.subject, p.re).value) == Padded(TextLines("Re: " + w.subject), p.re)
  {
    WindowLines(ReturnAddress(w.from), p.frm.0);
    WindowLines(datestamp, p.date);
    AddressFormatLines();
    WindowLines(AddressFormat, p.to.0);
    WindowLines("Re: " + w.subject, p.re);
  }

  /** When every window fits, the pieces are the top margin, the four
      windows and the tail. */
  lemma PiecesValue(w: Letter, p: Printer, datestamp: string)
    requires ExpandedText(ReturnAddress(w.from), p.frm.0).Ok?
    requires ExpandedText(datestamp, p.date).Ok?
    requires ExpandedText(AddressFormat, p.to.0).Ok?
    requires ExpandedText("Re: " + w.subject, p.re).Ok?
    ensures LetterPieces(w, p, datestamp) ==
              Ok(Copies("", p.top)
                 + [ExpandedText(ReturnAddress(w.from), p.frm.0).value, ExpandedText(datestamp, p.date).value,
                    ExpandedText(AddressFormat, p.to.0).value, ExpandedText("Re: " + w.subject, p.re).value]
                 + LetterTail(w))
  {
  }

  /** The lines of a top margin, four windows and the tail. */
  lemma PiecesLines(top: nat, a: string, d: string, t: string, r: string, tail: seq<string>)
    ensures LinesOf(Copies("", top) + [a, d, t, r] + tail)
            == Copies("", top) + TextLines(a) + TextLines(d) + TextLines(t) + TextLines(r) + LinesOf(tail)
  {
    var c, ws := Copies("", top), [a, d, t, r];
    assert LinesOf(c + ws + tail) == c + LinesOf(ws) + LinesOf(tail) by {
      LinesOfBlanks(top);
      LinesOfAppend(c + ws, tail);
      LinesOfAppend(c, ws);
    }
    LinesOfFour(a, d, t, r);
    Regroup(c, TextLines(a), TextLines(d), TextLines(t), TextLines(r), LinesOf(tail));
  }

  lemma Regroup(c: seq<string>, la: seq<string>, ld: seq<string>, lt: seq<string>, lr: seq<string>,
                tl: seq<string>)
    ensures c + (la + ld + lt + lr) + tl == c + la + ld + lt + lr + tl
  {
  }

  /** The lines of a letter for a printer it knows, when every window is
      big enough: the top margin, each window's lines centred in it, then
      the lines of the salutation, body, signature and post-scripts. */
  lemma LetterLayout(w: Letter, printer: string, datestamp: string, p: Printer)
    requires PrinterNamed(printer) == Some(p)
    requires |TextLines(ReturnAddress(w.from))| <= p.frm.0 && |TextLines(datestamp)| <= p.date
    requires |TextLines("Re: " + w.subject)| <= p.re
    ensures LetterFormat(w, printer, datestamp).Ok?
    ensures SplitOn(LetterFormat(w, printer, datestamp).value, "\n") ==
              Copies("", p.top)
              + Padded(TextLines(ReturnAddress(w.from)), p.frm.0)
              + Padded(TextLines(datestamp), p.date)
              + Padded(AddressTemplate, p.to.0)
              + Padded(TextLines("Re: " + w.subject), p.re)
              + LinesOf(LetterTail(w))
  {
    LetterPiecesLines(w, p, datestamp);
    var ls := LetterPieces(w, p, datestamp).value;
    assert ls != [] by {
      assert |LetterTail(w)| >= 3;
    }
    JoinedLines(ls);
  }

  // ---------------------------------------------------------------- emails

  /** The email header template's lines, with the sender's address and the
      subject filled in; the recipient's fields stay to be filled. */
  function HeaderLines(email: string, subject: string): seq<string>
  {
    ["From: " + email, "To: {email}", "Subject: " + subject, "", "Dear {first} {last},"]
  }

  /** The email header filled with the sender's email and the subject. */
  function EmailHeader(email: string, subject: string): string
  {
    JoinWith(HeaderLines(email, subject), "\n")
  }

  /** The header splits back into its five lines when the sender's address
      and the subject hold no line break. */
  lemma HeaderText(email: string, subject: string)
    requires '\n' !in email && '\n' !in subject
    ensures TextLines(EmailHeader(email, subject)) == HeaderLines(email, subject)
  {
    var hs := HeaderLines(email, subject);
    assert '\n' !in hs[0] && '\n' !in hs[1] && '\n' !in hs[2] && '\n' !in hs[3] && '\n' !in hs[4];
    SplitCharJoin(hs, '\n');
  }

  /** prepare_email */
  function PrepareEmail(w: Letter): (r: string)
    ensures "From: " + w.from.email <= r
  {
    var hs := HeaderLines(w.from.email, w.subject);
    var parts := [EmailHeader(w.from.email, w.subject), w.body, w.from.emailSignature]
                 + PostScripts(w.postScripts);
    assert JoinWith(parts, "\n") == parts[0] + "\n" + JoinWith(parts[1..], "\n");
    assert parts[0] == hs[0] + "\n" + JoinWith(hs[1..], "\n");
    JoinWith([EmailHeader(w.from.email, w.subject), w.body, w.from.emailSignature]
               + PostScripts(w.postScripts), "\n")
  }

  /** An email opens with the sender, the recipient field, the subject, a
      blank line and the salutation, then the lines of the body, the email
      signature and the post-scripts. */
  lemma EmailLayout(w: Letter)
    requires '\n' !in w.from.email && '\n' !in w.subject
    ensures SplitOn(PrepareEmail(w), "\n") ==
              HeaderLines(w.from.email, w.subject)
              + LinesOf([w.body, w.from.emailSignature] + PostScripts(w.postScripts))
    ensures SplitOn(PrepareEmail(w), "\n")[0] == "From: " + w.from.email
  {
    var hs := HeaderLines(w.from.email, w.subject);
    var h := EmailHeader(w.from.email, w.subject);
    var rest := [w.body, w.from.emailSignature] + PostScripts(w.postScripts);
    HeaderText(w.from.email, w.subject);
    assert SplitOn(PrepareEmail(w), "\n") == LinesOf([h] + rest) by {
      assert [h, w.body, w.from.emailSignature] + PostScripts(w.postScripts) == [h] + rest;
      JoinedLines([h] + rest);
    }
    assert LinesOf([h] + rest) == TextLines(h) + LinesOf(rest) by {
      assert ([h] + rest)[1..] == rest;
    }
  }
}
