# Bolinas Rod and Boat Club data: a verified model

The club keeps its records in several places:

- the membership list;
- the applicants file, where each line is a name followed by the meetings attended and the sponsors;
- the extra-fees file, with the Dock, Kayak and Mooring charges per member;
- the Google contacts export, with each contact's email and groups.

The core of the utilities reads these sources and makes a few things from them:

- dictionaries keyed by name, email, status, group and fee category;
- presentations of those dictionaries;
- an integrity report from `ck_data`, which cross-checks the membership list against the contacts and the applicants file, and the fee files against each other.

The mail-merge side of the same utilities formats a letter for each recipient:

- either as a printable page laid out for a windowed envelope;
- or as an email with a header.

It also writes a member's fee statement, tallies receipts into subtotals, and builds Gmail "plus" addresses.

The model is organised as follows:

- **Strings, Sorting, Dicts, Base:** Python's strings, `sorted()`, insertion-ordered `dict`s and in-place lists.
  - Python's string order is `StrLe`.
  - `sorted()` is the unique sorted permutation (`Sorting.Sort`, `Sorting.SortedSet`).
  - A `dict` is a key sequence plus a map (`Dicts.Dict`).
  - A dict or list the source mutates is a class (`Dicts.PyDict`, `Base.PyList`).
- **Contacts, Applicants, Fees:** the three gatherers of `data.py`.
  - Each is a loop in a `method`, proved equal to a reference function over the input lines.
  - What the gathered dicts hold is proved about that function.
- **Presentation, Problems:** the functions that present the gathered data, `add2problems`, `remove_unwanted_items` and `first_parts_only`, with the email resolution done inside `ck_data`.
- **Reconcile, ReconcileFacts:** `ck_data`.
  - Its phases are pure functions over a `Stage`: the report so far, the "ok" list and the dictionaries it changes.
  - The class `Reconcile.Check` runs the phases as the source does, mutating the shared dicts and lists; `Reconcile.CkData` is the entry point.
  - `ReconcileFacts` states what each phase and the whole check guarantee.
- **Letters:** `expand`, `get_postscripts`, `letter_format` and `prepare_email` of `content.py`.
- **FeeStatement:** `custom_early_aug2018` from `Formats/content.py`.
- **Rbc:** the `Club` class of `rbc.py`, its constants and `fee_totals`.
- **PlusAddress:** `pseudo_recipient` from `Pymail/config.py`.

Python exceptions are modelled as values.

- A function that can raise returns a `Result` or an `Error`: `KeyError`, `IndexError`, `ValueError` or `AssertionError`.
- A method that can raise returns the error as an out-parameter.

Where the specification and the code disagree, the model follows the code:

- **add2problems** (data.py:471-498): the docstring calls the list "sorted", but the code does not sort.
  - An empty list stays empty.
  - So with `raw` set, `ck_data` begins with an empty report, and every section added through `add2problems` before the first line appended directly vanishes from it.
  - The lines appended directly are the form feed (data.py:698), the group mismatch (data.py:766-776), the applicant comparison (data.py:795-800) and the fee dumps (data.py:822-827, 853-858).
- **Shared emails:** an email shared among several names is removed from neither email dict when both sources report the same shared emails.
  - When the sources differ, only the membership side's shared emails are removed.
  - The contacts side's are removed only if the membership side has none (data.py:673-693).
- **An applicant line with five meeting dates** whose last field is not `aw` is dropped silently (data.py:206-213), not listed among the bad lines.
- **The applicant's name** is the first field split into two words, giving `last, first` (data.py:185-192).
- **Missing groups:** `ck_data` raises `KeyError` when the contacts have no `applicant` or no `LIST` group (data.py:762-763 and 783).
- **The "No Problems" block** is appended through `add2problems`, so it needs a non-empty report.

## Model

| member | source | states |
|---|---|---|
| Contacts.GroupsOfRecord | data.py:72-78 | a record's groups are the contact's group membership split on ` ::: `, with only a trailing "* myContacts" dropped; joining the pieces back gives the field |
| Contacts.GetGmailRecord | data.py:67-96 | the record keeps the email; muttname is one longer than alias and gname two longer, the separators between the two names; every group is a piece of the membership field |
| Contacts.GnameOfPlainRow | data.py:79-89 | for a one-word given and family name, gname is "family, given", alias is given+family and muttname is "given family" |
| Contacts.StripOfTrailingSpace | data.py:79-86 | the space the source appends after each name part is stripped again |
| Contacts.RecordAt | data.py:151-152 | one record per contact row, in order, each as get_gmail_record makes it |
| Contacts.AddName | data.py:154-155 | setdefault(...).add files the name under the email and changes no other entry |
| Contacts.GatherContacts | data.py:139-162 | the four dicts returned equal the by-email, by-name, groups-by-name and by-group indexes of all records |
| Contacts.FileRecord | data.py:152-162 | filing one more record extends each index exactly as the reference indexes over one more record |
| Contacts.AddToGroups | data.py:160-162 | the name is added to the set of every group of the record, and no other group changes |
| Contacts.EmailIndexNonEmpty | data.py:154-155 | every email in g_by_email has at least one name |
| Contacts.EmailIndexExact | data.py:154-155 | name n is under email e exactly when some record has that email and that gname |
| Contacts.EmptyEmailsPooled | data.py:154-155 | contacts without an email are all pooled under the key "" |
| Contacts.GroupIndexExact | data.py:160-162 | n is in group k exactly when some record with gname n lists group k |
| Applicants.StripAll | data.py:180-181 | each field, in order, is stripped |
| Applicants.Fields | data.py:180-184 | splitting a line always gives at least one field, so the "not parts" branch is dead |
| Applicants.AppendTo | data.py:221-228 | setdefault(...).append adds the name at the end of its status list only |
| Applicants.Classify | data.py:179-228 | a bad line is recorded as the line itself or with an IndexError prefix; a listed status is "aw" or one of the stati; listed and expired names are "last, first" from a two-word first field |
| Applicants.ClassifyRest | data.py:193-228 | the line raises exactly when nothing, or only an empty field, follows the name; listed and expired entries carry the name; a listed status is "aw" or one of the stati |
| Applicants.OutcomeAt | data.py:179-228 | each line is classified on its own, by its own text |
| Applicants.GatherApplicants | data.py:173-236 | the loop returns what the reference gathering of the lines gives, error included |
| Applicants.ReadLine | data.py:180-228 | a line raises exactly when its classification raises, and otherwise updates the three collections as the reference does |
| Applicants.SortEach | data.py:229-230 | each status list is replaced by its sorted copy and the keys keep their order |
| Applicants.ScanErrIsIndexError | data.py:193-197 | the only exception the gathering raises is IndexError |
| Applicants.ScanFails | data.py:179-228 | the gathering fails exactly when some line raises |
| Applicants.ScanAccounts | data.py:179-228 | expired names, bad lines and status lists hold exactly what the lines contribute, each with its multiplicity |
| Applicants.GatheredSpec | data.py:165-236 | a status is a key exactly when some line has it; each list is sorted and holds every listed name as often as lines list it; the expired and bad lists are those of the lines |
| Applicants.NameKey | data.py:185-189 | "first last" in the first field is keyed as "last, first" |
| Applicants.NameAloneRaises | data.py:189-195 | a line holding only a name raises, because the field after it is indexed |
| Applicants.NameThenEmptyRaises | data.py:193-195 | a name followed by one empty field raises once the empty field is dropped |
| Applicants.OneWordIsBad | data.py:185-192 | a first field of one word makes the line a bad line |
| Applicants.TrailingEmptyDiscarded | data.py:193-194 | a trailing empty field does not change the outcome |
| Applicants.StatusByCount | data.py:195-220 | the outcome by field count: expired for "Application...", bad for fewer than two fields, "aw" or dropped for five dates, else the status at that index, or an IndexError bad line past the end |
| Applicants.StatusStable | data.py:198-220 | two lines with the same number of fields get the same status |
| Fees.SwitchCategory | data.py:278-282 | the category after a header line is the last category word in it, or the old one |
| Fees.LastCategoryIsNamed | data.py:276-285 | a header changes the current category only to one of Dock, Kayak and Mooring that occurs in it |
| Fees.AppendTo | data.py:294-297 | appending a charge adds it at the end of its key's list and adds a new key at the end |
| Fees.FeeLineAt | data.py:270-297 | each line is read on its own |
| Fees.GatherExtraFees | data.py:258-302 | the loop returns what the reference reading of the lines gives, error included |
| Fees.ReadLine | data.py:271-297 | a line raises exactly when reading it fails, with that error; otherwise the state is the reference state |
| Fees.RunStopsAtError | data.py:270-297 | the first line that raises decides the result; later lines are never read |
| Fees.RunOk | data.py:270-297 | the reading succeeds exactly when no line breaks |
| Fees.RunErr | data.py:270-297 | the error is that of the first broken line |
| Fees.RunFails | data.py:270-297 | the reading fails with e exactly when the first broken line fails with e |
| Fees.IndexesAgree | data.py:294-297 | a (category, fee) charge of a name occurs as often in by_name as (name, fee) occurs under that category in by_category |
| Fees.TotalsAgree | data.py:294-297 | both dicts hold one charge per fee line |
| Fees.CategoriesFirst | data.py:259-264 | the three categories come first among the keys of by_category, in their given order |
| Fees.EntryLine | data.py:286-296 | "first last:fee" is filed under "last, first" with that fee |
| Fees.NoColonRaises | data.py:287-289 | a fee line without a colon raises IndexError |
| Fees.BadAmountRaises | data.py:289 | an amount that int() rejects raises ValueError carrying that text |
| Strings.NoBreakSpaceStripped | data.py:271-290 | a no-break space is whitespace to strip() and split() |
| Strings.NoBreakSpaceAroundInt | data.py:289 | int() ignores a no-break space around the digits |
| Strings.SeparatorNotIntSpace | data.py:271-289 | a file separator (0x1C) is stripped by strip() but makes int() fail |
| Fees.JsonFeesByName | data.py:305-333 | same names in the same order, and each charge becomes "category amount" |
| Fees.ChargeTexts | data.py:322-325 | one text per charge, in order |
| Fees.NameLines | data.py:352-357 | one line per name: the name, ": ", and its charges joined by ", " |
| Fees.PresentFeesByName | data.py:336-359 | the header (none when raw) followed by a sorted permutation of the name lines |
| Fees.ColumnEntries | data.py:403-407 | Mooring entries show "name: $fee", the other categories only the name |
| Fees.Widest | data.py:401-409 | the width is at least the starting width and every line's length, and is attained by one of them |
| Fees.Columns | data.py:390-409 | one column per category, in order; fails with AssertionError exactly when a category is unknown |
| Fees.PadColumn | data.py:412-421 | every column gets n lines of the same width: entries left-justified, then blanks |
| Fees.PadAll | data.py:412-421 | each column is padded to its own width and the common height |
| Fees.Tallest | data.py:414-415 | the height is no smaller than any column |
| Fees.LayOutOfThree | data.py:410-426 | three columns give one line per row, the padded cells joined by single spaces, all of one width |
| Fees.ThreeColumns | data.py:390-409 | the three categories always lay out, each at least two lines tall |
| Fees.CategoryLayout | data.py:375-426 | present_fees_by_category is the layout of the Dock, Kayak and Mooring columns |
| Fees.SortedThree | data.py:379 | the three category names sort as Dock, Kayak, Mooring |
| Fees.UnknownCategoryFails | data.py:399-400 | any category other than the three, in any by-category dict, makes the presentation fail with AssertionError |
| Fees.PresentFeesByCategory | data.py:362-426 | the presentation fails with AssertionError exactly when some category is not one of the three; its only other failure is the IndexError of too few columns |
| Fees.ReadFeeLine | data.py:270-297 | a line is skipped exactly when it strips to nothing; a header's words are non-empty and hold no space; a line raises only IndexError, or ValueError for an amount int() rejects |
| Fees.SpaceAfterEntryLine | data.py:271-296 | a fee line followed by any whitespace that strip() removes, a no-break space included, is read as the same entry |
| FeeStatement.FeeValue | Formats/content.py:252-255 | an empty field is 0, a field int() accepts is its value, anything else is a ValueError carrying the field |
| FeeStatement.FeeValueBad | Formats/content.py:252-255 | a field fails exactly when it is non-empty and not an integer |
| FeeStatement.StatementOk | Formats/content.py:252-255 | fields that parse give their amounts |
| FeeStatement.Statement | Formats/content.py:242-271 | a failure is the ValueError of a fee field int() rejects; a statement with lines ends with a total line |
| FeeStatement.CustomEarlyAug2018 | Formats/content.py:242-271 | the loop returns what the reference statement gives, and appends to the log exactly what the reference log gets |
| FeeStatement.ScanStep | Formats/content.py:250-259 | each fee adds a line only when it is not zero, and is added to the total |
| FeeStatement.ScanFails | Formats/content.py:252-253 | a field that does not parse ends the statement with its error and logs nothing |
| FeeStatement.ScanDone | Formats/content.py:260-271 | a finished scan gives the bill, and logs it only when it has lines and the log is not empty |
| FeeStatement.ScanErrorStays | Formats/content.py:250-255 | once an error occurs, later fields do not change the result |
| FeeStatement.ScanErrors | Formats/content.py:250-255 | the scan fails exactly when some field fails, and then with the first failing field's error |
| FeeStatement.StatementErrors | Formats/content.py:250-255 | the statement fails exactly when some fee field is bad, with the error of the first one |
| FeeStatement.ScanContents | Formats/content.py:249-259 | the scan gives the nonzero fee lines and the sum of all fees |
| FeeStatement.NonzeroLinesEmpty | Formats/content.py:256-260 | there are no fee lines exactly when every fee is zero |
| FeeStatement.StatementContents | Formats/content.py:249-265 | the statement lists the nonzero fees, then the total of all four, and has fee lines exactly when some fee is nonzero |
| FeeStatement.TotalLast | Formats/content.py:258-265 | the total line comes last and is the only line starting "Total:" |
| FeeStatement.BillTotalLast | Formats/content.py:258-265 | any bill ends with its total line and has no other "Total:" line |
| FeeStatement.NonzeroLinesItem | Formats/content.py:256-259 | every fee line is the line of one of the items with its fee |
| FeeStatement.FeeLineHead | Formats/content.py:256-259 | a fee line starts with its item, never with "Total:" |
| FeeStatement.FeeLineAmount | Formats/content.py:256-259 | the amount can be read back from a fee line after ": $" |
| FeeStatement.TotalLineAmount | Formats/content.py:265 | the total can be read back from the total line after "$" |
| FeeStatement.LogGrowth | Formats/content.py:260-264 | the log only grows: by one entry, the statement without its total, exactly when the log was non-empty and the statement has lines |
| Letters.Expand | content.py:530-553 | a text with too many lines and a list longer than the window fail with AssertionError; otherwise the result is centred in the window, and a list padded by two or more lines is a new list, the caller's one left unchanged |
| Letters.ExpandedText | content.py:530-553 | a text expands exactly when it has at most nlines lines, and otherwise fails with AssertionError; a text of exactly nlines lines is unchanged |
| Letters.Pad | content.py:545-549 | the loop's result is the list centred in nlines lines |
| Letters.PaddedShape | content.py:545-549 | padding keeps the lines in order with blanks around them, at most one more blank after than before |
| Letters.TextLines | content.py:539-541 | a text has one line more than it has newlines, and no line holds a newline |
| Letters.ExpandedTextLines | content.py:538-553 | expanding a text fails exactly when it has nlines or more newlines; otherwise its lines are the text's lines centred |
| Letters.ExpandedTextExact | content.py:542-553 | a text that already fills the window is unchanged |
| Letters.GetPostscripts | content.py:555-564 | the loop's result is the marked post-scripts |
| Letters.PostScriptsMarked | content.py:559-564 | the i-th post-script starts on a new line, marked with i+1 P's and an S |
| Letters.PrinterNamed | content.py:501-527 | exactly the three known printers are found, and all share the same windows |
| Letters.AddressFormatLines | content.py:38-41 | the address template has its fixed lines |
| Letters.ReturnAddressLines | content.py:582-583 | the return address is the sender's address lines |
| Letters.LetterPiecesErrors | content.py:578-590 | the pieces fail exactly when the return address, date or subject overflows its window, with AssertionError |
| Letters.LetterFormat | content.py:566-602 | the letter is a KeyError exactly when the printer is unknown; for a known printer the only failure is AssertionError |
| Letters.LetterFormatErrors | content.py:566-602 | an unknown printer is a KeyError; otherwise the letter fails exactly when some window overflows |
| Letters.WindowLines | content.py:583-590 | a text that fits its window expands without error to its lines centred |
| Letters.LetterPiecesLines | content.py:579-601 | the pieces' lines are the top margin, the four centred windows and the tail |
| Letters.LetterLayout | content.py:566-602 | the letter's lines are the top blanks, the centred return address, date, recipient template and subject, then salutation, body, signature and post-scripts |
| Letters.HeaderText | content.py:43-47 | the email header has From, To, Subject and a blank line |
| Letters.PrepareEmail | content.py:604-613 | the email starts with "From: " and the sender's email |
| Letters.EmailLayout | content.py:604-613 | an email is its header lines followed by body, signature and post-scripts, starting with "From:" and the sender |
| PlusAddress.PseudoRecipient | Pymail/config.py:25-26 | the only failure is IndexError |
| PlusAddress.PseudoRecipientFails | Pymail/config.py:25-26 | it fails exactly when the email has no "@" |
| PlusAddress.PseudoRecipientOfAddress | Pymail/config.py:25-26 | local@domain becomes local+name@domain |
| PlusAddress.PseudoRecipientDropsRest | Pymail/config.py:25-26 | anything after a second "@" is dropped |
| PlusAddress.PseudoRecipientRoundTrip | Pymail/config.py:25-26 | the original address can be recovered from the plus address |
| Presentation.PresentExpired | data.py:429-443 | the names in their order, after a header and an equally long rule unless raw |
| Presentation.SortedKeys | data.py:459 | the dict's keys, each once, in sorted order |
| Presentation.PresentApplicants | data.py:446-467 | unless raw, the listing starts with its header and rule; each status contributes at least one line, two unless raw |
| Presentation.PresentApplicantsSection | data.py:446-467 | each status's section appears, in sorted status order, after the banner |
| Presentation.DataListed | data.py:891-908 | inline, one line per key; as blocks, at least two lines per key |
| Presentation.InlineListing | data.py:899-903 | inline, one line per key in sorted order: key, " :", and its sorted values |
| Presentation.BlockListing | data.py:899-907 | as blocks, each key in sorted order is followed by its underline and its sorted values |
| Presentation.DataListedOrderFree | data.py:891-908 | the listing depends only on the dict's contents, not on key order |
| Presentation.Compare | data.py:911-922 | the verdict line is good news exactly when the dicts are equal, followed by both listings |
| Presentation.CompareEqual | data.py:911-922 | equal dicts give good news and identical listings |
| Problems.Add2Problems | data.py:471-498 | the list becomes list, separator, header block and the new entries, and an empty list stays empty |
| Problems.WithProblemsLayout | data.py:487-498 | an empty list stays empty; otherwise the old list is kept as a prefix, followed by separator, header, underline as long as the header, and the news at the end |
| Problems.RemoveKeys | data.py:501-514 | the only exception is KeyError, for one of the keys to remove |
| Problems.RemoveUnwantedItems | data.py:501-514 | removal in place equals the reference removal, error included |
| Problems.RemoveIgnoring | data.py:507-512 | with ignore set, the keys are removed and nothing is raised |
| Problems.RemoveStrict | data.py:513-514 | with every key present, all are removed without error |
| Problems.RemoveMissing | data.py:513-514 | a missing key raises KeyError for one of the keys |
| Problems.FirstPartsOnly | data.py:517-518 | one part per item, each a prefix of its item holding no space |
| Problems.SharedEntryFirstPart | data.py:517-518 | first_parts_only gives back the email of a shared entry |
| Problems.ResolveStep | data.py:627-638 | an email without names is listed dangling, one with several is listed shared, and the keys are kept |
| Problems.ResolveKeepsKeys | data.py:626-638 | resolution keeps the dict's keys |
| Problems.ResolveEmails | data.py:623-638 | the in-place loop equals the reference resolution |
| Problems.ResolvedValue | data.py:632-633 | an email with exactly one name maps to that name; the others keep their set |
| Problems.ResolvedListed | data.py:628-638 | every nameless email is dangling and every email with several names is reported shared |
| Problems.ResolvedLists | data.py:628-638 | the dangling and shared lists are exactly the nameless and several-named emails, in dict order |
| Problems.SharedRemoval | data.py:682-684 | removing the shared emails succeeds and leaves exactly the others |
| Problems.DanglingRemoval | data.py:639-644 | removing the dangling emails succeeds and leaves exactly the others |
| Rbc.GoogleGroupsAsWrittenMisses | rbc.py:57-60 | as written the set lacks "applicant" and "DockUsers" and holds their concatenation |
| Rbc.GoogleGroupsHoldsTheGroupsInUse | rbc.py:57-60 | corrected, it holds the applicant, member, dock, kayak and mooring groups |
| Rbc.Step | rbc.py:119-133 | a line adds its amount to the total; a break line ends a nonzero subtotal; unreadable lines are collected |
| Rbc.TallyMatchesReference | rbc.py:126-134 | the total is the sum of all readable amounts, and the invalid lines are exactly the unreadable ones |
| Rbc.TallyBalances | rbc.py:122-133 | the emitted subtotals and the running one add up to the total, and none emitted is zero |
| Rbc.SubtotalsAddUp | rbc.py:136-138 | with the last subtotal the subtotals sum to the total, none zero |
| Rbc.FeeReport | rbc.py:98-142 | the report starts with its header and ends with the grand total line of the sum of all readable amounts |
| Rbc.FeeReportShape | rbc.py:108-140 | the report is the header, one line per nonzero subtotal and the grand total of all amounts |
| Rbc.ReportStep | rbc.py:122-125 | a break emits the subtotal line in order |
| Rbc.FinishReport | rbc.py:136-140 | the trailing subtotal and the grand total close the report |
| Rbc.Club.constructor | rbc.py:109 | a new club has no invalid lines |
| Rbc.Club.FeeTotals | rbc.py:98-142 | the report equals the reference report over the lines, and invalid_lines holds the unreadable lines |
| Rbc.Club.ReadLine | rbc.py:118-133 | one line of the loop advances the tally as the reference step |
| Reconcile.SettleEmails | data.py:623-644 | resolving and removing the dangling emails in place equals the reference settling |
| Reconcile.UnmatchedLines | data.py:721-727 | the loop lists exactly the descriptions of the reference unmatched emails |
| Reconcile.MemberApplicants | data.py:752-758 | the loop collects the reference set of names under statuses holding "a" |
| Reconcile.PopNonApplicant | data.py:785-789 | popping in place equals removing the non-applicant statuses, without error |
| Reconcile.PopIfNonApplicant | data.py:787-789 | one pop keeps the remaining removal the same |
| Reconcile.VaryingAmounts | data.py:840-848 | the loop gives one line per name whose charges differ |
| Reconcile.StatusSections | data.py:705-710 | the loop appends the reference status listing |
| Reconcile.Check.Malformed | data.py:616-620 | the phase equals its reference |
| Reconcile.Check.Emails | data.py:623-670 | the email phases equal their reference |
| Reconcile.Check.Shared | data.py:673-693 | the shared-email phase equals its reference |
| Reconcile.Check.Status | data.py:696-710 | the status phase equals its reference |
| Reconcile.Check.Coverage | data.py:715-741 | the coverage phase equals its reference |
| Reconcile.Check.Groups | data.py:752-793 | the groups phase equals its reference, error included |
| Reconcile.Check.Applicants | data.py:794-802 | the applicants phase equals its reference |
| Reconcile.Check.NonMembers | data.py:804-808 | the non-members phase equals its reference |
| Reconcile.Check.ByCategory | data.py:812-829 | the fees-by-category phase equals its reference |
| Reconcile.Check.ByName | data.py:832-860 | the fees-by-name phase equals its reference |
| Reconcile.Check.Close | data.py:862-873 | the closing equals its reference |
| Reconcile.Report | data.py:595-888 | the reference check raises only KeyError, and finishes only when the contacts have both the applicant and the member group |
| Reconcile.CkData | data.py:595-888 | ck_data leaves the dicts and returns the report, or the error, of the reference check |
| ReconcileFacts.SettleOutcome | data.py:626-644 | settling never raises, keeps exactly the emails with names, and gives each its settled value |
| ReconcileFacts.SettleReport | data.py:639-644 | the dangling emails are reported under their header, when there are any |
| ReconcileFacts.SettledSharedRemoval | data.py:678-684 | removal after settling leaves exactly the single-name emails, unchanged |
| ReconcileFacts.EmailPhasesOutcome | data.py:623-693 | the email phases never raise; each side keeps exactly its kept emails with their settled values, and the shared lists are the several-named emails |
| ReconcileFacts.SharedPhaseSides | data.py:673-693 | which side's shared emails are removed, and which header reports them, for each combination of the two lists |
| ReconcileFacts.SideOutcome | data.py:673-693 | after the shared step a side holds exactly its kept emails with settled values |
| ReconcileFacts.UnmatchedExactly | data.py:721-741 | the unmatched emails are exactly those of one dict missing from the other |
| ReconcileFacts.CoverageOutcome | data.py:715-741 | none missing is recorded exactly when every member email is a contact; there are no non-members exactly when every contact email is a member's |
| ReconcileFacts.ApplicantNamesExactly | data.py:752-758 | the member applicants are exactly the names under statuses holding "a" |
| ReconcileFacts.NonApplicantExactly | data.py:785-789 | the statuses popped are exactly those without "a", each once |
| ReconcileFacts.GroupsOutcome | data.py:752-793 | KeyError for a missing applicant or member group; otherwise only statuses holding "a" remain, and the groups match exactly when the applicant group is the member applicants |
| ReconcileFacts.ApplicantsOutcome | data.py:794-802 | no applicant problem is recorded exactly when the gathered applicants equal the by-status dict; otherwise the report grows by the comparison |
| ReconcileFacts.NonMembersOutcome | data.py:804-808 | no non-members is recorded exactly when there are none; otherwise they close the report under their header |
| ReconcileFacts.DifferingExactly | data.py:840-848 | the differing names are exactly those whose charges differ |
| ReconcileFacts.DifferingSorted | data.py:840-848 | the differing names come out sorted |
| ReconcileFacts.FeesByCategoryOutcome | data.py:812-829 | no category problem exactly when the two dicts are equal; same keys with different values gives the notice; different keys dumps both |
| ReconcileFacts.FeesByNameOutcome | data.py:832-860 | the same outcomes by name, and with details the varying lines are for exactly the differing names, sorted |
| ReconcileFacts.MalformedOutcome | data.py:595-620 | no malformed records is recorded exactly when there are none; a raw or form-fed report starts empty |
| ReconcileFacts.StatusListingLayout | data.py:705-710 | the status listing keeps the report as prefix and adds nothing to an empty report |
| ReconcileFacts.StatusOutcome | data.py:696-710 | the status phase changes only the report, only with the option, and only by growing it |
| ReconcileFacts.ClosingOutcome | data.py:862-864 | without notice or disparities the ok list follows the report under its header, and an empty report stays empty |
| ReconcileFacts.ReportOutcome | data.py:595-888 | given the gathered inputs and email dicts whose emails hold no space: ck_data raises only for a missing group; every email left holds its settled value; every single-name email stays; only statuses holding "a" remain |
| ReconcileFacts.SpacedSharedEmailRaises | data.py:682-691 | a shared email holding a space is cut at the space by first_parts_only (data.py:517-518), so the key removed is not the email, and a part that is no key raises KeyError |
| ReconcileFacts.ListingOutcome | data.py:696-793 | the listing phases change no email dict and raise only for a missing group |
| ReconcileFacts.FinalKeepsDicts | data.py:794-873 | the final phases change no dict |
| Sorting.Sort | data.py:229-230 | sorted() gives a sorted permutation of its input |
| Sorting.SortedUnique | data.py:229-230 | there is only one sorted permutation, so results do not depend on the algorithm |
| Sorting.SortedSet | data.py:771-776 | sorted() of a set lists exactly its elements, in order |
| Sorting.SortedSetDistinct | data.py:771-776 | sorted() of a set has no repeats |

## Left out

- File and terminal I/O: the input files, the contacts CSV, `print` calls and the JSON dump are not modelled. Lines, rows and records are passed in as values, and results are returned.
- gather_membership_data: member.py is not part of this model. The membership dicts (`ms_by_email`, `ms_by_status`) are parameters of `CkData`.
  - Their email values are taken as name sets.
  - The status values are taken as lists.
- helpers.show_dict, helpers.add_header2list and `repr` of a dict: helpers.py is not part of this model. They are function parameters (`Reconcile.Helpers`), so the report's contents are stated relative to what they return.
- get_datestamp reads the clock and is a parameter of `Letters.LetterFormat`.
- Named-field templating (`str.format` with the record's fields) is not modelled. The recipient address template stays literal; the layout lemmas state where it goes.
- Strings.ParseInt (and through it Fees.ReadFeeLine, Fees.BadAmountRaises and FeeStatement.FeeValue): an optional sign, surrounding whitespace and ASCII decimal digits. int() also accepts underscores between digits and non-ASCII decimal digits; the model rejects them.
- Reconcile.CkData and Reconcile.Report take the gathered data as inputs (`Gathered`). The IndexError and ValueError that ck_data's own calls of gather_extra_fees_data and gather_applicant_data can raise (data.py:609-611) are those of `Fees.GatheredFees` and `Applicants.Gathered`, but they do not appear in `Report`.
- ReconcileFacts.ReportOutcome assumes the email dicts hold no email with a space. For such an email, first_parts_only cuts off the part before the space (ReconcileFacts.SpacedSharedEmailRaises), and the strict removal can raise KeyError (data.py:682-691).
- Letters.PrinterNamed: the printers' indent and width entries are carried but do not affect the layout, as in the source.
- include_dates of gather_applicant_data (a repr of each line's date fields) is not modelled.
- ck_applicants is not modelled: nothing in the core calls it.
- Sorting.Sort is specified as the unique sorted permutation. Python's stable sort on strings gives exactly that list.
- Contacts.GatherContacts: the iteration order of Python sets (the key order of g_by_group) is unspecified. Only the mapping is stated.
- Rbc constants other than the separator, keys, groups and fees are file names and have no behaviour here. RECEIPTS_FILE and this_year are not modelled.
- Reconcile.Closing: with a notice or fee disparities, the result is stated only in terms of what add_header2list returns, which is a parameter.

## Findings

| source | as written | input that shows it | evidently intended | confidence | as-written member | corrected member |
|---|---|---|---|---|---|---|
| rbc.py:57 | `"applicant," "DockUsers"` is one string because of implicit concatenation, so GOOGLE_GROUPS has the entry "applicant,DockUsers" | membership test of "applicant" or "DockUsers" in GOOGLE_GROUPS is false | two entries "applicant" and "DockUsers", the groups named by APPLICANT_GROUP and DOCK | not executed | Rbc.GoogleGroupsAsWrittenMisses | Rbc.GoogleGroupsHoldsTheGroupsInUse |
