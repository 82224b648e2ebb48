/** Gmail plus-addressing (pseudo_recipient): local+tag@domain reaches the
    inbox of local@domain, so one inbox can stand in for several recipients. */
module PlusAddress {
  import opened Base
  import opened Strings

  /** pseudo_recipient: the tag goes after the part before the first '@',
      followed by the part between the first '@' and the next one (or the
      end); without an '@' the second part is missing and indexing fails. */
  function PseudoRecipient(plusName: string, email: string): (r: Result<string>)
    ensures r.Err? ==> r == Err(IndexError)
  {
    var parts := SplitOn(email, "@");
    if |parts| < 2 then Err(IndexError)
    else Ok(parts[0] + "+" + plusName + "@" + parts[1])
  }

  /** It fails exactly when the address holds no '@'. */
  lemma PseudoRecipientFails(plusName: string, email: string)
    ensures PseudoRecipient(plusName, email).Err? <==> '@' !in email
  {
    SplitCharCount(email, '@');
    assert '@' in email <==> multiset(email)['@'] > 0;
  }

  /** An ordinary address local@domain becomes local+tag@domain. */
  lemma PseudoRecipientOfAddress(plusName: string, local: string, domain: string)
    requires '@' !in local && '@' !in domain
    ensures PseudoRecipient(plusName, local + "@" + domain) == Ok(local + "+" + plusName + "@" + domain)
  {
    SplitCharConcat(local, '@', domain);
    SplitCharAbsent(domain, '@');
  }

  /** With more than one '@', everything from the second one on is dropped. */
  lemma PseudoRecipientDropsRest(plusName: string, a: string, b: string, c: string)
    requires '@' !in a && '@' !in b
    ensures PseudoRecipient(plusName, a + "@" + b + "@" + c) == Ok(a + "+" + plusName + "@" + b)
  {
    SplitCharConcat(a, '@', b + "@" + c);
    SplitCharConcat(b, '@', c);
    assert a + "@" + b + "@" + c == a + "@" + (b + "@" + c);
  }

  /** For a tag without '@' the result is again an ordinary address, on the
      same domain, whose local part is the original one, '+' and the tag:
      taking the tag back off gives the original address. */
  lemma PseudoRecipientRoundTrip(plusName: string, local: string, domain: string)
    requires '@' !in local && '@' !in domain && '@' !in plusName
    ensures var r := PseudoRecipient(plusName, local + "@" + domain);
            && r.Ok?
            && SplitOn(r.value, "@") == [local + "+" + plusName, domain]
            && SplitOn(r.value, "@")[0][..|local|] + "@" + SplitOn(r.value, "@")[1] == local + "@" + domain
  {
    PseudoRecipientOfAddress(plusName, local, domain);
    var tagged := local + "+" + plusName;
    assert '@' !in tagged;
    assert local + "+" + plusName + "@" + domain == tagged + "@" + domain;
    SplitCharConcat(tagged, '@', domain);
    SplitCharAbsent(domain, '@');
    assert tagged[..|local|] == local;
  }
}
