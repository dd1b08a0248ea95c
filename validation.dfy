/** validateForm (js/app.js:531-589): the decision over the trimmed name,
    email and phone of the contact form. The three fields are checked one
    after the other with no early return, so every field's error is
    decided, and shown, whatever the other fields hold. */
module Validation {
  import opened Text
  import opened Seqs
  import opened Contacts

  /** One run of the class [^\s@]: no white space and no '@'. */
  predicate Plain(s: string) {
    forall k :: 0 <= k < |s| ==> s[k] != '@' && !IsSpace(s[k])
  }

  /** The test of /^[^\s@]+@[^\s@]+\.[^\s@]+$/: a non-empty plain run, '@',
      a non-empty plain run, '.', a non-empty plain run. The runs may hold
      dots, so this is the simplified local@domain.tld shape, not RFC 5322. */
  predicate EmailShape(s: string) {
    exists i, j | 0 < i < |s| && i + 1 < j < |s| - 1 ::
      s[i] == '@' && s[j] == '.' && Plain(s[..i]) && Plain(s[i + 1..j]) && Plain(s[j + 1..])
  }

  /** Another contact (one whose id is not currentId) has this email,
      compared after lower-casing both. */
  predicate EmailInUse(contacts: seq<Contact>, email: string, currentId: Option<Id>) {
    exists c :: c in contacts && Lower(c.email) == Lower(email) && Some(c.id) != currentId
  }

  /** Another contact has exactly this phone. */
  predicate PhoneInUse(contacts: seq<Contact>, phone: string, currentId: Option<Id>) {
    exists c :: c in contacts && c.phone == phone && Some(c.id) != currentId
  }

  /** The message the email field shows, if any. */
  datatype EmailVerdict = EmailOk | EmailMissing | EmailMalformed | EmailDuplicate

  /** The error state of the three fields after validation. */
  datatype Verdict = Verdict(nameMissing: bool, email: EmailVerdict, phoneDuplicate: bool) {
    predicate Passes() {
      !nameMissing && email == EmailOk && !phoneDuplicate
    }
  }

  /** The errors validateForm shows for the raw field values. */
  function Check(nameIn: string, emailIn: string, phoneIn: string,
                 contacts: seq<Contact>, currentId: Option<Id>): Verdict {
    var name, email, phone := Trim(nameIn), Trim(emailIn), Trim(phoneIn);
    Verdict(
      name == "",
      if email == "" then EmailMissing
      else if !EmailShape(email) then EmailMalformed
      else if EmailInUse(contacts, email, currentId) then EmailDuplicate
      else EmailOk,
      phone != "" && PhoneInUse(contacts, phone, currentId))
  }

  /** validateForm as the code runs it: isValid starts true and each failed
      check clears it. */
  method ValidateForm(nameIn: string, emailIn: string, phoneIn: string,
                      contacts: seq<Contact>, currentId: Option<Id>)
    returns (isValid: bool, verdict: Verdict)
    ensures verdict == Check(nameIn, emailIn, phoneIn, contacts, currentId)
    ensures isValid <==> verdict.Passes()
  {
    isValid := true;
    var name := Trim(nameIn);
    var email := Trim(emailIn);
    var phone := Trim(phoneIn);

    var nameMissing := false;
    if name == "" {
      nameMissing := true;
      isValid := false;
    }

    var emailVerdict := EmailOk;
    if email == "" {
      emailVerdict := EmailMissing;
      isValid := false;
    } else if !EmailShape(email) {
      emailVerdict := EmailMalformed;
      isValid := false;
    } else {
      if EmailInUse(contacts, email, currentId) {
        emailVerdict := EmailDuplicate;
        isValid := false;
      }
    }

    var phoneDuplicate := false;
    if phone != "" {
      if PhoneInUse(contacts, phone, currentId) {
        phoneDuplicate := true;
        isValid := false;
      }
    }

    verdict := Verdict(nameMissing, emailVerdict, phoneDuplicate);
  }

  /** The form is rejected exactly when the name is blank, the email is
      blank, malformed or another contact's, or the phone is another
      contact's. */
  lemma RejectedIff(nameIn: string, emailIn: string, phoneIn: string,
                    contacts: seq<Contact>, currentId: Option<Id>)
    ensures var email, phone := Trim(emailIn), Trim(phoneIn);
      !Check(nameIn, emailIn, phoneIn, contacts, currentId).Passes() <==>
        || AllSpace(nameIn)
        || email == ""
        || !EmailShape(email)
        || EmailInUse(contacts, email, currentId)
        || (phone != "" && PhoneInUse(contacts, phone, currentId))
  {
  }

  /** No short-circuit: each field's verdict depends on that field alone,
      so all errors are reported together. */
  lemma FieldsIndependent(nameIn: string, emailIn: string, phoneIn: string,
                          nameIn': string, emailIn': string, phoneIn': string,
                          contacts: seq<Contact>, currentId: Option<Id>)
    ensures Check(nameIn, emailIn, phoneIn, contacts, currentId).nameMissing
         == Check(nameIn, emailIn', phoneIn', contacts, currentId).nameMissing
    ensures Check(nameIn, emailIn, phoneIn, contacts, currentId).email
         == Check(nameIn', emailIn, phoneIn', contacts, currentId).email
    ensures Check(nameIn, emailIn, phoneIn, contacts, currentId).phoneDuplicate
         == Check(nameIn', emailIn', phoneIn, contacts, currentId).phoneDuplicate
  {
  }

  /** The uniqueness lookup runs only for a well-shaped email: a malformed
      email is reported as malformed even when another contact has it. */
  lemma DuplicateOnlyWhenShaped(nameIn: string, emailIn: string, phoneIn: string,
                                contacts: seq<Contact>, currentId: Option<Id>)
    ensures var v := Check(nameIn, emailIn, phoneIn, contacts, currentId);
      && (v.email == EmailDuplicate ==> EmailShape(Trim(emailIn)))
      && (Trim(emailIn) != "" && !EmailShape(Trim(emailIn)) ==> v.email == EmailMalformed)
  {
  }

  /** A new contact whose email matches a stored one up to case is rejected. */
  lemma CreateWithTakenEmailRejected(nameIn: string, emailIn: string, phoneIn: string,
                                     contacts: seq<Contact>, c: Contact)
    requires c in contacts && Lower(c.email) == Lower(Trim(emailIn)) && EmailShape(Trim(emailIn))
    ensures Check(nameIn, emailIn, phoneIn, contacts, None).email == EmailDuplicate
    ensures !Check(nameIn, emailIn, phoneIn, contacts, None).Passes()
  {
  }

  function WithoutId(contacts: seq<Contact>, id: Id): seq<Contact> {
    Filter((c: Contact) => c.id != id, contacts)
  }

  /** The contact being edited never counts as a duplicate: validating
      against the list without it gives the same verdict. */
  lemma OwnRecordIgnored(nameIn: string, emailIn: string, phoneIn: string,
                         contacts: seq<Contact>, id: Id)
    ensures Check(nameIn, emailIn, phoneIn, contacts, Some(id))
         == Check(nameIn, emailIn, phoneIn, WithoutId(contacts, id), Some(id))
  {
    var others := WithoutId(contacts, id);
    FilterMembers((c: Contact) => c.id != id, contacts);
    var email, phone := Trim(emailIn), Trim(phoneIn);
    if EmailInUse(contacts, email, Some(id)) {
      var c :| c in contacts && Lower(c.email) == Lower(email) && Some(c.id) != Some(id);
      assert c in others;
    }
    if PhoneInUse(contacts, phone, Some(id)) {
      var c :| c in contacts && c.phone == phone && Some(c.id) != Some(id);
      assert c in others;
    }
  }

  /** What the store keeps unique: emails up to case, and non-empty phones. */
  ghost predicate UniqueKeys(contacts: seq<Contact>) {
    forall c, d :: c in contacts && d in contacts ==>
      && (Lower(c.email) == Lower(d.email) ==> c.id == d.id)
      && (c.phone != "" && c.phone == d.phone ==> c.id == d.id)
  }

  /** Saving a stored contact unchanged is never rejected as a duplicate of
      itself: with trimmed stored fields it passes exactly when its name is
      not blank and its email has the required shape. */
  lemma UnchangedEditPasses(contacts: seq<Contact>, c: Contact)
    requires UniqueKeys(contacts) && c in contacts
    requires Trim(c.email) == c.email && Trim(c.phone) == c.phone
    ensures Check(c.name, c.email, c.phone, contacts, Some(c.id)).Passes()
        <==> !AllSpace(c.name) && c.email != "" && EmailShape(c.email)
  {
    assert !EmailInUse(contacts, c.email, Some(c.id));
  }

  /** Any three non-empty plain runs joined by '@' and '.' have the shape. */
  lemma ShapeOf(local: string, domain: string, tld: string)
    requires local != "" && domain != "" && tld != ""
    requires Plain(local) && Plain(domain) && Plain(tld)
    ensures EmailShape(local + "@" + domain + "." + tld)
  {
    var s := local + "@" + domain + "." + tld;
    var i, j := |local|, |local| + 1 + |domain|;
    assert s[..i] == local;
    assert s[i + 1..j] == domain;
    assert s[j + 1..] == tld;
    assert s[i] == '@' && s[j] == '.';
  }

  /** A run of lower-case letters and dots is plain. */
  lemma PlainLetters(w: string)
    requires forall k :: 0 <= k < |w| ==> 'a' <= w[k] <= 'z' || w[k] == '.'
    ensures Plain(w)
  {
  }

  /** The shape check accepts an ordinary address. */
  lemma EmailShapeAcceptsOrdinary()
    ensures EmailShape("somchai@example.co.th")
  {
    assert "somchai" + "@" + "example" + "." + "co.th" == "somchai@example.co.th";
    PlainLetters("somchai");
    PlainLetters("example");
    PlainLetters("co.th");
    ShapeOf("somchai", "example", "co.th");
  }

  /** It also accepts a domain made only of dots, which RFC 5322 would
      refuse. */
  lemma EmailShapeAcceptsDots()
    ensures EmailShape("a@..c")
  {
    assert "a" + "@" + "." + "." + "c" == "a@..c";
    PlainLetters("a");
    PlainLetters(".");
    PlainLetters("c");
    ShapeOf("a", ".", "c");
  }

  /** The shape check refuses no '@', two '@', a blank, an empty local part
      and a missing dot after the '@'. */
  lemma EmailShapeRejects()
    ensures !EmailShape("a@b")
    ensures !EmailShape("a@b@c.d")
    ensures !EmailShape("a b@c.d")
    ensures !EmailShape("@b.c")
    ensures !EmailShape("a.b")
  {
    var u := "a@b@c.d";
    assert !EmailShape(u) by {
      forall i, j | 0 < i < |u| && i + 1 < j < |u| - 1 && u[i] == '@' && u[j] == '.'
        ensures !(Plain(u[..i]) && Plain(u[i + 1..j]))
      {
        if i == 1 { assert u[i + 1..j][1] == '@'; } else { assert u[..i][1] == '@'; }
      }
    }
    var v := "a b@c.d";
    assert !EmailShape(v) by {
      forall i | 0 < i < |v| && v[i] == '@' ensures !Plain(v[..i]) {
        assert v[..i][1] == ' ';
      }
    }
  }
}
