/**
 The contact schema: its fields, the setters applied when a field is
 assigned (trim, lowercase), the validators run before a save (required,
 the phone and email patterns, the type enum) and the unique indexes on
 phone and email.
 */
module ContactModel {
  import opened Js
  import opened Ids

  datatype ContactType = Customer | Vendor

  function TypeName(t: ContactType): string {
    match t
    case Customer => "customer"
    case Vendor => "vendor"
  }

  /** The `enum: ["customer", "vendor"]` constraint on the `type` field. */
  function ParseType(s: string): (r: Option<ContactType>)
    ensures r.Some? ==> TypeName(r.value) == s
    ensures r.None? ==> s != TypeName(Customer) && s != TypeName(Vendor)
  {
    if s == "customer" then Some(Customer)
    else if s == "vendor" then Some(Vendor)
    else None
  }

  /** Every type name parses back to its type. */
  lemma ParseTypeName(t: ContactType)
    ensures ParseType(TypeName(t)) == Some(t)
  {
  }

  /** A stored contact. */
  datatype Contact = Contact(
    name: string,
    phone: string,
    email: string,
    address: string,
    ctype: ContactType,
    businessId: BusinessId)

  /** The contact collection, keyed by document id. */
  type ContactStore = map<ContactId, Contact>

  /** A contact document as assigned, before validation: `type` is still the
      string the caller sent. */
  datatype ContactDraft = ContactDraft(
    name: string,
    phone: string,
    email: string,
    address: string,
    ctype: string,
    businessId: BusinessId)

  function DraftOf(c: Contact): ContactDraft {
    ContactDraft(c.name, c.phone, c.email, c.address, TypeName(c.ctype), c.businessId)
  }

  /** The setters: name, phone and address are trimmed, email is trimmed and
      lower-cased; they run on every assignment, before validation. Type and
      owner pass through untouched. */
  function Normalize(d: ContactDraft): (r: ContactDraft)
    ensures Trimmed(r.name) && Trimmed(r.phone) && Trimmed(r.address)
    ensures Trimmed(r.email) && NoUpper(r.email)
    ensures r.ctype == d.ctype && r.businessId == d.businessId
    ensures r.name == Trim(d.name) && r.phone == Trim(d.phone) && r.address == Trim(d.address)
    ensures r.email == Lower(Trim(d.email))
  {
    var e := Trim(d.email);
    LowerKeepsTrimmed(e);
    d.(name := Trim(d.name), phone := Trim(d.phone),
       email := Lower(e), address := Trim(d.address))
  }

  predicate IsDigit(c: char) {
    '0' <= c <= '9'
  }

  /** The pattern `^\d{10}$`. */
  predicate IsPhone(p: string) {
    |p| == 10 && forall i :: 0 <= i < |p| ==> IsDigit(p[i])
  }

  /** One character of the class `[^\s@]`. */
  predicate EmailChar(c: char) {
    !IsSpace(c) && c != '@'
  }

  predicate EmailChars(s: string) {
    forall i :: 0 <= i < |s| ==> EmailChar(s[i])
  }

  /** The pattern `^[^\s@]+@[^\s@]+\.[^\s@]+$`, read as regular-expression
      semantics: some split of the string into the three runs and the two
      separators. */
  ghost predicate EmailPattern(s: string) {
    exists i, k :: 0 < i && i + 1 < k && k + 1 < |s|
      && s[i] == '@' && s[k] == '.'
      && EmailChars(s[..i]) && EmailChars(s[i + 1..k]) && EmailChars(s[k + 1..])
  }

  /** The first position of `c` in `s`. */
  function IndexOf(s: string, c: char): (r: Option<nat>)
    ensures r.None? <==> c !in s
    ensures r.Some? ==> r.value < |s| && s[r.value] == c && c !in s[..r.value]
  {
    if |s| == 0 then None
    else if s[0] == c then Some(0)
    else
      match IndexOf(s[1..], c)
      case None => None
      case Some(i) =>
        assert s[..i + 1] == [s[0]] + s[1..][..i];
        Some(i + 1)
  }

  /** A direct check of the email pattern: no white space, exactly one `@`
      with something before it, and a dot after the `@` that is neither the
      first character of the domain nor the last. */
  predicate IsEmail(s: string) {
    && (forall i :: 0 <= i < |s| ==> !IsSpace(s[i]))
    && match IndexOf(s, '@')
       case None => false
       case Some(i) =>
         0 < i && i + 2 <= |s| - 1 && '@' !in s[i + 1..] && '.' in s[i + 2..|s| - 1]
  }

  /** The direct check accepts exactly the strings the pattern matches. */
  lemma IsEmailMatchesPattern(s: string)
    ensures IsEmail(s) <==> EmailPattern(s)
  {
    if IsEmail(s) {
      IsEmailHasPattern(s);
    }
    if EmailPattern(s) {
      PatternIsEmail(s);
    }
  }

  lemma IsEmailHasPattern(s: string)
    requires IsEmail(s)
    ensures EmailPattern(s)
  {
    var i := IndexOf(s, '@').value;
    var dots := s[i + 2..|s| - 1];
    assert '.' in dots;
    var m :| 0 <= m < |dots| && dots[m] == '.';
    var k := i + 2 + m;
    assert s[k] == dots[m];
    forall j | 0 <= j < |s| && j != i
      ensures EmailChar(s[j])
    {
      assert !IsSpace(s[j]);
      if j < i {
        assert s[..i][j] == s[j];
        assert s[j] in s[..i];
      } else {
        assert s[i + 1..][j - i - 1] == s[j];
        assert s[j] in s[i + 1..];
      }
    }
    var local, domain, top := s[..i], s[i + 1..k], s[k + 1..];
    assert EmailChars(local) by {
      forall j | 0 <= j < |local| ensures EmailChar(local[j]) {
        assert local[j] == s[j];
      }
    }
    assert EmailChars(domain) by {
      forall j | 0 <= j < |domain| ensures EmailChar(domain[j]) {
        assert domain[j] == s[i + 1 + j];
      }
    }
    assert EmailChars(top) by {
      forall j | 0 <= j < |top| ensures EmailChar(top[j]) {
        assert top[j] == s[k + 1 + j];
      }
    }
  }

  lemma PatternIsEmail(s: string)
    requires EmailPattern(s)
    ensures IsEmail(s)
  {
    var i, k :| 0 < i && i + 1 < k && k + 1 < |s|
      && s[i] == '@' && s[k] == '.'
      && EmailChars(s[..i]) && EmailChars(s[i + 1..k]) && EmailChars(s[k + 1..]);
    SplitChars(s, i, k);
    assert forall j :: 0 <= j < |s| ==> !IsSpace(s[j]);
    var before, after := s[..i], s[i + 1..];
    assert '@' !in before by {
      forall j | 0 <= j < |before| ensures before[j] != '@' {
        assert before[j] == s[j];
      }
    }
    assert IndexOf(s, '@') == Some(i);
    assert '@' !in after by {
      forall j | 0 <= j < |after| ensures after[j] != '@' {
        assert after[j] == s[i + 1 + j];
      }
    }
    assert s[i + 2..|s| - 1][k - i - 2] == '.';
  }

  /** Around an `@` at `i` and a `.` at `k`, three runs of `[^\s@]` make
      every other character one of `[^\s@]`. */
  lemma SplitChars(s: string, i: nat, k: nat)
    requires i < k < |s| && s[k] == '.'
    requires EmailChars(s[..i]) && EmailChars(s[i + 1..k]) && EmailChars(s[k + 1..])
    ensures forall j :: 0 <= j < |s| && j != i ==> EmailChar(s[j])
  {
    forall j | 0 <= j < |s| && j != i
      ensures EmailChar(s[j])
    {
      if j < i {
        assert s[j] == s[..i][j];
      } else if j < k {
        assert s[j] == s[i + 1..k][j - i - 1];
      } else if j > k {
        assert s[j] == s[k + 1..][j - k - 1];
      }
    }
  }

  /** The fields a validation error can name. */
  datatype Field = Name | Phone | Email | Address | Type

  /** The validators, applied to a draft whose setters have already run:
      `required` rejects the empty string, and `match` is skipped for it, so
      an empty email passes while an empty phone fails. */
  function FieldErrors(d: ContactDraft): set<Field> {
    (if d.name == "" then {Name} else {})
    + (if !IsPhone(d.phone) then {Phone} else {})
    + (if d.email != "" && !IsEmail(d.email) then {Email} else {})
    + (if d.address == "" then {Address} else {})
    + (if ParseType(d.ctype).None? then {Type} else {})
  }

  /** A contact every validator accepts. */
  ghost predicate Valid(c: Contact) {
    && c.name != ""
    && IsPhone(c.phone)
    && (c.email == "" || EmailPattern(c.email))
    && c.address != ""
  }

  /** A contact the setters leave as it is. */
  predicate Normalized(c: Contact) {
    && Trimmed(c.name)
    && Trimmed(c.phone)
    && Trimmed(c.email) && NoUpper(c.email)
    && Trimmed(c.address)
  }

  datatype Checked = Accepted(contact: Contact) | Rejected(errors: set<Field>)

  /** Schema validation of a draft: it is accepted exactly when no validator
      fails, and then becomes a valid contact with the same fields. */
  function Validate(d: ContactDraft): (r: Checked)
    ensures r.Rejected? ==> r.errors != {}
    ensures r.Rejected? ==> (Name in r.errors <==> d.name == "")
    ensures r.Rejected? ==> (Phone in r.errors <==> !IsPhone(d.phone))
    ensures r.Rejected? ==> (Email in r.errors <==> d.email != "" && !EmailPattern(d.email))
    ensures r.Rejected? ==> (Address in r.errors <==> d.address == "")
    ensures r.Rejected? ==> (Type in r.errors <==> d.ctype !in {"customer", "vendor"})
    ensures r.Accepted? ==> Valid(r.contact) && DraftOf(r.contact) == d
  {
    IsEmailMatchesPattern(d.email);
    var errs := FieldErrors(d);
    if errs == {} then
      Accepted(Contact(d.name, d.phone, d.email, d.address, ParseType(d.ctype).value, d.businessId))
    else
      Rejected(errs)
  }

  /** A valid contact passes validation unchanged. */
  lemma ValidateValid(c: Contact)
    requires Valid(c)
    ensures Validate(DraftOf(c)) == Accepted(c)
  {
    IsEmailMatchesPattern(c.email);
    ParseTypeName(c.ctype);
    assert FieldErrors(DraftOf(c)) == {};
  }

  /** Whatever the setters produce, they leave alone on a second pass. */
  lemma NormalizeIdempotent(d: ContactDraft)
    ensures Normalize(Normalize(d)) == Normalize(d)
  {
    TrimIdempotent(d.name);
    TrimIdempotent(d.phone);
    TrimIdempotent(d.address);
    TrimIdempotent(d.email);
    TrimLowerCommute(Trim(d.email));
    LowerIdempotent(Trim(d.email));
  }

  /** A contact built by the setters is normalized. */
  lemma NormalizedAccepted(d: ContactDraft)
    requires Validate(Normalize(d)).Accepted?
    ensures Normalized(Validate(Normalize(d)).contact)
  {
    var c := Validate(Normalize(d)).contact;
    var n := Normalize(d);
    assert DraftOf(c) == n;
    assert c.name == n.name && c.phone == n.phone && c.email == n.email && c.address == n.address;
  }

  /** The setters do not change a normalized contact. */
  lemma NormalizeStored(c: Contact)
    requires Normalized(c)
    ensures Normalize(DraftOf(c)) == DraftOf(c)
  {
    TrimFixesTrimmed(c.name);
    TrimFixesTrimmed(c.phone);
    TrimFixesTrimmed(c.email);
    TrimFixesTrimmed(c.address);
    LowerFixesNoUpper(c.email);
    var n := Normalize(DraftOf(c));
    assert n.name == c.name && n.phone == c.phone && n.email == c.email && n.address == c.address;
  }

  /** The unique indexes on phone and email: would a contact with this phone
      and email collide with a stored contact other than the one with id
      `self`? The indexes span every business. */
  predicate Clashes(store: ContactStore, self: ContactId, phone: string, email: string) {
    exists id :: id in store && id != self && (store[id].phone == phone || store[id].email == email)
  }

  ghost predicate UniqueKeys(store: ContactStore) {
    forall a, b :: a in store && b in store && a != b ==>
      store[a].phone != store[b].phone && store[a].email != store[b].email
  }

  /** In a collection with unique keys, no stored contact clashes with the others. */
  lemma UniqueNoClash(store: ContactStore, id: ContactId)
    requires UniqueKeys(store)
    requires id in store
    ensures !Clashes(store, id, store[id].phone, store[id].email)
  {
    forall x | x in store && x != id
      ensures store[x].phone != store[id].phone && store[x].email != store[id].email
    {
    }
  }

  /** What every save leaves true of the collection. */
  ghost predicate WellFormed(store: ContactStore) {
    && (forall id :: id in store ==> Valid(store[id]) && Normalized(store[id]))
    && UniqueKeys(store)
  }

  /** Keeping some of the contacts, unchanged, keeps the collection well formed. */
  lemma WellFormedSubset(store: ContactStore, sub: ContactStore)
    requires WellFormed(store)
    requires forall id :: id in sub ==> id in store && sub[id] == store[id]
    ensures WellFormed(sub)
  {
    forall a, b | a in sub && b in sub && a != b
      ensures sub[a].phone != sub[b].phone && sub[a].email != sub[b].email
    {
      assert sub[a] == store[a] && sub[b] == store[b];
    }
  }

  /** Writing a valid, normalized contact that clashes with no other contact
      keeps the collection well formed. */
  lemma WellFormedWrite(store: ContactStore, id: ContactId, c: Contact)
    requires WellFormed(store)
    requires Valid(c) && Normalized(c)
    requires !Clashes(store, id, c.phone, c.email)
    ensures WellFormed(store[id := c])
  {
    var s := store[id := c];
    forall a | a in s ensures Valid(s[a]) && Normalized(s[a]) {
      if a != id {
        assert s[a] == store[a];
      }
    }
    forall a, b | a in s && b in s && a != b
      ensures s[a].phone != s[b].phone && s[a].email != s[b].email
    {
      if a == id {
        assert b in store && b != id;
      } else if b == id {
        assert a in store && a != id;
      } else {
        assert s[a] == store[a] && s[b] == store[b];
      }
    }
  }
}
