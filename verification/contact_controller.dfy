/**
 Contact management for one business: list with filters, create with every
 field required, update with a fallback to the old value for each falsy
 field, and delete. Each save runs the schema's setters and validators and
 is refused when it would break a unique index. Update and delete act only
 on a contact matching both the id and the caller's business.
 */
module ContactController {
  import opened Js
  import opened Ids
  import opened ContactModel

  /** The request body of a create or an update; every field may be absent. */
  datatype ContactRequest = ContactRequest(
    name: Option<string>,
    phone: Option<string>,
    email: Option<string>,
    address: Option<string>,
    ctype: Option<string>)

  datatype ContactReply =
    | Created(id: ContactId, contact: Contact)
    | Updated(id: ContactId, contact: Contact)
    | Deleted(id: ContactId, contact: Contact)
    | MissingFields
    | NotFound
    /** The save failed validation on these fields. */
    | Invalid(errors: set<Field>)
    /** The save would repeat a phone or an email already stored. */
    | Duplicate

  function StatusCode(r: ContactReply): int {
    match r
    case Created(_, _) => 201
    case Updated(_, _) => 200
    case Deleted(_, _) => 200
    case MissingFields => 400
    case NotFound => 404
    case Invalid(_) => 500
    case Duplicate => 500
  }

  datatype ContactOutcome = ContactOutcome(store: ContactStore, reply: ContactReply)

  datatype SaveResult = SaveInvalid(errors: set<Field>) | SaveDuplicate | SaveOk(contact: Contact)

  /** What a save of draft `d` under id `id` does: run the setters and the
      validators, then check the unique indexes against the other contacts. */
  function Save(store: ContactStore, id: ContactId, d: ContactDraft): (r: SaveResult)
    ensures r.SaveInvalid? ==> Validate(Normalize(d)) == Rejected(r.errors)
    ensures !r.SaveInvalid? ==> Validate(Normalize(d)).Accepted?
    ensures r.SaveDuplicate? ==> Clashes(store, id, Trim(d.phone), Lower(Trim(d.email)))
    ensures r.SaveOk? ==>
      && r.contact == Validate(Normalize(d)).contact
      && !Clashes(store, id, r.contact.phone, r.contact.email)
  {
    match Validate(Normalize(d))
    case Rejected(errs) => SaveInvalid(errs)
    case Accepted(c) => if Clashes(store, id, c.phone, c.email) then SaveDuplicate else SaveOk(c)
  }

  /** `createContact`; `id` is the fresh id the database assigns. */
  function CreateContact(store: ContactStore, business: BusinessId, id: ContactId,
                         req: ContactRequest): (o: ContactOutcome)
    requires id !in store
    ensures o.reply.Created? || o.reply.MissingFields? || o.reply.Invalid? || o.reply.Duplicate?
    ensures o.reply.MissingFields? <==>
      !(TruthyStr(req.name) && TruthyStr(req.phone) && TruthyStr(req.email)
        && TruthyStr(req.address) && TruthyStr(req.ctype))
    ensures !o.reply.Created? ==> o.store == store
    ensures o.reply.Invalid? ==> o.reply.errors != {}
    ensures o.reply.Invalid? && Phone in o.reply.errors ==> !IsPhone(Trim(req.phone.value))
    ensures o.reply.Invalid? && Email in o.reply.errors ==> !EmailPattern(Lower(Trim(req.email.value)))
    ensures o.reply.Duplicate? ==> Clashes(store, id, Trim(req.phone.value), Lower(Trim(req.email.value)))
    ensures !o.reply.MissingFields? ==>
      var n := Normalize(ContactDraft(req.name.value, req.phone.value, req.email.value,
        req.address.value, req.ctype.value, business));
      && (o.reply.Invalid? <==> Validate(n).Rejected?)
      && (o.reply.Invalid? ==> o.reply.errors == Validate(n).errors)
      && (o.reply.Created? <==> Validate(n).Accepted? && !Clashes(store, id, n.phone, n.email))
      && (o.reply.Created? ==> o.reply.contact == Validate(n).contact)
    ensures o.reply.Created? ==>
      && o.reply.id == id
      && o.store == store[id := o.reply.contact]
      && o.reply.contact.businessId == business
      && o.reply.contact.name == Trim(req.name.value)
      && o.reply.contact.phone == Trim(req.phone.value)
      && o.reply.contact.email == Lower(Trim(req.email.value))
      && o.reply.contact.address == Trim(req.address.value)
      && TypeName(o.reply.contact.ctype) == req.ctype.value
      && Valid(o.reply.contact)
      && !Clashes(store, id, o.reply.contact.phone, o.reply.contact.email)
  {
    if !(TruthyStr(req.name) && TruthyStr(req.phone) && TruthyStr(req.email)
         && TruthyStr(req.address) && TruthyStr(req.ctype)) then
      ContactOutcome(store, MissingFields)
    else
      var d := ContactDraft(req.name.value, req.phone.value, req.email.value,
        req.address.value, req.ctype.value, business);
      match Save(store, id, d)
      case SaveInvalid(errs) => ContactOutcome(store, Invalid(errs))
      case SaveDuplicate => ContactOutcome(store, Duplicate)
      case SaveOk(c) => ContactOutcome(store[id := c], Created(id, c))
  }

  /** The filters of `getAllContacts`. The four text filters are
      case-insensitive regular-expression searches; `matches(pattern, value)`
      stands for one. The type filter is an exact match. Each applies only
      when it is a non-empty string. */
  datatype ContactQuery = ContactQuery(
    name: Option<string>,
    email: Option<string>,
    phone: Option<string>,
    address: Option<string>,
    ctype: Option<string>)

  predicate Selected(c: Contact, q: ContactQuery, matches: (string, string) -> bool) {
    && (TruthyStr(q.name) ==> matches(q.name.value, c.name))
    && (TruthyStr(q.email) ==> matches(q.email.value, c.email))
    && (TruthyStr(q.phone) ==> matches(q.phone.value, c.phone))
    && (TruthyStr(q.address) ==> matches(q.address.value, c.address))
    && (TruthyStr(q.ctype) ==> TypeName(c.ctype) == q.ctype.value)
  }

  /** `getAllContacts`: the caller's contacts that pass the filters. */
  function GetAllContacts(store: ContactStore, business: BusinessId, q: ContactQuery,
                          matches: (string, string) -> bool): (r: map<ContactId, Contact>)
    ensures forall id :: id in r ==>
      id in store && r[id] == store[id] && r[id].businessId == business && Selected(r[id], q, matches)
    ensures forall id :: Owned(store, id, business) && Selected(store[id], q, matches) ==> id in r
  {
    map id | id in store && store[id].businessId == business && Selected(store[id], q, matches)
      :: store[id]
  }

  /** The draft an update assigns: each field is the new value when truthy
      and the old one otherwise; the owner never changes. */
  function Merge(c: Contact, req: ContactRequest): (d: ContactDraft)
    ensures d.name == (if TruthyStr(req.name) then req.name.value else c.name)
    ensures d.phone == (if TruthyStr(req.phone) then req.phone.value else c.phone)
    ensures d.email == (if TruthyStr(req.email) then req.email.value else c.email)
    ensures d.address == (if TruthyStr(req.address) then req.address.value else c.address)
    ensures d.ctype == (if TruthyStr(req.ctype) then req.ctype.value else TypeName(c.ctype))
    ensures d.businessId == c.businessId
  {
    ContactDraft(OrStr(req.name, c.name), OrStr(req.phone, c.phone), OrStr(req.email, c.email),
      OrStr(req.address, c.address), OrStr(req.ctype, TypeName(c.ctype)), c.businessId)
  }

  predicate Owned(store: ContactStore, id: ContactId, business: BusinessId) {
    id in store && store[id].businessId == business
  }

  /** `updateContact`. */
  function UpdateContact(store: ContactStore, business: BusinessId, id: ContactId,
                         req: ContactRequest): (o: ContactOutcome)
    ensures o.reply.Updated? || o.reply.NotFound? || o.reply.Invalid? || o.reply.Duplicate?
    ensures o.reply.NotFound? <==> !Owned(store, id, business)
    ensures !o.reply.Updated? ==> o.store == store
    ensures Owned(store, id, business) ==>
      var n := Normalize(Merge(store[id], req));
      && (o.reply.Invalid? <==> Validate(n).Rejected?)
      && (o.reply.Invalid? ==> o.reply.errors == Validate(n).errors)
      && (o.reply.Updated? <==> Validate(n).Accepted? && !Clashes(store, id, n.phone, n.email))
      && (o.reply.Updated? ==> o.reply.contact == Validate(n).contact)
    ensures o.reply.Updated? ==>
      && o.reply.id == id
      && o.store == store[id := o.reply.contact]
      && o.reply.contact.businessId == store[id].businessId
      && (TruthyStr(req.name) ==> o.reply.contact.name == Trim(req.name.value))
      && (TruthyStr(req.phone) ==> o.reply.contact.phone == Trim(req.phone.value))
      && (TruthyStr(req.email) ==> o.reply.contact.email == Lower(Trim(req.email.value)))
      && (TruthyStr(req.address) ==> o.reply.contact.address == Trim(req.address.value))
      && (TruthyStr(req.ctype) ==> TypeName(o.reply.contact.ctype) == req.ctype.value)
      && (!TruthyStr(req.ctype) ==> o.reply.contact.ctype == store[id].ctype)
      && Valid(o.reply.contact)
      && !Clashes(store, id, o.reply.contact.phone, o.reply.contact.email)
  {
    if !Owned(store, id, business) then
      ContactOutcome(store, NotFound)
    else
      var d := Merge(store[id], req);
      ParseTypeName(store[id].ctype);
      match Save(store, id, d)
      case SaveInvalid(errs) => ContactOutcome(store, Invalid(errs))
      case SaveDuplicate => ContactOutcome(store, Duplicate)
      case SaveOk(c) => ContactOutcome(store[id := c], Updated(id, c))
  }

  /** `deleteContact`: removes exactly the contact matching the id and the
      caller's business, or answers not-found and removes nothing. */
  function DeleteContact(store: ContactStore, business: BusinessId, id: ContactId): (o: ContactOutcome)
    ensures o.reply.Deleted? || o.reply.NotFound?
    ensures o.reply.Deleted? <==> Owned(store, id, business)
    ensures o.reply.Deleted? ==>
      o.reply.id == id && o.reply.contact == store[id]
      && o.store.Keys == store.Keys - {id}
      && forall other :: other in o.store ==> o.store[other] == store[other]
    ensures o.reply.NotFound? ==> o.store == store
  {
    if Owned(store, id, business) then
      ContactOutcome(store - {id}, Deleted(id, store[id]))
    else
      ContactOutcome(store, NotFound)
  }

  /** An update keeps the stored value of every field the request leaves
      falsy, as long as the stored contact is normalized (as every saved
      contact is): re-running the setters on a stored value changes nothing. */
  lemma UpdateKeepsFalsyFields(store: ContactStore, business: BusinessId, id: ContactId,
                               req: ContactRequest)
    requires id in store && Normalized(store[id])
    requires UpdateContact(store, business, id, req).reply.Updated?
    ensures var c := UpdateContact(store, business, id, req).reply.contact;
      && (!TruthyStr(req.name) ==> c.name == store[id].name)
      && (!TruthyStr(req.phone) ==> c.phone == store[id].phone)
      && (!TruthyStr(req.email) ==> c.email == store[id].email)
      && (!TruthyStr(req.address) ==> c.address == store[id].address)
  {
    var d := Merge(store[id], req);
    var c := UpdateContact(store, business, id, req).reply.contact;
    assert Save(store, id, d) == SaveOk(c);
    assert DraftOf(c) == Normalize(d);
    MergeNormalized(store[id], req);
  }

  /** Running the setters over a merge of a normalized contact gives back
      the contact's own value for every field the request leaves falsy. */
  lemma MergeNormalized(c: Contact, req: ContactRequest)
    requires Normalized(c)
    ensures var n := Normalize(Merge(c, req));
      && (!TruthyStr(req.name) ==> n.name == c.name)
      && (!TruthyStr(req.phone) ==> n.phone == c.phone)
      && (!TruthyStr(req.email) ==> n.email == c.email)
      && (!TruthyStr(req.address) ==> n.address == c.address)
  {
    TrimFixesTrimmed(c.name);
    TrimFixesTrimmed(c.phone);
    TrimFixesTrimmed(c.email);
    TrimFixesTrimmed(c.address);
    LowerFixesNoUpper(c.email);
  }

  /** An update whose fields are all absent or empty rewrites the stored
      contact with itself: it succeeds and leaves the collection as it was. */
  lemma EmptyUpdateKeepsStore(store: ContactStore, business: BusinessId, id: ContactId,
                              req: ContactRequest)
    requires WellFormed(store)
    requires Owned(store, id, business)
    requires !TruthyStr(req.name) && !TruthyStr(req.phone) && !TruthyStr(req.email)
      && !TruthyStr(req.address) && !TruthyStr(req.ctype)
    ensures UpdateContact(store, business, id, req) == ContactOutcome(store, Updated(id, store[id]))
  {
    EmptyMergeSaves(store, id, req);
    RewriteSame(store, id);
  }

  /** The merge of an empty update is the stored contact, and saving it
      again succeeds unchanged. */
  lemma EmptyMergeSaves(store: ContactStore, id: ContactId, req: ContactRequest)
    requires WellFormed(store)
    requires id in store
    requires !TruthyStr(req.name) && !TruthyStr(req.phone) && !TruthyStr(req.email)
      && !TruthyStr(req.address) && !TruthyStr(req.ctype)
    ensures Save(store, id, Merge(store[id], req)) == SaveOk(store[id])
  {
    assert Merge(store[id], req) == DraftOf(store[id]);
    SaveStored(store, id);
  }

  /** Writing a contact over itself leaves the collection as it was. */
  lemma RewriteSame(store: ContactStore, id: ContactId)
    requires id in store
    ensures store[id := store[id]] == store
  {
  }

  /** Saving a stored contact of a well-formed collection again succeeds
      and stores the same contact. */
  lemma SaveStored(store: ContactStore, id: ContactId)
    requires WellFormed(store)
    requires id in store
    ensures Save(store, id, DraftOf(store[id])) == SaveOk(store[id])
  {
    var c := store[id];
    NormalizeStored(c);
    ValidateValid(c);
    UniqueNoClash(store, id);
  }

  /** Create keeps the collection well formed: every stored contact valid,
      normalized, and unique in phone and email. */
  lemma CreatePreservesWellFormed(store: ContactStore, business: BusinessId, id: ContactId,
                                  req: ContactRequest)
    requires id !in store
    requires WellFormed(store)
    ensures WellFormed(CreateContact(store, business, id, req).store)
  {
    var o := CreateContact(store, business, id, req);
    if o.reply.Created? {
      var d := ContactDraft(req.name.value, req.phone.value, req.email.value,
        req.address.value, req.ctype.value, business);
      assert Save(store, id, d).SaveOk?;
      NormalizedAccepted(d);
      WellFormedWrite(store, id, o.reply.contact);
    }
  }

  /** Update keeps the collection well formed. */
  lemma UpdatePreservesWellFormed(store: ContactStore, business: BusinessId, id: ContactId,
                                  req: ContactRequest)
    requires WellFormed(store)
    ensures WellFormed(UpdateContact(store, business, id, req).store)
  {
    var o := UpdateContact(store, business, id, req);
    if o.reply.Updated? {
      var d := Merge(store[id], req);
      assert Save(store, id, d).SaveOk?;
      NormalizedAccepted(d);
      WellFormedWrite(store, id, o.reply.contact);
    }
  }

  /** Delete keeps the collection well formed. */
  lemma DeletePreservesWellFormed(store: ContactStore, business: BusinessId, id: ContactId)
    requires WellFormed(store)
    ensures WellFormed(DeleteContact(store, business, id).store)
  {
    WellFormedSubset(store, DeleteContact(store, business, id).store);
  }

  /** A created contact appears in its own business's unfiltered listing and
      in no other business's listing, whatever the filters. */
  lemma CreatedListed(store: ContactStore, business: BusinessId, id: ContactId,
                      req: ContactRequest, matches: (string, string) -> bool)
    requires id !in store
    requires CreateContact(store, business, id, req).reply.Created?
    ensures var s := CreateContact(store, business, id, req).store;
      && id in GetAllContacts(s, business, ContactQuery(None, None, None, None, None), matches)
      && forall other, q :: other != business ==> id !in GetAllContacts(s, other, q, matches)
  {
    var o := CreateContact(store, business, id, req);
    assert o.store[id] == o.reply.contact && o.reply.contact.businessId == business;
    assert Selected(o.store[id], ContactQuery(None, None, None, None, None), matches);
  }

  /** Uniqueness spans businesses: a business cannot add a contact whose
      phone another business already uses. */
  lemma PhoneUniqueAcrossBusinesses(store: ContactStore, business: BusinessId, id: ContactId,
                                    req: ContactRequest, other: ContactId)
    requires id !in store
    requires other in store && store[other].businessId != business
    requires req.phone.Some? && Trim(req.phone.value) == store[other].phone
    ensures !CreateContact(store, business, id, req).reply.Created?
  {
  }
}
