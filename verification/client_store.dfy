/** The client collection (`ClientRepository` over the `Client` schema).

    A stored client is an account together with the fields only listings
    and statistics look at. The schema requires a non-empty name, e-mail and
    password, keeps e-mails unique, and defaults `role` to client and
    `isVerified` and `isBlocked` to false. */
module ClientStore {

  import opened Outcome
  import opened Accounts
  import opened Records
  import opened Pagination

  /** A client document. `gender` is the value the gender statistics group
      by; the account record the flows pass around does not hold it, so it
      travels beside the account. */
  datatype ClientDoc = ClientDoc(account: Account, gender: Option<string>, createdAt: int)

  /** The values the schema's `gender` enumeration admits. */
  const Genders: seq<string> := ["Male", "Female", "Other"]

  type Clients = seq<ClientDoc>

  const ValidationFailed: string := "Client validation failed"
  const DuplicateKey: string := "E11000 duplicate key error collection: clients index: email_1"

  predicate HasEmail(d: ClientDoc, email: string) { d.account.email == Some(email) }
  predicate HasId(d: ClientDoc, id: string) { d.account.id == Some(id) }

  /** `findByEmail` (and `findByEmailWithCredentials`, which only adds the
      password the schema already returns): the first client with that
      e-mail. */
  function FindByEmail(clients: Clients, email: string): (r: Option<Account>)
    ensures r.None? <==> forall i :: 0 <= i < |clients| ==> !HasEmail(clients[i], email)
    ensures r.Some? ==> (r.value.email == Some(email) &&
              exists i :: 0 <= i < |clients| && clients[i].account == r.value)
  {
    var i := FirstIndex(clients, d => HasEmail(d, email));
    if i < |clients| then Some(clients[i].account) else None
  }

  /** `findById`: the client with that id. */
  function FindById(clients: Clients, id: string): (r: Option<Account>)
    ensures r.None? <==> forall i :: 0 <= i < |clients| ==> !HasId(clients[i], id)
    ensures r.Some? ==> (r.value.id == Some(id) &&
              exists i :: 0 <= i < |clients| && clients[i].account == r.value)
  {
    var i := FirstIndex(clients, d => HasId(d, id));
    if i < |clients| then Some(clients[i].account) else None
  }

  /** The value an update leaves in a field: the update's, when it carries
      one, else the stored one. */
  function Pick<T>(patch: Option<T>, prior: Option<T>): (v: Option<T>)
    ensures patch.Some? ==> v == patch
    ensures patch.None? ==> v == prior
  {
    if patch.Some? then patch else prior
  }

  /** The fields an update document sets: each one it carries. */
  function Merge(prior: Account, patch: Account): (a: Account)
    ensures a.id == prior.id
    ensures patch.email.Some? ==> a.email == patch.email
    ensures patch.email.None? ==> a.email == prior.email
    ensures patch.password.Some? ==> a.password == patch.password
    ensures patch.password.None? ==> a.password == prior.password
    ensures patch.name.Some? ==> a.name == patch.name
    ensures patch.name.None? ==> a.name == prior.name
    ensures patch.phone.Some? ==> a.phone == patch.phone
    ensures patch.phone.None? ==> a.phone == prior.phone
    ensures patch.isBlocked.Some? ==> a.isBlocked == patch.isBlocked
    ensures patch.isBlocked.None? ==> a.isBlocked == prior.isBlocked
    ensures patch.isVerified.Some? ==> a.isVerified == patch.isVerified
    ensures patch.isVerified.None? ==> a.isVerified == prior.isVerified
    ensures patch.role.Some? ==> a.role == patch.role
    ensures patch.role.None? ==> a.role == prior.role
    ensures patch.profile.Some? ==> a.profile == patch.profile
    ensures patch.profile.None? ==> a.profile == prior.profile
    ensures patch.profileImage.Some? ==> a.profileImage == patch.profileImage
    ensures patch.profileImage.None? ==> a.profileImage == prior.profileImage
    ensures patch.qualifications.Some? ==> a.qualifications == patch.qualifications
    ensures patch.qualifications.None? ==> a.qualifications == prior.qualifications
    ensures patch.specialization.Some? ==> a.specialization == patch.specialization
    ensures patch.specialization.None? ==> a.specialization == prior.specialization
    ensures patch.experience.Some? ==> a.experience == patch.experience
    ensures patch.experience.None? ==> a.experience == prior.experience
  {
    Account(
      prior.id,
      Pick(patch.email, prior.email),
      Pick(patch.password, prior.password),
      Pick(patch.name, prior.name),
      Pick(patch.phone, prior.phone),
      Pick(patch.isBlocked, prior.isBlocked),
      Pick(patch.isVerified, prior.isVerified),
      Pick(patch.role, prior.role),
      Pick(patch.profile, prior.profile),
      Pick(patch.profileImage, prior.profileImage),
      Pick(patch.qualifications, prior.qualifications),
      Pick(patch.specialization, prior.specialization),
      Pick(patch.experience, prior.experience))
  }

  /** `update` (`findByIdAndUpdate`): the client with that id takes every
      field the update carries; no other client changes, and an unknown id
      changes nothing. */
  function Update(clients: Clients, id: string, patch: Account): (s: Clients)
    ensures |s| == |clients|
    ensures forall i :: 0 <= i < |clients| ==>
              s[i] == if HasId(clients[i], id) && i == FirstIndex(clients, d => HasId(d, id))
                      then clients[i].(account := Merge(clients[i].account, patch))
                      else clients[i]
  {
    var k := FirstIndex(clients, d => HasId(d, id));
    if k < |clients| then clients[k := clients[k].(account := Merge(clients[k].account, patch))]
    else clients
  }

  /** `create` under the schema: a missing or empty name, e-mail or password,
      or a gender outside the enumeration, is a validation error, an e-mail
      already stored a duplicate-key error; otherwise the document is
      stored with the schema's defaults, the id `freshId` and the gender
      the registration data carries. */
  function Create(clients: Clients, data: Account, gender: Option<string>, freshId: string, now: int)
    : (r: Result<Created<Clients>>)
    ensures !(Truthy(data.name) && Truthy(data.email) && Truthy(data.password)) ==>
              r == Err(Plain(ValidationFailed))
    ensures gender.Some? && gender.value !in Genders ==> r == Err(Plain(ValidationFailed))
    ensures Truthy(data.email) && FindByEmail(clients, data.email.value).Some? &&
            Truthy(data.name) && Truthy(data.password) && (gender.None? || gender.value in Genders) ==>
              r == Err(Plain(DuplicateKey))
    ensures r.Ok? ==> r.value.users == clients + [ClientDoc(r.value.account, gender, now)]
    ensures r.Ok? ==> (r.value.account.id == Some(freshId) && r.value.account.email == data.email &&
              r.value.account.role.Some? && r.value.account.isVerified.Some? && r.value.account.isBlocked.Some?)
  {
    if !(Truthy(data.name) && Truthy(data.email) && Truthy(data.password)) then Err(Plain(ValidationFailed))
    else if gender.Some? && gender.value !in Genders then Err(Plain(ValidationFailed))
    else if FindByEmail(clients, data.email.value).Some? then Err(Plain(DuplicateKey))
    else
      var stored := data.(
        id := Some(freshId),
        role := Some(data.role.GetOr(Client)),
        isVerified := Some(data.isVerified.GetOr(false)),
        isBlocked := Some(data.isBlocked.GetOr(false)),
        qualifications := None,
        specialization := None,
        experience := None,
        profileImage := None);
      Ok(Created(clients + [ClientDoc(stored, gender, now)], stored))
  }

  /** The repository the client flows use. New ids come from `mint`, keyed
      by the number of stored clients; `now` stamps new documents, and
      `gender` is the gender the data spread into `create` carries. */
  function Repo(mint: nat -> string, now: int, gender: Option<string>): Repository<Clients> {
    Repository(
      (c: Clients, e: string) => FindByEmail(c, e),
      (c: Clients, e: string) => FindByEmail(c, e),
      (c: Clients, id: string) => FindById(c, id),
      (c: Clients, id: string, a: Account) => Ok(Update(c, id, a)),
      (c: Clients, a: Account) => Create(c, a, gender, mint(|c|), now),
      Some((c: Clients, e: string, p: string) => Ok(UpdatePassword(c, e, p))))
  }

  /** Whether a client passes the listing filter: a flag narrows the listing
      only when it is given. */
  predicate MatchesFilter(d: ClientDoc, isVerified: Option<bool>, isBlocked: Option<bool>) {
    (isVerified.None? || d.account.isVerified == isVerified) &&
    (isBlocked.None? || d.account.isBlocked == isBlocked)
  }

  /** `findMany`: the clients passing the filter, skipping `offset` of them
      and taking at most `limit`, in store order. */
  function FindMany(clients: Clients, offset: nat, limit: nat, isVerified: Option<bool>, isBlocked: Option<bool>): (p: Page<ClientDoc>)
    requires limit > 0
    ensures p.totalItems == Count(clients, d => MatchesFilter(d, isVerified, isBlocked))
    ensures |p.items| <= limit
    ensures forall i :: 0 <= i < |p.items| ==> p.items[i] in clients && MatchesFilter(p.items[i], isVerified, isBlocked)
    ensures p.items == Window(Filter(clients, d => MatchesFilter(d, isVerified, isBlocked)), offset, limit)
    ensures p.hasNextPage <==> p.currentPage < p.totalPages
    ensures p.hasPreviousPage <==> offset >= limit
  {
    var matches := Filter(clients, d => MatchesFilter(d, isVerified, isBlocked));
    Paginate(matches, offset, limit)
  }

  /** A client passing the filter, with `m` passing clients stored before
      it, is item `m - offset` of the page whenever `m` falls in the page. */
  lemma ClientOnItsPage(clients: Clients, offset: nat, limit: nat, isVerified: Option<bool>, isBlocked: Option<bool>, j: nat)
    requires limit > 0 && j < |clients| && MatchesFilter(clients[j], isVerified, isBlocked)
    requires var m := Count(clients[..j], d => MatchesFilter(d, isVerified, isBlocked));
             offset <= m < offset + limit
    ensures var m := Count(clients[..j], d => MatchesFilter(d, isVerified, isBlocked));
            var p := FindMany(clients, offset, limit, isVerified, isBlocked);
            m - offset < |p.items| && p.items[m - offset] == clients[j]
  {
    FilterRank(clients, d => MatchesFilter(d, isVerified, isBlocked), j);
  }

  /** `findManyByLawyerId`: the same listing filtered on `lawyerId`, a path
      the client schema does not declare. No client stores it, so the
      filter matches every client or none, as `q` decides, whatever the
      lawyer. */
  function FindManyByLawyerId(clients: Clients, lawyerId: string, offset: nat, limit: nat, q: StrictQuery)
    : (p: Page<ClientDoc>)
    requires limit > 0
    ensures q == KeepsPath ==> p.items == [] && p.totalItems == 0 && !p.hasNextPage
    ensures q == DropsPath ==> p.totalItems == |clients| && p.items == Window(clients, offset, limit)
    ensures |p.items| <= limit
    ensures p.hasNextPage <==> p.currentPage < p.totalPages
    ensures p.hasPreviousPage <==> offset >= limit
  {
    Paginate(UndeclaredMatches(clients, q), offset, limit)
  }

  /** The lawyer id plays no part in `findManyByLawyerId`: when the
      condition is dropped, the listing is the unfiltered `findMany`, so a
      client is item `j - offset` of the page whenever `j` falls in it,
      whichever lawyer asked. */
  lemma LawyerClientOnItsPage(clients: Clients, lawyerId: string, other: string, offset: nat, limit: nat,
                              q: StrictQuery, j: nat)
    requires limit > 0 && j < |clients| && offset <= j < offset + limit
    ensures FindManyByLawyerId(clients, lawyerId, offset, limit, q) == FindManyByLawyerId(clients, other, offset, limit, q)
    ensures q == DropsPath ==>
              FindManyByLawyerId(clients, lawyerId, offset, limit, q) == FindMany(clients, offset, limit, None, None)
    ensures q == DropsPath ==>
              var p := FindManyByLawyerId(clients, lawyerId, offset, limit, q);
              j - offset < |p.items| && p.items[j - offset] == clients[j]
  {
    if q == DropsPath {
      FilterAll(clients, d => MatchesFilter(d, None, None));
    }
  }

  /** `updateOne({ email }, fields)`: the first client with that e-mail
      takes the fields; nothing else changes. */
  function UpdateByEmail(clients: Clients, email: string, patch: Account): (s: Clients)
    ensures |s| == |clients|
    ensures forall i :: 0 <= i < |clients| && i != FirstIndex(clients, d => HasEmail(d, email)) ==> s[i] == clients[i]
  {
    var k := FirstIndex(clients, d => HasEmail(d, email));
    if k < |clients| then clients[k := clients[k].(account := Merge(clients[k].account, patch))]
    else clients
  }

  /** `markAsVerified`: sets `isVerified` of that e-mail's client. */
  function MarkAsVerified(clients: Clients, email: string): (s: Clients)
    ensures |s| == |clients|
  {
    UpdateByEmail(clients, email, Blank.(isVerified := Some(true)))
  }

  /** `updatePassword`: sets the password of that e-mail's client. */
  function UpdatePassword(clients: Clients, email: string, password: string): (s: Clients)
    ensures |s| == |clients|
  {
    UpdateByEmail(clients, email, Blank.(password := Some(password)))
  }

  /** `markAsVerified` and `updatePassword` change one field of the
      matching client and nothing else. */
  lemma SingleFieldUpdates(clients: Clients, email: string, password: string)
    requires FindByEmail(clients, email).Some?
    ensures var k := FirstIndex(clients, d => HasEmail(d, email));
            k < |clients| &&
            MarkAsVerified(clients, email)[k].account == clients[k].account.(isVerified := Some(true)) &&
            UpdatePassword(clients, email, password)[k].account == clients[k].account.(password := Some(password))
    ensures forall i :: 0 <= i < |clients| && i != FirstIndex(clients, d => HasEmail(d, email)) ==>
              MarkAsVerified(clients, email)[i] == clients[i] &&
              UpdatePassword(clients, email, password)[i] == clients[i]
  {
  }

  /** A client stored by `create` is found again by its e-mail and its id,
      with the defaults the schema fills in. */
  lemma CreateThenFind(clients: Clients, data: Account, gender: Option<string>, freshId: string, now: int)
    requires Create(clients, data, gender, freshId, now).Ok?
    requires forall i :: 0 <= i < |clients| ==> !HasId(clients[i], freshId)
    ensures var c := Create(clients, data, gender, freshId, now).value;
            c.users[|clients|].gender == gender &&
            FindByEmail(c.users, data.email.value) == Some(c.account) &&
            FindById(c.users, freshId) == Some(c.account) &&
            c.account.role == Some(data.role.GetOr(Client)) &&
            c.account.isVerified == Some(data.isVerified.GetOr(false)) &&
            c.account.isBlocked == Some(data.isBlocked.GetOr(false))
  {
    var c := Create(clients, data, gender, freshId, now).value;
    var e := data.email.value;
    assert FindByEmail(clients, e).None?;
    assert forall i :: 0 <= i < |clients| ==> c.users[i] == clients[i];
    assert HasEmail(c.users[|clients|], e) && HasId(c.users[|clients|], freshId);
    assert FirstIndex(c.users, d => HasEmail(d, e)) == |clients|;
    assert FirstIndex(c.users, d => HasId(d, freshId)) == |clients|;
  }
}
