/** The OTP store (`OtpRepository`): a collection of one-time codes kept in
    the order they were created. Each record carries the time the store
    stamped on it (`createdAt`). */
module OtpStore {

  import opened Outcome

  /** A stored code: whom it was mailed to, the code, when it stops being
      valid and when it was stored (all times in milliseconds). */
  datatype Otp = Otp(email: string, code: string, expiry: int, createdAt: int)

  /** The stored codes, oldest first. */
  type Store = seq<Otp>

  /** Whether the store holds a code for `email`. */
  predicate HasCodeFor(store: Store, email: string) {
    exists i :: 0 <= i < |store| && store[i].email == email
  }

  /** Records are stamped in creation order. */
  predicate Chronological(store: Store) {
    forall i, j :: 0 <= i < j < |store| ==> store[i].createdAt <= store[j].createdAt
  }

  /** `create`: stores one more record and keeps every earlier one. */
  function Create(store: Store, otp: Otp): (s: Store)
    ensures |s| == |store| + 1
    ensures forall i :: 0 <= i < |store| ==> s[i] == store[i]
    ensures s[|store|] == otp
    ensures multiset(s) == multiset(store) + multiset{otp}
  {
    store + [otp]
  }

  /** `findByEmail`: the newest record for `email` (sorted by `createdAt`
      descending; of records stamped at the same instant, the one stored
      last). */
  function FindByEmail(store: Store, email: string): (r: Option<Otp>)
    ensures r.None? <==> !HasCodeFor(store, email)
    ensures r.Some? ==>
              exists i :: 0 <= i < |store| && store[i] == r.value && r.value.email == email &&
                forall j :: i < j < |store| ==> store[j].email != email
  {
    if |store| == 0 then None
    else if store[|store| - 1].email == email then Some(store[|store| - 1])
    else
      var r := FindByEmail(store[..|store| - 1], email);
      assert forall i :: 0 <= i < |store| - 1 ==> store[..|store| - 1][i] == store[i];
      r
  }

  /** `findOne`: the first record whose code and e-mail both match. */
  function FindOne(store: Store, code: string, email: string): (r: Option<Otp>)
    ensures r.None? <==> forall i :: 0 <= i < |store| ==> !(store[i].code == code && store[i].email == email)
    ensures r.Some? ==> r.value in store && r.value.code == code && r.value.email == email
  {
    if |store| == 0 then None
    else if store[0].code == code && store[0].email == email then Some(store[0])
    else
      var r := FindOne(store[1..], code, email);
      assert forall i :: 1 <= i < |store| ==> store[i] == store[1..][i - 1];
      r
  }

  /** `deleteByEmail` and `deleteMany`: both remove every record for the
      e-mail. */
  function DeleteByEmail(store: Store, email: string): (s: Store)
    ensures forall i :: 0 <= i < |s| ==> s[i].email != email
    ensures forall o :: o in store && o.email != email ==> o in s
    ensures forall o :: o in s ==> o in store
    ensures |s| <= |store|
  {
    if |store| == 0 then []
    else
      var rest := DeleteByEmail(store[1..], email);
      assert forall o :: o in store ==> o == store[0] || o in store[1..];
      if store[0].email == email then rest else [store[0]] + rest
  }

  // ---------------------------------------------------------------------
  // What the operations do to one another.

  /** The newest code wins: right after storing a record, it is what
      `findByEmail` returns for its e-mail, and the answer for every other
      e-mail is unchanged. */
  lemma CreateThenFind(store: Store, otp: Otp, email: string)
    ensures FindByEmail(Create(store, otp), otp.email) == Some(otp)
    ensures email != otp.email ==> FindByEmail(Create(store, otp), email) == FindByEmail(store, email)
  {
    assert Create(store, otp)[..|store|] == store;
  }

  /** After deleting an e-mail's codes nothing is found for it, and the
      lookups of other e-mails are unchanged. */
  lemma {:induction false} DeleteThenFind(store: Store, deleted: string, email: string)
    ensures FindByEmail(DeleteByEmail(store, deleted), deleted).None?
    ensures email != deleted ==> FindByEmail(DeleteByEmail(store, deleted), email) == FindByEmail(store, email)
    decreases |store|
  {
    var s := DeleteByEmail(store, deleted);
    assert !HasCodeFor(s, deleted);
    if email != deleted && |store| > 0 {
      var last := store[|store| - 1];
      var init := store[..|store| - 1];
      assert store == init + [last];
      var d := DeleteByEmail(init, deleted);
      DeleteAppend(init, last, deleted);
      DeleteThenFind(init, deleted, email);
      FindAppend(init, last, email);
      if last.email == deleted {
        assert s == d;
      } else {
        assert s == d + [last];
        FindAppend(d, last, email);
      }
    }
  }

  /** Looking up after appending one record finds that record for its own
      e-mail and what was found before for any other. */
  lemma FindAppend(store: Store, otp: Otp, email: string)
    ensures FindByEmail(store + [otp], email) ==
              if otp.email == email then Some(otp) else FindByEmail(store, email)
  {
    assert (store + [otp])[..|store|] == store;
  }

  /** Deleting distributes over appending one record. */
  lemma {:induction false} DeleteAppend(store: Store, otp: Otp, email: string)
    ensures DeleteByEmail(store + [otp], email) ==
              DeleteByEmail(store, email) + (if otp.email == email then [] else [otp])
    decreases |store|
  {
    if |store| == 0 {
      assert [otp][1..] == [];
    } else {
      assert (store + [otp])[1..] == store[1..] + [otp];
      DeleteAppend(store[1..], otp, email);
    }
  }

  /** `findOne` finds a record only for a code stored for that e-mail, and
      the newest code for an e-mail is always found by it. */
  lemma FindOneOfNewest(store: Store, email: string)
    requires FindByEmail(store, email).Some?
    ensures FindOne(store, FindByEmail(store, email).value.code, email).Some?
  {
  }

  /** When records are stamped in creation order, the newest record for an
      e-mail carries the latest `createdAt` of all its records. */
  lemma NewestIsLatest(store: Store, email: string)
    requires Chronological(store)
    requires FindByEmail(store, email).Some?
    ensures forall i :: 0 <= i < |store| && store[i].email == email ==>
              store[i].createdAt <= FindByEmail(store, email).value.createdAt
  {
    var r := FindByEmail(store, email).value;
    var k :| 0 <= k < |store| && store[k] == r && r.email == email &&
             forall j :: k < j < |store| ==> store[j].email != email;
    forall i | 0 <= i < |store| && store[i].email == email
      ensures store[i].createdAt <= r.createdAt
    {
      assert i <= k;
    }
  }

  /** Stamping a new record with a time no earlier than any stored one keeps
      the store chronological. */
  lemma CreateKeepsChronological(store: Store, otp: Otp)
    requires Chronological(store)
    requires forall i :: 0 <= i < |store| ==> store[i].createdAt <= otp.createdAt
    ensures Chronological(Create(store, otp))
  {
  }
}
