/** The admin area's client loader: who is sent where before the admin layout renders. */
module AdminLayout {
  import opened Js

  /** A user record of the users collection: `id` is `$id` (empty when falsy), `status` is
      None when the attribute is missing. */
  datatype UserRecord = UserRecord(id: string, status: Option<string>)

  /** The outcome of an awaited call: it threw, or it gave a value. */
  datatype Call<T> = Threw | Returned(value: T)

  /** What the loader does: redirect, admit with the existing record as loader data, or
      admit with the result of storeUserData (which was invoked). */
  datatype Decision = Redirect(path: string) | AdmitExisting(record: UserRecord) | AdmitStored

  predicate Admitted(d: Decision) {
    d.AdmitExisting? || d.AdmitStored?
  }

  /** clientLoader. `account` is `account.get()` (its `$id`), `existing` is
      `getExistingUser($id)` (null as None) and `store` is `storeUserData()`; each is used
      only when the code reaches it. */
  function ClientLoader(account: Call<string>, existing: Call<Option<UserRecord>>, store: Call<()>): (d: Decision)
    ensures account.Threw? ==> d == Redirect("/sign-in")
    ensures account == Returned("") ==> d == Redirect("/sign-in")
    ensures account.Returned? && account.value != "" && existing.Threw? ==> d == Redirect("/sign-in")
    // a `user`-status account is never admitted: a signed-in one is sent home
    ensures existing.Returned? && existing.value.Some? && existing.value.value.status == Some("user") ==>
              d.Redirect?
    ensures account.Returned? && account.value != "" && existing.Returned? && existing.value.Some?
            && existing.value.value.status == Some("user") ==>
              d == Redirect("/")
    // a stored record with an id and another status is admitted as itself
    ensures account.Returned? && account.value != "" && existing.Returned? && existing.value.Some?
            && existing.value.value.status != Some("user") && existing.value.value.id != "" ==>
              d == AdmitExisting(existing.value.value)
    // a new account (no record, or one without id and not `user`) is admitted once stored
    ensures account.Returned? && account.value != "" && existing.Returned?
            && (existing.value.None? || (existing.value.value.id == "" && existing.value.value.status != Some("user"))) ==>
              d == (if store.Returned? then AdmitStored else Redirect("/sign-in"))
    ensures Admitted(d) ==> account.Returned? && account.value != "" && existing.Returned?
    ensures d.AdmitExisting? ==>
              existing.value == Some(d.record) && d.record.id != "" && d.record.status != Some("user")
    ensures d.AdmitStored? ==>
              store.Returned? && (existing.value.None? || existing.value.value.id == "")
              && (existing.value.Some? ==> existing.value.value.status != Some("user"))
    ensures Admitted(d) ==> d != Redirect("/")
    ensures d.Redirect? ==> d.path == "/sign-in" || d.path == "/"
  {
    match account
    case Threw => Redirect("/sign-in")
    case Returned(id) =>
      if id == "" then Redirect("/sign-in")
      else
        match existing
        case Threw => Redirect("/sign-in")
        case Returned(rec) =>
          if rec.Some? && rec.value.status == Some("user") then Redirect("/")
          else if rec.Some? && rec.value.id != "" then AdmitExisting(rec.value)
          else
            match store
            case Threw => Redirect("/sign-in")
            case Returned(_) => AdmitStored
  }

  /** Every signed-in, stored account whose status is not `user` gets the admin layout with
      its own record; so does a status-less record. */
  lemma NonUserRecordAdmitted(id: string, rec: UserRecord, store: Call<()>)
    requires id != "" && rec.id != "" && rec.status != Some("user")
    ensures ClientLoader(Returned(id), Returned(Some(rec)), store) == AdmitExisting(rec)
  {
  }
}
